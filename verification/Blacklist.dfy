/** Removal of forbidden rsync arguments. */
module Blacklist {
  import opened Options

  /** One forbidden flag; `opt` says that it takes a value. `long` may be a match pattern. */
  datatype BlacklistArg = BlacklistArg(long: string, short: string, opt: bool)

  const BLACKLIST := [
    BlacklistArg("--debug", "", true),
    BlacklistArg("--info", "", true),
    BlacklistArg("--verbose", "-v", false),
    BlacklistArg("--delete*", "", false),
    BlacklistArg("--del", "", false),
    BlacklistArg("--rsh", "-e", true),
    BlacklistArg("--quiet", "-q", false),
    BlacklistArg("--force", "", false),
    BlacklistArg("--include", "", true),
    BlacklistArg("--exclude", "", true),
    BlacklistArg("--filter", "-f", true),
    BlacklistArg("--itemize-changes", "-i", false),
    BlacklistArg("--out-format", "", true),
    BlacklistArg("--partial", "", false),
    BlacklistArg("--progress", "-P", false),
    BlacklistArg("--daemon", "", false)
  ]

  /** `match.Match(s, pattern)` for patterns without a backslash. */
  predicate WildMatch(s: string, pattern: string)
    decreases |s| + |pattern|
  {
    if pattern == "" then s == ""
    else if pattern[0] == '*' then WildMatch(s, pattern[1..]) || (s != "" && WildMatch(s[1..], pattern))
    else s != "" && (pattern[0] == '?' || pattern[0] == s[0]) && WildMatch(s[1..], pattern[1..])
  }

  predicate Literal(s: string) {
    '*' !in s && '?' !in s
  }

  lemma {:induction false} StarMatchesAll(s: string)
    ensures WildMatch(s, "*")
  {
    if s != "" {
      StarMatchesAll(s[1..]);
    } else {
      assert WildMatch("", "*"[1..]);
    }
  }

  /** A literal followed by a star is a prefix test. */
  lemma {:induction false} PrefixMatch(s: string, literal: string)
    requires Literal(literal)
    ensures WildMatch(s, literal + "*") <==> literal <= s
  {
    if literal == "" {
      assert literal + "*" == "*";
      StarMatchesAll(s);
    } else {
      assert (literal + "*")[1..] == literal[1..] + "*";
      if s != "" {
        PrefixMatch(s[1..], literal[1..]);
        assert literal == [literal[0]] + literal[1..];
        assert s == [s[0]] + s[1..];
      }
    }
  }

  /** Does the flag match, and how many of the following tokens does it take with it? */
  function MatchArg(flag: BlacklistArg, arg: string): (bool, nat) {
    var n := if flag.opt then 1 else 0;
    if flag.short != "" && arg == flag.short then (true, n)
    else if flag.short != "" && flag.opt && flag.short <= arg then (true, 0)
    else if flag.long == "" then (false, 0)
    else if arg == flag.long then (true, n)
    else if '*' in flag.long then (WildMatch(arg, flag.long), n)
    else if flag.opt then (WildMatch(arg, flag.long + "=*"), 0)
    else (false, 0)
  }

  /** The first match in the table: how many tokens it swallows, or None for an allowed token. */
  function Lookup(table: seq<BlacklistArg>, arg: string): Option<nat> {
    if table == [] then None
    else
      var (matches, n) := MatchArg(table[0], arg);
      if matches then Some(n) else Lookup(table[1..], arg)
  }

  // ---------------------------------------------------------------------
  // What the table means

  const VALUE_LONGS := ["--debug", "--info", "--rsh", "--include", "--exclude", "--filter", "--out-format"]
  const VALUE_SHORTS := ["-e", "-f"]
  const SWITCHES := ["--verbose", "-v", "--del", "--quiet", "-q", "--force", "--itemize-changes", "-i",
                     "--partial", "--progress", "-P", "--daemon"]

  /** A flag written without its value: the value is the next token. */
  predicate TakesNext(arg: string) {
    arg in VALUE_LONGS || arg in VALUE_SHORTS
  }

  predicate Forbidden(arg: string) {
    || arg in SWITCHES
    || "--delete" <= arg
    || (exists short :: short in VALUE_SHORTS && short <= arg)
    || (exists long :: long in VALUE_LONGS && (arg == long || long + "=" <= arg))
  }

  predicate IsValueFlag(flag: BlacklistArg) {
    flag.opt && flag.long in VALUE_LONGS && (flag.short == "" || flag.short in VALUE_SHORTS)
  }

  predicate IsSwitch(flag: BlacklistArg) {
    !flag.opt && flag.long in SWITCHES && (flag.short == "" || flag.short in SWITCHES)
  }

  const DELETE := BlacklistArg("--delete*", "", false)

  lemma Kinds(flag: BlacklistArg)
    requires flag in BLACKLIST
    ensures IsValueFlag(flag) || IsSwitch(flag) || flag == DELETE
  {
  }

  lemma ValueLongs(x: string)
    requires x in VALUE_LONGS
    ensures |x| > 2 && x[0] == '-' && x[1] == '-' && '=' !in x && Literal(x)
  {
  }

  lemma ValueShorts(x: string)
    requires x in VALUE_SHORTS
    ensures |x| == 2 && x[0] == '-' && x[1] != '-'
  {
  }

  lemma Switches(x: string)
    requires x in SWITCHES
    ensures x != "" && Literal(x) && !TakesNext(x)
  {
  }

  lemma DeleteTakesNothing(x: string)
    requires "--delete" <= x
    ensures !TakesNext(x)
  {
    assert x[2] == "--delete"[2] && x[4] == "--delete"[4];
  }

  lemma DeleteMeaning(arg: string)
    ensures MatchArg(DELETE, arg).0 ==> "--delete" <= arg
    ensures "--delete" <= arg ==> MatchArg(DELETE, arg).0
  {
    assert Literal("--delete");
    PrefixMatch(arg, "--delete");
    assert DELETE.long == "--delete" + "*";
    assert '*' in DELETE.long;
  }

  /** A flag that takes a value matches itself, `-xVALUE` and `--long=VALUE`,
      and only the bare spellings reach for the next token. */
  lemma ValueFlagMeaning(flag: BlacklistArg, arg: string)
    requires IsValueFlag(flag)
    ensures var (matches, n) := MatchArg(flag, arg);
            && (matches <==> (flag.short != "" && flag.short <= arg) || arg == flag.long || flag.long + "=" <= arg)
            && (matches ==> n == if TakesNext(arg) then 1 else 0)
  {
    ValueLongs(flag.long);
    var spelled := flag.long + "=";
    assert Literal(spelled);
    PrefixMatch(arg, spelled);
    assert flag.long + "=*" == spelled + "*";
    if spelled <= arg {
      assert arg[|flag.long|] == '=';
      NoEquals(arg);
    }
    if flag.short != "" && flag.short <= arg {
      ValueShorts(flag.short);
      assert arg[1] == flag.short[1];
      if arg in VALUE_LONGS { ValueLongs(arg); }
      if arg in VALUE_SHORTS { ValueShorts(arg); assert arg == flag.short; }
    }
  }

  lemma NoEquals(arg: string)
    requires '=' in arg
    ensures !TakesNext(arg)
  {
    if arg in VALUE_LONGS { ValueLongs(arg); }
  }

  /** A match means the token is forbidden, and what it swallows depends on the token alone. */
  lemma EntryMeaning(flag: BlacklistArg, arg: string)
    requires flag in BLACKLIST && MatchArg(flag, arg).0
    ensures Forbidden(arg) && MatchArg(flag, arg).1 == if TakesNext(arg) then 1 else 0
  {
    Kinds(flag);
    if flag == DELETE {
      DeleteMeaning(arg);
      DeleteTakesNothing(arg);
    } else if IsSwitch(flag) {
      Switches(flag.long);
      assert '*' !in flag.long;
      Switches(arg);
    } else {
      ValueFlagMeaning(flag, arg);
    }
  }

  lemma {:induction false} LookupMeaning(table: seq<BlacklistArg>, arg: string)
    requires forall flag :: flag in table ==> flag in BLACKLIST
    ensures Lookup(table, arg) ==
            if exists flag :: flag in table && MatchArg(flag, arg).0
            then Some(if TakesNext(arg) then 1 else 0) else None
  {
    if table != [] {
      assert table[0] in table;
      LookupMeaning(table[1..], arg);
      if MatchArg(table[0], arg).0 {
        EntryMeaning(table[0], arg);
      }
    }
  }

  /** The order of the table makes no difference. */
  lemma TableOrder(table: seq<BlacklistArg>, arg: string)
    requires forall flag :: flag in table <==> flag in BLACKLIST
    ensures Lookup(table, arg) == Lookup(BLACKLIST, arg)
  {
    LookupMeaning(table, arg);
    LookupMeaning(BLACKLIST, arg);
  }

  lemma ForbiddenIsListed(arg: string) returns (flag: BlacklistArg)
    requires Forbidden(arg)
    ensures flag in BLACKLIST && MatchArg(flag, arg).0
  {
    if "--delete" <= arg {
      flag := DELETE;
      assert BLACKLIST[3] == flag;
      DeleteMeaning(arg);
    } else if arg in SWITCHES {
      flag := SwitchEntry(arg);
    } else if short :| short in VALUE_SHORTS && short <= arg {
      flag := if short == "-e" then BLACKLIST[5] else BLACKLIST[10];
      assert flag.short == short;
    } else {
      var long :| long in VALUE_LONGS && (arg == long || long + "=" <= arg);
      flag := ValueEntry(long);
      ValueFlagMeaning(flag, arg);
    }
  }

  lemma SwitchEntry(arg: string) returns (flag: BlacklistArg)
    requires arg in SWITCHES
    ensures flag in BLACKLIST && IsSwitch(flag) && (flag.long == arg || flag.short == arg)
    ensures MatchArg(flag, arg).0
  {
    var i :| 0 <= i < |SWITCHES| && SWITCHES[i] == arg;
    flag := BLACKLIST[[2, 2, 4, 6, 6, 7, 11, 11, 13, 14, 14, 15][i]];
    Switches(arg);
  }

  lemma ValueEntry(long: string) returns (flag: BlacklistArg)
    requires long in VALUE_LONGS
    ensures flag in BLACKLIST && IsValueFlag(flag) && flag.long == long
  {
    var i :| 0 <= i < |VALUE_LONGS| && VALUE_LONGS[i] == long;
    flag := BLACKLIST[[0, 1, 5, 8, 9, 10, 12][i]];
  }

  /** The table forbids exactly these tokens and swallows exactly these operands. */
  lemma Table(arg: string)
    ensures Lookup(BLACKLIST, arg) ==
            if Forbidden(arg) then Some(if TakesNext(arg) then 1 else 0) else None
    ensures TakesNext(arg) ==> Forbidden(arg)
  {
    LookupMeaning(BLACKLIST, arg);
    if Forbidden(arg) {
      var flag := ForbiddenIsListed(arg);
    } else if flag :| flag in BLACKLIST && MatchArg(flag, arg).0 {
      EntryMeaning(flag, arg);
    }
  }

  /** The same in full: which tokens the table removes, and which of them take the next token with them. */
  lemma TableSpelledOut(arg: string)
    ensures Lookup(BLACKLIST, arg).Some? <==>
            || arg in ["--verbose", "-v", "--del", "--quiet", "-q", "--force", "--itemize-changes", "-i",
                       "--partial", "--progress", "-P", "--daemon"]
            || "--delete" <= arg || "-e" <= arg || "-f" <= arg
            || exists long :: long in ["--debug", "--info", "--rsh", "--include", "--exclude", "--filter", "--out-format"]
                              && (arg == long || long + "=" <= arg)
    ensures Lookup(BLACKLIST, arg) == Some(1) <==>
            arg in ["--debug", "--info", "--rsh", "-e", "--include", "--exclude", "--filter", "-f", "--out-format"]
  {
    assert "-e" in VALUE_SHORTS && "-f" in VALUE_SHORTS;
    Table(arg);
  }
}
