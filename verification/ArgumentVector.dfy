/** What rsync finds on its command line. */
module ArgumentVector {
  import opened Paths
  import opened FilterRules
  import opened Blacklist
  import opened ArgumentGrammar
  import opened RsyncConfig
  import opened OptionReading

  function Only(wanted: string -> bool, toks: seq<string>): seq<string> {
    if toks == [] then []
    else (if wanted(toks[0]) then [toks[0]] else []) + Only(wanted, toks[1..])
  }

  lemma {:induction false} OnlyAppend(wanted: string -> bool, a: seq<string>, b: seq<string>)
    ensures Only(wanted, a + b) == Only(wanted, a) + Only(wanted, b)
  {
    if a == [] {
      assert a + b == b;
    } else {
      OnlyAppend(wanted, a[1..], b);
      assert (a + b)[1..] == a[1..] + b;
      var head := if wanted(a[0]) then [a[0]] else [];
      assert head + (Only(wanted, a[1..]) + Only(wanted, b)) == head + Only(wanted, a[1..]) + Only(wanted, b);
    }
  }

  lemma {:induction false} OnlyAll(wanted: string -> bool, toks: seq<string>, all: bool)
    requires forall tok :: tok in toks ==> wanted(tok) == all
    ensures Only(wanted, toks) == if all then toks else []
  {
    if toks != [] {
      assert toks[0] in toks;
      OnlyAll(wanted, toks[1..], all);
    }
  }

  // ---------------------------------------------------------------------
  // Kinds of options, as the blacklist spells them

  /** A filter rule. */
  predicate IsFilterToken(tok: string) {
    || tok == "--include" || "--include=" <= tok || tok == "--exclude" || "--exclude=" <= tok
    || tok == "--filter" || "--filter=" <= tok || "-f" <= tok
  }

  /** A remote shell. */
  predicate IsShellToken(tok: string) {
    "-e" <= tok || tok == "--rsh" || "--rsh=" <= tok
  }

  predicate IsDeleteToken(tok: string) {
    "--delete" <= tok
  }

  lemma AllowedTokenNeutral(tok: string)
    requires !Forbidden(tok)
    ensures !IsFilterToken(tok) && !IsShellToken(tok) && !IsDeleteToken(tok)
  {
    assert VALUE_LONGS[2] == "--rsh" && VALUE_LONGS[3] == "--include" && VALUE_LONGS[4] == "--exclude"
      && VALUE_LONGS[5] == "--filter";
    assert "--rsh" in VALUE_LONGS && "--include" in VALUE_LONGS && "--exclude" in VALUE_LONGS
      && "--filter" in VALUE_LONGS;
    assert "--rsh" + "=" == "--rsh=" && "--include" + "=" == "--include=" && "--exclude" + "=" == "--exclude="
      && "--filter" + "=" == "--filter=";
    assert "-e" in VALUE_SHORTS && "-f" in VALUE_SHORTS;
  }

  lemma SanitizedNeutral(arguments: seq<string>)
    ensures forall tok :: tok in Sanitized(arguments) ==>
              !IsFilterToken(tok) && !IsShellToken(tok) && !IsDeleteToken(tok)
  {
    NoneForbidden(BLACKLISTED, false, arguments, |arguments|);
    BlacklistedPolicy();
    forall tok | tok in Sanitized(arguments) ensures !IsFilterToken(tok) && !IsShellToken(tok) && !IsDeleteToken(tok) {
      AllowedTokenNeutral(tok);
    }
  }

  // ---------------------------------------------------------------------
  // Reading the vector

  /** What is known of rsync's options: `-e` wants the next token, the rules carry their values with them,
      and the enforced flags have none. */
  ghost predicate ReadsFixedParts(takes: string -> bool) {
    && takes("-e")
    && (forall r: Rule :: !takes(Text(r)))
    && (forall i :: 0 <= i < 4 ==> !takes(ENFORCED[i]))
  }

  lemma RulesRead(takes: string -> bool, rules: seq<Rule>)
    requires ReadsFixedParts(takes)
    ensures After(takes, Ready, Texts(rules)) == Ready && OptionsRead(takes, Ready, Texts(rules)) == Texts(rules)
  {
    forall tok | tok in Texts(rules) ensures IsOption(tok) && !takes(tok) {
      var i :| 0 <= i < |rules| && tok == Text(rules[i]);
      RuleIsOption(rules[i]);
    }
    AllRead(takes, Texts(rules));
  }

  lemma RuleIsOption(r: Rule)
    ensures IsOption(Text(r)) && Text(r)[1] == '-' && (Text(r)[2] == 'i' || Text(r)[2] == 'e')
  {
  }

  lemma EnforcedAreOptions()
    ensures forall i :: 0 <= i < 4 ==> IsOption(ENFORCED[i])
  {
    assert |ENFORCED[0]| > 2 && |ENFORCED[1]| > 2 && |ENFORCED[2]| > 2 && |ENFORCED[3]| > 2;
    forall i | 0 <= i < 4 ensures IsOption(ENFORCED[i]) {
      assert ENFORCED[i][0] == '-' && |ENFORCED[i]| > 2;
    }
  }

  lemma TailRead(takes: string -> bool, mode: Mode, source: string, target: string)
    requires ReadsFixedParts(takes) && !LooksLikeFlag(source) && !LooksLikeFlag(target)
    ensures OptionsRead(takes, mode, ENFORCED + [source, target]) == FlagsRead(mode, ENFORCED)
  {
    EnforcedAreOptions();
    forall tok | tok in ENFORCED ensures IsOption(tok) && !takes(tok) {
      var i :| 0 <= i < 4 && ENFORCED[i] == tok;
    }
    FlagsThenFiles(takes, mode, ENFORCED, [source, target]);
  }

  /** What rsync reads as options, whatever arguments are configured and whichever options take values: the compiled
      rules, the shell option, the options among the sanitized arguments, and the enforced flags; of these,
      the first is lost if the arguments end with an option that still wants a value, and all are if they hold
      a `--` that is not itself such a value. */
  lemma WhatRsyncReads(takes: string -> bool, rules: seq<Rule>, ssh: string, arguments: seq<string>,
                       src: string, dst: string)
    requires ReadsFixedParts(takes) && !LooksLikeFlag(src) && !LooksLikeFlag(dst)
    ensures var v := Vector(Texts(rules), ssh, Sanitized(arguments), SlashTerminated(src), SlashTerminated(dst));
            OptionsRead(takes, Ready, v) ==
            Texts(rules) + ["-e"] + OptionsRead(takes, Ready, Sanitized(arguments))
            + FlagsRead(After(takes, Ready, Sanitized(arguments)), ENFORCED)
  {
    hide OptionsRead, After, Texts, Sanitized, FlagsRead;
    var filter, shell, own := Texts(rules), ["-e", ssh], Sanitized(arguments);
    var tail := ENFORCED + [SlashTerminated(src), SlashTerminated(dst)];
    assert Vector(filter, ssh, own, SlashTerminated(src), SlashTerminated(dst)) == filter + (shell + (own + tail));
    RulesRead(takes, rules);
    ReadAppend(takes, Ready, filter, shell + (own + tail));
    ShellRead(takes, ssh);
    ReadAppend(takes, Ready, shell, own + tail);
    ReadAppend(takes, Ready, own, tail);
    TailRead(takes, After(takes, Ready, own), SlashTerminated(src), SlashTerminated(dst));
  }

  /** What rsync reads as files: those among the sanitized arguments, then source and target; after a `--` the enforced
      flags become files too. */
  lemma WhatRsyncCopies(takes: string -> bool, rules: seq<Rule>, ssh: string, arguments: seq<string>,
                        src: string, dst: string)
    requires ReadsFixedParts(takes) && !LooksLikeFlag(src) && !LooksLikeFlag(dst)
    ensures var v := Vector(Texts(rules), ssh, Sanitized(arguments), SlashTerminated(src), SlashTerminated(dst));
            FilesRead(takes, Ready, v) ==
            FilesRead(takes, Ready, Sanitized(arguments))
            + (if After(takes, Ready, Sanitized(arguments)) == Ended then ENFORCED else [])
            + [SlashTerminated(src), SlashTerminated(dst)]
  {
    hide FilesRead, After, Texts, Sanitized;
    var filter, shell, own := Texts(rules), ["-e", ssh], Sanitized(arguments);
    var files := [SlashTerminated(src), SlashTerminated(dst)];
    assert Vector(filter, ssh, own, SlashTerminated(src), SlashTerminated(dst))
        == filter + (shell + (own + (ENFORCED + files)));
    RulesNoFiles(takes, rules);
    RulesRead(takes, rules);
    FilesAppend(takes, Ready, filter, shell + (own + (ENFORCED + files)));
    ShellNoFile(takes, ssh);
    ShellRead(takes, ssh);
    FilesAppend(takes, Ready, shell, own + (ENFORCED + files));
    FilesAppend(takes, Ready, own, ENFORCED + files);
    TailFiles(takes, After(takes, Ready, own), SlashTerminated(src), SlashTerminated(dst));
  }

  lemma RulesNoFiles(takes: string -> bool, rules: seq<Rule>)
    requires ReadsFixedParts(takes)
    ensures FilesRead(takes, Ready, Texts(rules)) == []
  {
    forall tok | tok in Texts(rules) ensures IsOption(tok) && !takes(tok) {
      var i :| 0 <= i < |rules| && tok == Text(rules[i]);
      RuleIsOption(rules[i]);
    }
    FlagsAreNoFiles(takes, Texts(rules));
  }

  lemma ShellNoFile(takes: string -> bool, ssh: string)
    requires takes("-e")
    ensures FilesRead(takes, Ready, ["-e", ssh]) == []
  {
    assert ["-e", ssh][1..] == [ssh] && [ssh][1..] == [];
    assert FilesRead(takes, Owing, [ssh]) == [];
  }

  lemma TailFiles(takes: string -> bool, mode: Mode, source: string, target: string)
    requires ReadsFixedParts(takes) && !LooksLikeFlag(source) && !LooksLikeFlag(target)
    ensures FilesRead(takes, mode, ENFORCED + [source, target]) ==
            (if mode == Ended then ENFORCED else []) + [source, target]
  {
    EnforcedAreOptions();
    forall tok | tok in ENFORCED ensures IsOption(tok) && !takes(tok) {
      var i :| 0 <= i < 4 && ENFORCED[i] == tok;
    }
    FilesAfterFlags(takes, mode, ENFORCED, [source, target]);
  }

  /** The parts of the vector that no configuration changes, and where they stand; a path that ends in a slash is left
      alone, and any other gets one. */
  lemma FixedParts(filter: seq<string>, ssh: string, arguments: seq<string>, src: string, dst: string)
    ensures var v, n := Vector(filter, ssh, arguments, SlashTerminated(src), SlashTerminated(dst)), |filter|;
            && |v| == n + 2 + |arguments| + 6
            && v[..n] == filter && v[n] == "-e" && v[n + 1] == ssh && v[n + 2..|v| - 6] == arguments
            && v[|v| - 6..|v| - 2] == ["--delete", "--delete-excluded", "--delete-delay", "--itemize-changes"]
            && v[|v| - 2] == (if exists s :: src == s + "/" then src else src + "/")
            && v[|v| - 1] == (if exists s :: dst == s + "/" then dst else dst + "/")
  {
    EndsInSlash(src);
    EndsInSlash(dst);
  }

  lemma EndsInSlash(path: string)
    ensures SlashTerminated(path) == if exists s :: path == s + "/" then path else path + "/"
  {
    if path != "" && path[|path| - 1] == '/' {
      assert path == path[..|path| - 1] + "/";
    }
  }

  lemma TailValues(takes: string -> bool, mode: Mode, last: string, source: string, target: string)
    requires ReadsFixedParts(takes) && !LooksLikeFlag(source) && !LooksLikeFlag(target)
    ensures ValuesRead(takes, mode, last, ENFORCED + [source, target]) ==
            if mode == Owing then [Taken(last, "--delete")] else []
  {
    forall tok | tok in ENFORCED + [source, target] ensures !takes(tok) || !IsOption(tok) {
      if tok in ENFORCED {
        var i :| 0 <= i < 4 && ENFORCED[i] == tok;
      }
    }
    OnlyOwedTaken(takes, mode, last, ENFORCED + [source, target]);
  }

  lemma RulesTakeNothing(takes: string -> bool, rules: seq<Rule>)
    requires ReadsFixedParts(takes)
    ensures ValuesRead(takes, Ready, "", Texts(rules)) == []
  {
    forall tok | tok in Texts(rules) ensures !takes(tok) {
      var i :| 0 <= i < |rules| && tok == Text(rules[i]);
    }
    NothingTaken(takes, Ready, "", Texts(rules));
  }

  lemma ShellTaken(takes: string -> bool, last: string, ssh: string)
    requires takes("-e")
    ensures ValuesRead(takes, Ready, last, ["-e", ssh]) == [Taken("-e", ssh)]
  {
    assert ["-e", ssh][1..] == [ssh] && [ssh][1..] == [];
    assert NextMode(takes, Ready, "-e") == Owing;
    assert ValuesRead(takes, Owing, "-e", [ssh]) == [Taken("-e", ssh)] + ValuesRead(takes, Ready, ssh, []);
  }

  lemma ShellIsLast(last: string, ssh: string)
    ensures LastOf(last, ["-e", ssh]) == ssh
  {
  }

  /** The values that rsync reads, whatever arguments are configured and whichever options take values: the ssh command
      for `-e`, those among the sanitized arguments, and `--delete` for a last argument that still wants a value. */
  lemma WhatValuesAreRead(takes: string -> bool, rules: seq<Rule>, ssh: string, arguments: seq<string>,
                          src: string, dst: string)
    requires ReadsFixedParts(takes) && !LooksLikeFlag(src) && !LooksLikeFlag(dst)
    ensures var own := Sanitized(arguments);
            ValuesRead(takes, Ready, "", Vector(Texts(rules), ssh, own, SlashTerminated(src), SlashTerminated(dst))) ==
            [Taken("-e", ssh)] + ValuesRead(takes, Ready, ssh, own)
            + if After(takes, Ready, own) == Owing then [Taken(LastOf(ssh, own), "--delete")] else []
  {
    hide ValuesRead, After, Texts, Sanitized, LastOf;
    var filter, shell, own := Texts(rules), ["-e", ssh], Sanitized(arguments);
    var tail := ENFORCED + [SlashTerminated(src), SlashTerminated(dst)];
    var last := LastOf("", filter);
    assert Vector(filter, ssh, own, SlashTerminated(src), SlashTerminated(dst)) == filter + (shell + (own + tail));
    RulesRead(takes, rules);
    RulesTakeNothing(takes, rules);
    ValuesAppend(takes, Ready, "", filter, shell + (own + tail));
    ShellRead(takes, ssh);
    ShellTaken(takes, last, ssh);
    ValuesAppend(takes, Ready, last, shell, own + tail);
    ShellIsLast(last, ssh);
    ValuesAppend(takes, Ready, ssh, own, tail);
    TailValues(takes, After(takes, Ready, own), LastOf(ssh, own), SlashTerminated(src), SlashTerminated(dst));
  }

  /** rsync runs the ssh command for `-e`, for all arguments, and reads no value for any other spelling of that option. */
  lemma ShellIsOurs(takes: string -> bool, rules: seq<Rule>, ssh: string, arguments: seq<string>,
                    src: string, dst: string)
    requires ReadsFixedParts(takes) && !LooksLikeFlag(src) && !LooksLikeFlag(dst)
    ensures var v := Vector(Texts(rules), ssh, Sanitized(arguments), SlashTerminated(src), SlashTerminated(dst));
            var read := ValuesRead(takes, Ready, "", v);
            && read != [] && read[0] == Taken("-e", ssh)
            && forall i :: 1 <= i < |read| ==> !IsShellToken(read[i].option)
  {
    hide ValuesRead, After, Texts, Sanitized, Vector, IsShellToken;
    var own := Sanitized(arguments);
    WhatValuesAreRead(takes, rules, ssh, arguments, src, dst);
    SanitizedNeutral(arguments);
    TakersStandThere(takes, Ready, ssh, own);
    if After(takes, Ready, own) == Owing {
      OwedHasOption(takes, ssh, own);
    }
    var values := ValuesRead(takes, Ready, ssh, own);
    assert forall t :: t in values ==> !IsShellToken(t.option);
  }

  lemma OwedHasOption(takes: string -> bool, last: string, toks: seq<string>)
    requires After(takes, Ready, toks) == Owing
    ensures toks != [] && LastOf(last, toks) in toks
  {
  }

  /** Exactly when rsync copies from the given source to the given target and nothing else: if it reads no file among the
      sanitized arguments and no `--` either. */
  lemma OnlyOurFiles(takes: string -> bool, rules: seq<Rule>, ssh: string, arguments: seq<string>,
                     src: string, dst: string)
    requires ReadsFixedParts(takes) && !LooksLikeFlag(src) && !LooksLikeFlag(dst)
    ensures var v := Vector(Texts(rules), ssh, Sanitized(arguments), SlashTerminated(src), SlashTerminated(dst));
            FilesRead(takes, Ready, v) == [SlashTerminated(src), SlashTerminated(dst)] <==>
            FilesRead(takes, Ready, Sanitized(arguments)) == [] && After(takes, Ready, Sanitized(arguments)) != Ended
  {
    hide FilesRead, After, Texts, Sanitized, Vector;
    WhatRsyncCopies(takes, rules, ssh, arguments, src, dst);
    var own, files := FilesRead(takes, Ready, Sanitized(arguments)), [SlashTerminated(src), SlashTerminated(dst)];
    var extra := if After(takes, Ready, Sanitized(arguments)) == Ended then ENFORCED else [];
    assert |own + extra + files| == |own| + |extra| + 2;
  }

  lemma ShellRead(takes: string -> bool, ssh: string)
    requires takes("-e")
    ensures After(takes, Ready, ["-e", ssh]) == Ready && OptionsRead(takes, Ready, ["-e", ssh]) == ["-e"]
  {
    assert ["-e", ssh][1..] == [ssh] && [ssh][1..] == [];
    assert NextMode(takes, Ready, "-e") == Owing && NextMode(takes, Owing, ssh) == Ready;
    assert OptionsRead(takes, Owing, [ssh]) == [];
    assert After(takes, Owing, [ssh]) == After(takes, Ready, []);
  }

  // ---------------------------------------------------------------------
  // Which of them decide the filter, the shell and the deletions

  lemma {:induction false} OnlyNone(wanted: string -> bool, toks: seq<string>)
    ensures Only(wanted, toks) == [] <==> forall tok :: tok in toks ==> !wanted(tok)
  {
    if toks != [] {
      OnlyNone(wanted, toks[1..]);
      assert forall tok :: tok in toks <==> tok == toks[0] || tok in toks[1..];
    }
  }

  lemma FourParts(wanted: string -> bool, a: seq<string>, b: seq<string>, c: seq<string>, d: seq<string>)
    ensures Only(wanted, a + b + c + d) == Only(wanted, a) + Only(wanted, b) + Only(wanted, c) + Only(wanted, d)
  {
    OnlyAppend(wanted, a, b);
    OnlyAppend(wanted, a + b, c);
    OnlyAppend(wanted, a + b + c, d);
  }

  /** A kind of option that shows in all rules or in none, in `-e` or not, and in the enforced flags in front or not. */
  ghost predicate Kind(wanted: string -> bool, inRules: bool, inShell: bool, inDeletes: bool) {
    && (forall r: Rule :: wanted(Text(r)) == inRules) && wanted("-e") == inShell
    && (forall i :: 0 <= i < 3 ==> wanted(ENFORCED[i]) == inDeletes) && !wanted(ENFORCED[3])
  }

  lemma KindInRules(wanted: string -> bool, rules: seq<Rule>, all: bool)
    requires forall r: Rule :: wanted(Text(r)) == all
    ensures Only(wanted, Texts(rules)) == if all then Texts(rules) else []
  {
    forall tok | tok in Texts(rules) ensures wanted(tok) == all {
      var i :| 0 <= i < |rules| && tok == Text(rules[i]);
    }
    OnlyAll(wanted, Texts(rules), all);
  }

  lemma KindInFlags(wanted: string -> bool, mode: Mode, inDeletes: bool)
    requires (forall i :: 0 <= i < 3 ==> wanted(ENFORCED[i]) == inDeletes) && !wanted(ENFORCED[3])
    ensures Only(wanted, FlagsRead(mode, ENFORCED)) == if inDeletes then FlagsRead(mode, ENFORCED[..3]) else []
  {
    var deletes := FlagsRead(mode, ENFORCED[..3]);
    OnlyAll(wanted, deletes, inDeletes);
    OnlyAll(wanted, ENFORCED[3..], false);
    OnlyAppend(wanted, deletes, ENFORCED[3..]);
    assert mode != Ended ==> FlagsRead(mode, ENFORCED) == deletes + ENFORCED[3..];
  }

  lemma KindRead(wanted: string -> bool, inRules: bool, inShell: bool, inDeletes: bool, takes: string -> bool,
                 rules: seq<Rule>, ssh: string, arguments: seq<string>, src: string, dst: string)
    requires ReadsFixedParts(takes) && !LooksLikeFlag(src) && !LooksLikeFlag(dst)
    requires Kind(wanted, inRules, inShell, inDeletes)
    ensures var own, mode := OptionsRead(takes, Ready, Sanitized(arguments)), After(takes, Ready, Sanitized(arguments));
            Only(wanted, Read(takes, rules, ssh, arguments, src, dst)) ==
            (if inRules then Texts(rules) else []) + (if inShell then ["-e"] else []) + Only(wanted, own)
            + (if inDeletes then FlagsRead(mode, ENFORCED[..3]) else [])
  {
    var own, mode := OptionsRead(takes, Ready, Sanitized(arguments)), After(takes, Ready, Sanitized(arguments));
    WhatRsyncReads(takes, rules, ssh, arguments, src, dst);
    FourParts(wanted, Texts(rules), ["-e"], own, FlagsRead(mode, ENFORCED));
    KindInRules(wanted, rules, inRules);
    OnlyAll(wanted, ["-e"], inShell);
    KindInFlags(wanted, mode, inDeletes);
  }

  /** The options that rsync reads from the vector. */
  function Read(takes: string -> bool, rules: seq<Rule>, ssh: string, arguments: seq<string>,
                src: string, dst: string): seq<string>
  {
    OptionsRead(takes, Ready,
                Vector(Texts(rules), ssh, Sanitized(arguments), SlashTerminated(src), SlashTerminated(dst)))
  }

  /** Exactly when the compiled rules are all the filter rules that rsync reads, whatever counts as one. */
  lemma OnlyOurRules(adds: string -> bool, takes: string -> bool, rules: seq<Rule>, ssh: string, arguments: seq<string>,
                     src: string, dst: string)
    requires ReadsFixedParts(takes) && !LooksLikeFlag(src) && !LooksLikeFlag(dst) && Kind(adds, true, false, false)
    ensures Only(adds, Read(takes, rules, ssh, arguments, src, dst)) == Texts(rules) <==>
            forall tok :: tok in OptionsRead(takes, Ready, Sanitized(arguments)) ==> !adds(tok)
  {
    var own := OptionsRead(takes, Ready, Sanitized(arguments));
    OnlyNone(adds, own);
    KindRead(adds, true, false, false, takes, rules, ssh, arguments, src, dst);
    assert |Texts(rules) + [] + Only(adds, own) + []| == |rules| + |Only(adds, own)|;
  }

  /** Exactly when `-e` is the only choice of a remote shell that rsync reads. */
  lemma OnlyOurShell(chooses: string -> bool, takes: string -> bool, rules: seq<Rule>, ssh: string,
                     arguments: seq<string>, src: string, dst: string)
    requires ReadsFixedParts(takes) && !LooksLikeFlag(src) && !LooksLikeFlag(dst) && Kind(chooses, false, true, false)
    ensures Only(chooses, Read(takes, rules, ssh, arguments, src, dst)) == ["-e"] <==>
            forall tok :: tok in OptionsRead(takes, Ready, Sanitized(arguments)) ==> !chooses(tok)
  {
    var own := OptionsRead(takes, Ready, Sanitized(arguments));
    OnlyNone(chooses, own);
    KindRead(chooses, false, true, false, takes, rules, ssh, arguments, src, dst);
    assert |[] + ["-e"] + Only(chooses, own) + []| == 1 + |Only(chooses, own)|;
  }

  /** Exactly when the three enforced flags are the deletions that rsync reads: the sanitized arguments hold no other,
      do not end with an option that still wants a value, and hold no `--` other than as a value. */
  lemma OnlyOurDeletes(deletes: string -> bool, takes: string -> bool, rules: seq<Rule>, ssh: string,
                       arguments: seq<string>, src: string, dst: string)
    requires ReadsFixedParts(takes) && !LooksLikeFlag(src) && !LooksLikeFlag(dst) && Kind(deletes, false, false, true)
    ensures Only(deletes, Read(takes, rules, ssh, arguments, src, dst)) == ENFORCED[..3] <==>
            && (forall tok :: tok in OptionsRead(takes, Ready, Sanitized(arguments)) ==> !deletes(tok))
            && After(takes, Ready, Sanitized(arguments)) == Ready
  {
    var own, mode := OptionsRead(takes, Ready, Sanitized(arguments)), After(takes, Ready, Sanitized(arguments));
    OnlyNone(deletes, own);
    KindRead(deletes, false, false, true, takes, rules, ssh, arguments, src, dst);
    var found := Only(deletes, own);
    assert "--delete" !in found by {
      OnlyIn(deletes, own);
      SanitizedNeutral(arguments);
      assert IsDeleteToken("--delete");
    }
    MissingFlag(found, mode);
  }

  lemma {:induction false} OnlyIn(wanted: string -> bool, toks: seq<string>)
    ensures forall tok :: tok in Only(wanted, toks) ==> tok in toks
  {
    if toks != [] {
      OnlyIn(wanted, toks[1..]);
    }
  }

  lemma MissingFlag(found: seq<string>, mode: Mode)
    requires "--delete" !in found
    ensures [] + [] + found + FlagsRead(mode, ENFORCED[..3]) == ENFORCED[..3] <==> found == [] && mode == Ready
  {
    var all := [] + [] + found + FlagsRead(mode, ENFORCED[..3]);
    assert all == found + FlagsRead(mode, ENFORCED[..3]);
    assert ENFORCED[..3][0] == "--delete";
    assert found != [] ==> all[0] == found[0];
    assert found == [] && mode != Ready ==> |all| < 3;
  }

  // ---------------------------------------------------------------------
  // What the blacklist sees to, and what it does not

  /** A token that differs from a spelling at some place is neither it nor longer than it. */
  lemma Differs(spelling: string, tok: string, i: nat)
    requires i < |spelling| && i < |tok| && tok[i] != spelling[i]
    ensures !(spelling <= tok) && tok != spelling
  {
  }

  lemma LongOption(tok: string)
    requires |tok| > 3 && tok[1] == '-' && tok[2] != 'r'
    ensures !IsShellToken(tok) && !("-f" <= tok)
  {
    Differs("-e", tok, 1);
    Differs("-f", tok, 1);
    Differs("--rsh", tok, 2);
    Differs("--rsh=", tok, 2);
  }

  lemma RuleKind(r: Rule)
    ensures IsFilterToken(Text(r)) && !IsShellToken(Text(r)) && !IsDeleteToken(Text(r))
  {
    RuleIsOption(r);
    LongOption(Text(r));
    Differs("--delete", Text(r), 2);
  }

  lemma FlagKind(tok: string)
    requires |tok| > 3 && tok[1] == '-' && (tok[2] == 'd' || (tok[2] == 'i' && tok[3] == 't'))
    ensures !IsFilterToken(tok) && !IsShellToken(tok)
  {
    LongOption(tok);
    var i := if tok[2] == 'd' then 2 else 3;
    Differs("--include", tok, i);
    Differs("--include=", tok, i);
    Differs("--exclude", tok, 2);
    Differs("--exclude=", tok, 2);
    Differs("--filter", tok, 2);
    Differs("--filter=", tok, 2);
  }

  lemma FlagKinds(i: nat)
    requires i < 4
    ensures !IsFilterToken(ENFORCED[i]) && !IsShellToken(ENFORCED[i]) && (IsDeleteToken(ENFORCED[i]) <==> i < 3)
  {
    var tok := ENFORCED[i];
    assert |tok| > 3 && tok[1] == '-' && (if i < 3 then tok[2] == 'd' else tok[2] == 'i' && tok[3] == 't');
    FlagKind(tok);
    if i == 3 {
      Differs("--delete", tok, 2);
    }
  }

  lemma ShellKind()
    ensures IsShellToken("-e") && !IsFilterToken("-e") && !IsDeleteToken("-e")
  {
    assert "-e"[1] == 'e';
    Differs("--include", "-e", 1);
    Differs("--include=", "-e", 1);
    Differs("--exclude", "-e", 1);
    Differs("--exclude=", "-e", 1);
    Differs("--filter", "-e", 1);
    Differs("--filter=", "-e", 1);
    Differs("-f", "-e", 1);
    Differs("--delete", "-e", 1);
  }

  lemma SpelledKinds()
    ensures Kind(IsFilterToken, true, false, false) && Kind(IsShellToken, false, true, false)
    ensures Kind(IsDeleteToken, false, false, true)
  {
    hide IsFilterToken, IsShellToken, IsDeleteToken;
    forall r: Rule ensures IsFilterToken(Text(r)) && !IsShellToken(Text(r)) && !IsDeleteToken(Text(r)) {
      RuleKind(r);
    }
    forall i | 0 <= i < 4
      ensures !IsFilterToken(ENFORCED[i]) && !IsShellToken(ENFORCED[i]) && (IsDeleteToken(ENFORCED[i]) <==> i < 3)
    {
      FlagKinds(i);
    }
    ShellKind();
  }

  /** Of the spellings on the blacklist none gets through, whatever is configured: the tokens that spell a filter rule
      are the compiled rules in order, `-e` is the only shell, and the enforced deletions are the only ones. */
  lemma WhatRsyncSees(takes: string -> bool, rules: seq<Rule>, ssh: string, arguments: seq<string>,
                      src: string, dst: string)
    requires ReadsFixedParts(takes) && !LooksLikeFlag(src) && !LooksLikeFlag(dst)
    ensures var read := Read(takes, rules, ssh, arguments, src, dst);
            && Only(IsFilterToken, read) == Texts(rules)
            && Only(IsShellToken, read) == ["-e"]
            && (Only(IsDeleteToken, read) == ENFORCED[..3] <==> After(takes, Ready, Sanitized(arguments)) == Ready)
  {
    SpelledKinds();
    SanitizedNeutral(arguments);
    OnlyOurRules(IsFilterToken, takes, rules, ssh, arguments, src, dst);
    OnlyOurShell(IsShellToken, takes, rules, ssh, arguments, src, dst);
    OnlyOurDeletes(IsDeleteToken, takes, rules, ssh, arguments, src, dst);
  }

  lemma SwitchLetters(x: string)
    requires x in SWITCHES
    ensures |x| >= 2 && x[1] in "-vqiP" && (x[1] == '-' ==> |x| > 3 && x[2] in "vdqfip")
  {
    var i :| 0 <= i < |SWITCHES| && SWITCHES[i] == x;
  }

  lemma ValueLetters(x: string)
    requires x in VALUE_LONGS
    ensures |x| > 3 && x[1] == '-' && x[2] in "direfo" && (x[2] == 'e' ==> x == "--exclude")
  {
    var i :| 0 <= i < |VALUE_LONGS| && VALUE_LONGS[i] == x;
  }

  lemma UnlistedShort(tok: string)
    requires |tok| >= 2 && tok[1] !in "-vqiPef"
    ensures !Forbidden(tok)
  {
    if tok in SWITCHES { SwitchLetters(tok); }
    Differs("--delete", tok, 1);
    forall long | long in VALUE_LONGS ensures tok != long && !(long + "=" <= tok) {
      ValueLetters(long);
      Differs(long, tok, 1);
      Differs(long + "=", tok, 1);
    }
  }

  lemma UnlistedLong(tok: string)
    requires |tok| > 3 && tok[1] == '-' && (tok[2] == 'l' || (tok[2] == 'e' && |tok| > 9 && tok[9] == '-'))
    ensures !Forbidden(tok)
  {
    if tok in SWITCHES { SwitchLetters(tok); }
    Differs("--delete", tok, 2);
    forall long | long in VALUE_LONGS ensures tok != long && !(long + "=" <= tok) {
      ValueLetters(long);
      if long == "--exclude" {
        assert (long + "=")[9] == '=';
        if tok[2] == 'l' { Differs(long, tok, 2); Differs(long + "=", tok, 2); } else { Differs(long + "=", tok, 9); }
      } else {
        Differs(long, tok, 2);
        Differs(long + "=", tok, 2);
      }
    }
  }

  lemma UnlistedEnd()
    ensures !Forbidden("--")
  {
    if "--" in SWITCHES { SwitchLetters("--"); }
    forall long | long in VALUE_LONGS ensures "--" != long && !(long + "=" <= "--") {
      ValueLetters(long);
    }
    forall short | short in VALUE_SHORTS ensures !(short <= "--") {
      Differs(short, "--", 1);
    }
  }

  /** These are on no list: per-directory filter files, the CVS excludes, exclude files, a shell in a bundle of short
      options, an option that wants a value, and the end of the options. */
  lemma Unlisted(tok: string)
    requires tok in ["-F", "-C", "--exclude-from=/x", "-ae", "--log-file", "--"]
    ensures !Forbidden(tok)
  {
    if tok == "--" {
      UnlistedEnd();
    } else if tok[1] == '-' {
      UnlistedLong(tok);
    } else {
      UnlistedShort(tok);
    }
  }

  lemma PassesThrough(arguments: seq<string>)
    requires forall tok :: tok in arguments ==> !Forbidden(tok)
    ensures Sanitized(arguments) == arguments
  {
    BlacklistedPolicy();
    AllAllowed(BLACKLISTED, arguments, |arguments|);
  }

  /** What these do: `-F` adds a filter rule, `-ae` chooses a second shell, `--log-file` takes the enforced
      `--delete` for its value, and after `--` no enforced flag is read at all. */
  lemma GapsShow(adds: string -> bool, chooses: string -> bool, takes: string -> bool, rules: seq<Rule>, ssh: string,
                 src: string, dst: string)
    requires ReadsFixedParts(takes) && !LooksLikeFlag(src) && !LooksLikeFlag(dst)
    requires Kind(adds, true, false, false) && adds("-F") && Kind(chooses, false, true, false) && chooses("-ae")
    requires takes("--log-file")
    ensures Only(adds, Read(takes, rules, ssh, ["-F"], src, dst)) != Texts(rules)
    ensures Only(chooses, Read(takes, rules, ssh, ["-ae", "ssh -p 2"], src, dst)) != ["-e"]
    ensures Read(takes, rules, ssh, ["--log-file"], src, dst) == Texts(rules) + ["-e", "--log-file"] + ENFORCED[1..]
    ensures Read(takes, rules, ssh, ["--"], src, dst) == Texts(rules) + ["-e"]
  {
    AddsRule(adds, takes, rules, ssh, src, dst);
    ChoosesShell(chooses, takes, rules, ssh, src, dst);
    SwallowsDelete(takes, rules, ssh, src, dst);
    EndsOptions(takes, rules, ssh, src, dst);
  }

  lemma OneArgument(takes: string -> bool, tok: string)
    requires tok in ["-F", "-C", "--exclude-from=/x", "-ae", "--log-file", "--"]
    ensures Sanitized([tok]) == [tok]
    ensures After(takes, Ready, [tok]) == NextMode(takes, Ready, tok)
    ensures OptionsRead(takes, Ready, [tok]) == if tok == "--" then [] else [tok]
  {
    Unlisted(tok);
    PassesThrough([tok]);
    assert [tok][1..] == [];
  }

  lemma AddsRule(adds: string -> bool, takes: string -> bool, rules: seq<Rule>, ssh: string, src: string, dst: string)
    requires ReadsFixedParts(takes) && !LooksLikeFlag(src) && !LooksLikeFlag(dst)
    requires Kind(adds, true, false, false) && adds("-F")
    ensures Only(adds, Read(takes, rules, ssh, ["-F"], src, dst)) != Texts(rules)
  {
    OneArgument(takes, "-F");
    OnlyOurRules(adds, takes, rules, ssh, ["-F"], src, dst);
    assert "-F" in ["-F"];
  }

  lemma ChoosesShell(chooses: string -> bool, takes: string -> bool, rules: seq<Rule>, ssh: string,
                     src: string, dst: string)
    requires ReadsFixedParts(takes) && !LooksLikeFlag(src) && !LooksLikeFlag(dst)
    requires Kind(chooses, false, true, false) && chooses("-ae")
    ensures Only(chooses, Read(takes, rules, ssh, ["-ae", "ssh -p 2"], src, dst)) != ["-e"]
  {
    hide Kind, ReadsFixedParts, Only, Read;
    var arguments := ["-ae", "ssh -p 2"];
    Unlisted("-ae");
    UnlistedShort("ssh -p 2");
    PassesThrough(arguments);
    OnlyOurShell(chooses, takes, rules, ssh, arguments, src, dst);
    assert OptionsRead(takes, Ready, arguments)[0] == "-ae";
  }

  lemma SwallowsDelete(takes: string -> bool, rules: seq<Rule>, ssh: string, src: string, dst: string)
    requires ReadsFixedParts(takes) && !LooksLikeFlag(src) && !LooksLikeFlag(dst) && takes("--log-file")
    ensures Read(takes, rules, ssh, ["--log-file"], src, dst) == Texts(rules) + ["-e", "--log-file"] + ENFORCED[1..]
  {
    OneArgument(takes, "--log-file");
    WhatRsyncReads(takes, rules, ssh, ["--log-file"], src, dst);
    assert Texts(rules) + ["-e"] + ["--log-file"] == Texts(rules) + ["-e", "--log-file"];
  }

  lemma EndsOptions(takes: string -> bool, rules: seq<Rule>, ssh: string, src: string, dst: string)
    requires ReadsFixedParts(takes) && !LooksLikeFlag(src) && !LooksLikeFlag(dst)
    ensures Read(takes, rules, ssh, ["--"], src, dst) == Texts(rules) + ["-e"]
  {
    OneArgument(takes, "--");
    WhatRsyncReads(takes, rules, ssh, ["--"], src, dst);
    assert Texts(rules) + ["-e"] + [] + [] == Texts(rules) + ["-e"];
  }

  lemma PlainAllowed(tok: string)
    requires tok != "" && tok[0] != '-'
    ensures !Forbidden(tok)
  {
    if tok in SWITCHES {
      var i :| 0 <= i < |SWITCHES| && SWITCHES[i] == tok;
    }
    Differs("--delete", tok, 0);
    forall short | short in VALUE_SHORTS ensures !(short <= tok) {
      Differs(short, tok, 0);
    }
    forall long | long in VALUE_LONGS ensures tok != long && !(long + "=" <= tok) {
      ValueLongs(long);
      Differs(long, tok, 0);
      Differs(long + "=", tok, 0);
    }
  }

  /** A plain argument is a further source: it is copied as well. */
  lemma FurtherSource(takes: string -> bool, rules: seq<Rule>, ssh: string, path: string, src: string, dst: string)
    requires ReadsFixedParts(takes) && !LooksLikeFlag(src) && !LooksLikeFlag(dst) && path != "" && path[0] != '-'
    ensures var v := Vector(Texts(rules), ssh, Sanitized([path]), SlashTerminated(src), SlashTerminated(dst));
            FilesRead(takes, Ready, v) == [path, SlashTerminated(src), SlashTerminated(dst)]
  {
    PlainAllowed(path);
    PassesThrough([path]);
    WhatRsyncCopies(takes, rules, ssh, [path], src, dst);
    PlainRead(takes, path);
    assert [path] + [] + [SlashTerminated(src), SlashTerminated(dst)]
        == [path, SlashTerminated(src), SlashTerminated(dst)];
  }

  lemma PlainRead(takes: string -> bool, path: string)
    requires path != "" && path[0] != '-'
    ensures FilesRead(takes, Ready, [path]) == [path] && After(takes, Ready, [path]) == Ready
  {
    assert [path][1..] == [];
  }
}
