/** The per-host rsync configuration and the argument vector built from it. */
module RsyncConfig {
  import opened Options
  import opened Paths
  import opened FilterRules
  import opened Blacklist
  import opened ArgumentGrammar

  function Cleaned(included: seq<string>): (ps: seq<Path>)
    ensures |ps| == |included| && forall i :: 0 <= i < |ps| ==> ps[i] == CleanPath(included[i])
  {
    seq(|included|, i requires 0 <= i < |included| => CleanPath(included[i]))
  }

  /** How an include is spelled. */
  function Spell(p: Path): string {
    if p == [] then "/" else Render(p)
  }

  function Text(r: Rule): string {
    match r
    case Include(p) => "--include=" + Spell(p)
    case ExcludeChildren(d) => "--exclude=" + Render(d) + "/*"
    case UserExclude(pat) => "--exclude=" + pat
  }

  function Texts(rules: seq<Rule>): (tokens: seq<string>)
    ensures |tokens| == |rules| && forall i :: 0 <= i < |rules| ==> tokens[i] == Text(rules[i])
  {
    seq(|rules|, i requires 0 <= i < |rules| => Text(rules[i]))
  }

  function SlashTerminated(s: string): (t: string)
    ensures t != "" && t[|t| - 1] == '/' && s <= t && |t| <= |s| + 1
    ensures s != "" && s[|s| - 1] == '/' ==> t == s
  {
    if s != "" && s[|s| - 1] == '/' then s else s + "/"
  }

  const ENFORCED := ["--delete", "--delete-excluded", "--delete-delay", "--itemize-changes"]

  function Vector(filter: seq<string>, ssh: string, arguments: seq<string>, source: string, target: string): seq<string> {
    filter + ["-e", ssh] + arguments + ENFORCED + [source, target]
  }

  function Prefixed(flag: string, values: seq<string>): (tokens: seq<string>)
    ensures |tokens| == |values| && forall i :: 0 <= i < |values| ==> tokens[i] == flag + values[i]
  {
    seq(|values|, i requires 0 <= i < |values| => flag + values[i])
  }

  lemma PrefixedMore(flag: string, values: seq<string>, i: nat)
    requires i < |values|
    ensures Prefixed(flag, values[..i + 1]) == Prefixed(flag, values[..i]) + [flag + values[i]]
  {
  }

  /** The include list and the set that guards it against repetitions, for the paths `ps`. */
  ghost predicate IncludeState(inc: seq<string>, incDone: set<string>, ps: seq<Path>) {
    && |inc| == |ps|
    && (forall i :: 0 <= i < |inc| ==> inc[i] == Spell(ps[i]))
    && (forall p :: SlashFree(p) && p != [] ==> (Render(p) in incDone <==> p in ps))
    && "/" !in incDone
  }

  ghost predicate ExcludeState(exc: seq<string>, excDone: set<string>, ps: seq<Path>) {
    && |exc| == |ps|
    && (forall i :: 0 <= i < |exc| ==> exc[i] == Render(ps[i]) + "/*")
    && (forall p :: SlashFree(p) ==> (Render(p) + "/*" in excDone <==> p in ps))
  }

  /** The two rule lists while they are being built, each with its set of what has been added. */
  datatype Lists = Lists(inc: seq<string>, incDone: set<string>, exc: seq<string>, excDone: set<string>)

  ghost predicate Built(lists: Lists, incPaths: seq<Path>, excPaths: seq<Path>) {
    IncludeState(lists.inc, lists.incDone, incPaths) && ExcludeState(lists.exc, lists.excDone, excPaths)
  }

  /** The lists hold what the includes `ps` compile to. */
  ghost predicate BuiltFor(lists: Lists, ps: seq<Path>) {
    Built(lists, Includes(ps), Excludes(ps))
  }

  lemma CleanedMore(included: seq<string>, i: nat)
    requires i < |included|
    ensures Cleaned(included[..i + 1]) == Cleaned(included[..i]) + [CleanPath(included[i])]
  {
  }

  lemma IncludeStep(inc: seq<string>, incDone: set<string>, ps: seq<Path>, p: Path)
    requires IncludeState(inc, incDone, ps) && SlashFree(p) && p != [] && Render(p) != "/"
    ensures Render(p) in incDone ==> AddNew(ps, p) == ps
    ensures Render(p) !in incDone ==> IncludeState(inc + [Render(p)], incDone + {Render(p)}, AddNew(ps, p))
  {
    forall q | SlashFree(q) && Render(q) == Render(p) ensures q == p {
      RenderInjective(p, q);
    }
  }

  lemma ExcludeStep(exc: seq<string>, excDone: set<string>, ps: seq<Path>, p: Path)
    requires ExcludeState(exc, excDone, ps) && SlashFree(p)
    ensures Render(p) + "/*" in excDone ==> AddNew(ps, p) == ps
    ensures Render(p) + "/*" !in excDone ==>
              ExcludeState(exc + [Render(p) + "/*"], excDone + {Render(p) + "/*"}, AddNew(ps, p))
  {
    forall q | SlashFree(q) && Render(q) + "/*" == Render(p) + "/*" ensures q == p {
      assert Render(q) == (Render(q) + "/*")[..|Render(q)|];
      assert Render(p) == (Render(p) + "/*")[..|Render(p)|];
      RenderInjective(p, q);
    }
  }

  lemma JoinEmpty(p: Path)
    requires Canonical(p)
    ensures Join(p) == "" <==> p == []
  {
    assert p != [] ==> p[0] in p;
  }

  lemma RenderLevel(p: Path, k: nat)
    requires k < |p| && Canonical(p)
    ensures Render(p[..k + 1]) == Render(p[..k]) + "/" + p[k]
    ensures p[k] != "" && SlashFree(p[..k]) && SlashFree(p[..k + 1])
    ensures Render(p[..k + 1]) != "/"
  {
    assert Parent(p[..k + 1]) == p[..k];
    assert p[k] in p;
  }

  lemma Emitted(lists: Lists, ps: seq<Path>, excluded: seq<string>)
    requires BuiltFor(lists, ps)
    ensures Prefixed("--include=", lists.inc) + Prefixed("--exclude=", lists.exc) + Prefixed("--exclude=", excluded)
         == Texts(Compile(ps, excluded))
  {
    SpelledIncludes(lists.inc, Includes(ps));
    SpelledExcludes(lists.exc, Excludes(ps));
    assert Prefixed("--exclude=", excluded) == Texts(UserRules(excluded));
    TextsAppend(IncludeRules(Includes(ps)), ExcludeRules(Excludes(ps)));
    TextsAppend(Base(ps), UserRules(excluded));
  }

  lemma SpelledIncludes(inc: seq<string>, ps: seq<Path>)
    requires |inc| == |ps| && forall i :: 0 <= i < |inc| ==> inc[i] == Spell(ps[i])
    ensures Prefixed("--include=", inc) == Texts(IncludeRules(ps))
  {
  }

  lemma RegroupText(a: string, b: string, c: string)
    ensures a + (b + c) == a + b + c
  {
  }

  lemma SpelledExcludes(exc: seq<string>, dirs: seq<Path>)
    requires |exc| == |dirs| && forall i :: 0 <= i < |exc| ==> exc[i] == Render(dirs[i]) + "/*"
    ensures Prefixed("--exclude=", exc) == Texts(ExcludeRules(dirs))
  {
    forall i | 0 <= i < |exc| ensures Prefixed("--exclude=", exc)[i] == Texts(ExcludeRules(dirs))[i] {
      RegroupText("--exclude=", Render(dirs[i]), "/*");
    }
  }

  lemma TextsAppend(a: seq<Rule>, b: seq<Rule>)
    ensures Texts(a + b) == Texts(a) + Texts(b)
  {
  }

  class RsyncConfig {
    var Included: seq<string>
    var Excluded: seq<string>
    var Arguments: seq<string>

    constructor (included: seq<string>, excluded: seq<string>, arguments: seq<string>)
      ensures Included == included && Excluded == excluded && Arguments == arguments
    {
      Included, Excluded, Arguments := included, excluded, arguments;
    }

    /** The last part of `filter`: includes, generated excludes, then the user's excludes. */
    static method EmitList(inc: seq<string>, exc: seq<string>, excluded: seq<string>) returns (list: seq<string>)
      ensures list == Prefixed("--include=", inc) + Prefixed("--exclude=", exc) + Prefixed("--exclude=", excluded)
    {
      list := [];
      for i := 0 to |inc|
        invariant list == Prefixed("--include=", inc[..i])
      {
        PrefixedMore("--include=", inc, i);
        list := list + ["--include=" + inc[i]];
      }
      assert inc[..|inc|] == inc;
      ghost var includes := list;
      for i := 0 to |exc|
        invariant list == includes + Prefixed("--exclude=", exc[..i])
      {
        PrefixedMore("--exclude=", exc, i);
        list := list + ["--exclude=" + exc[i]];
      }
      assert exc[..|exc|] == exc;
      ghost var generated := list;
      for i := 0 to |excluded|
        invariant list == generated + Prefixed("--exclude=", excluded[..i])
      {
        PrefixedMore("--exclude=", excluded, i);
        list := list + ["--exclude=" + excluded[i]];
      }
      assert excluded[..|excluded|] == excluded;
    }

    /** The loop over the levels of one include. */
    static method AddLevels(elems: seq<string>, lists: Lists, ghost incPaths: seq<Path>, ghost excPaths: seq<Path>)
      returns (grown: Lists)
      requires Canonical(elems) && Built(lists, incPaths, excPaths)
      ensures Built(grown, AddIncludes(incPaths, elems, |elems|), AddExcludes(excPaths, elems, |elems|))
    {
      var Lists(inc, incDone, exc, excDone) := lists;
      var f := "";
      for k := 0 to |elems|
        invariant f == Render(elems[..k])
        invariant IncludeState(inc, incDone, AddIncludes(incPaths, elems, k))
        invariant ExcludeState(exc, excDone, AddExcludes(excPaths, elems, k))
      {
        RenderLevel(elems, k);
        var elem := if elems[k] == "" then "/" else elems[k];
        var fs := f + "/*";
        ExcludeStep(exc, excDone, AddExcludes(excPaths, elems, k), elems[..k]);
        if fs !in excDone {
          exc := exc + [fs];
          excDone := excDone + {fs};
        }
        f := f + "/" + elem;
        IncludeStep(inc, incDone, AddIncludes(incPaths, elems, k), elems[..k + 1]);
        if f !in incDone {
          inc := inc + [f];
          incDone := incDone + {f};
        }
      }
      grown := Lists(inc, incDone, exc, excDone);
    }

    /** The loop body for one include; `ps` are the includes before it. */
    static method AddInclude(incl: string, lists: Lists, ghost ps: seq<Path>) returns (grown: Lists)
      requires BuiltFor(lists, ps)
      ensures BuiltFor(grown, ps + [CleanPath(incl)])
    {
      ghost var p := CleanPath(incl);
      assert (ps + [p])[..|ps|] == ps;
      var file := Clean(incl);
      assert file[1..] == Join(p);
      JoinEmpty(p);
      if file == "/" {
        grown := if file !in lists.incDone then lists.(inc := lists.inc + [file]) else lists;
        return;
      }
      SplitJoin(p);
      grown := AddLevels(Split(file[1..]), lists, Includes(ps), Excludes(ps));
    }

    /** The loop over the includes. */
    static method CompileIncludes(included: seq<string>) returns (lists: Lists)
      ensures BuiltFor(lists, Cleaned(included))
    {
      lists := Lists([], {}, [], {});
      for i := 0 to |included|
        invariant BuiltFor(lists, Cleaned(included[..i]))
      {
        lists := AddInclude(included[i], lists, Cleaned(included[..i]));
        CleanedMore(included, i);
      }
      assert included[..|included|] == included;
    }

    method Filter() returns (list: seq<string>)
      ensures list == Texts(Compile(Cleaned(Included), Excluded))
    {
      var lists := CompileIncludes(Included);
      list := EmitList(lists.inc, lists.exc, Excluded);
      Emitted(lists, Cleaned(Included), Excluded);
    }

    /** The inner loop of `args`: the first matching table entry. */
    static method FindFlag(table: seq<BlacklistArg>, arg: string) returns (swallowed: Option<nat>)
      ensures swallowed == Lookup(table, arg)
    {
      for k := 0 to |table|
        invariant Lookup(table, arg) == Lookup(table[k..], arg)
      {
        var (matches, n) := MatchArg(table[k], arg);
        if matches {
          return Some(n);
        }
      }
      return None;
    }

    static method RemoveFlags(table: seq<BlacklistArg>, policy: Policy, toks: seq<string>) returns (f: seq<string>)
      requires Implements(table, policy)
      ensures f == Allowed(policy, false, toks, |toks|)
    {
      f := [];
      var i := 0;
      while i < |toks|
        invariant Scanned(policy, toks, i, f)
      {
        var arg := toks[i];
        var swallowed := FindFlag(table, arg);
        ScanToken(policy, toks, i, f);
        if swallowed.None? {
          f := f + [arg];
          i := i + 1;
        } else {
          i := i + swallowed.value + 1;
        }
      }
    }

    method Args() returns (f: seq<string>)
      ensures f == Sanitized(Arguments)
    {
      BlacklistImplements();
      f := RemoveFlags(BLACKLIST, BLACKLISTED, Arguments);
    }

    method BuildArgVector(ssh: string, src: string, dst: string) returns (args: seq<string>)
      ensures args == Vector(Texts(Compile(Cleaned(Included), Excluded)), ssh, Sanitized(Arguments),
                             SlashTerminated(src), SlashTerminated(dst))
    {
      var source := if src != "" && src[|src| - 1] == '/' then src else src + "/";
      var target := if dst != "" && dst[|dst| - 1] == '/' then dst else dst + "/";
      args := Filter();
      args := args + ["-e", ssh];
      var rest := Args();
      args := args + rest;
      args := args + ["--delete", "--delete-excluded", "--delete-delay", "--itemize-changes"];
      args := args + [source, target];
    }
  }
}
