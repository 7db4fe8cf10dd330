/** What the compiled rule list selects, and which reorderings of it select the same. */
module FilterTheorems {
  import opened Paths
  import opened FilterRules

  lemma {:induction false} SurvivesLevels(rules: seq<Rule>, p: Path, glob: Glob)
    ensures Survives(rules, p, glob) <==> forall k :: 0 < k <= |p| ==> Kept(rules, p[..k], glob)
  {
    if p != [] {
      SurvivesLevels(rules, Parent(p), glob);
      assert p[..|p|] == p;
      assert forall k :: 0 < k < |p| ==> Parent(p)[..k] == p[..k];
    }
  }

  // ---------------------------------------------------------------------
  // Order of the rules

  lemma BeforeAcross(a: seq<Rule>, b: seq<Rule>, first: Rule, second: Rule)
    requires first in a && second !in a
    ensures ComesBefore(a + b, first, second)
  {
    var i :| 0 <= i < |a| && a[i] == first;
    assert (a + b)[..i] == a[..i];
    assert (a + b)[i] == first;
  }

  lemma BeforeInTail(a: seq<Rule>, b: seq<Rule>, first: Rule, second: Rule)
    requires second !in a && ComesBefore(b, first, second)
    ensures ComesBefore(a + b, first, second)
  {
    var i :| 0 <= i < |b| && b[i] == first && second !in b[..i];
    assert (a + b)[..|a| + i] == a + b[..i];
    assert (a + b)[|a| + i] == first;
  }

  /** Includes first is a well-ordered arrangement. */
  lemma BaseIncludesPrecede(ps: seq<Path>)
    ensures IncludesPrecede(Base(ps))
  {
    forall f: Path | f != [] && Include(f) in Base(ps) && ExcludeChildren(Parent(f)) in Base(ps)
      ensures ComesBefore(Base(ps), Include(f), ExcludeChildren(Parent(f)))
    {
      BeforeAcross(IncludeRules(Includes(ps)), ExcludeRules(Excludes(ps)), Include(f), ExcludeChildren(Parent(f)));
    }
  }

  lemma {:induction false} SurvivesSpine(ps: seq<Path>, patterns: seq<string>, p: Path, glob: Glob)
    requires p == [] || OnSpine(ps, p)
    ensures Survives(Compile(ps, patterns), p, glob)
  {
    if p != [] {
      BaseIncludesPrecede(ps);
      Decision(ps, Base(ps), patterns, p, glob);
      if Parent(p) != [] {
        var c :| c in ps && p <= c;
        assert Parent(p) <= c;
      }
      SurvivesSpine(ps, patterns, Parent(p), glob);
    }
  }

  lemma {:induction false} SameDecisions(ps: seq<Path>, rules: seq<Rule>, patterns: seq<string>, p: Path, glob: Glob)
    requires SameRules(rules, Base(ps)) && IncludesPrecede(rules)
    ensures Survives(rules + UserRules(patterns), p, glob) <==> Survives(Compile(ps, patterns), p, glob)
  {
    if p != [] {
      SameDecisions(ps, rules, patterns, Parent(p), glob);
      BaseIncludesPrecede(ps);
      Decision(ps, Base(ps), patterns, p, glob);
      Decision(ps, rules, patterns, p, glob);
    }
  }

  lemma ClosedTooEarly(ps: seq<Path>, rules: seq<Rule>, f: Path, tail: seq<Rule>, glob: Glob)
    requires SameRules(rules, Base(ps)) && f != [] && Include(f) in rules
    requires !ComesBefore(rules, Include(f), ExcludeChildren(Parent(f)))
    ensures !Kept(rules + tail, f, glob)
  {
    var c :| 0 <= c < |rules| && rules[c] == Include(f);
    assert Matches((rules + tail)[c], f, glob);
    var i := FirstMatch(rules + tail, f, glob);
    MatchingRules(ps, rules, f, glob, rules[i]);
    forall e | 0 <= e < i ensures rules[e] != ExcludeChildren(Parent(f)) {
      assert !Matches((rules + tail)[e], f, glob);
    }
    assert ExcludeChildren(Parent(f)) !in rules[..i];
  }

  /** "Hopefully they commute": a rearrangement of the generated rules selects what the emitted list
      selects, whatever the user excludes, exactly when every include comes before the rule that
      closes its parent directory. */
  lemma Commute(ps: seq<Path>, rules: seq<Rule>, patterns: seq<string>, glob: Glob)
    requires SameRules(rules, Base(ps))
    ensures IncludesPrecede(rules) <==>
            forall p :: Survives(rules + UserRules(patterns), p, glob) <==> Survives(Compile(ps, patterns), p, glob)
  {
    if IncludesPrecede(rules) {
      forall p ensures Survives(rules + UserRules(patterns), p, glob) <==> Survives(Compile(ps, patterns), p, glob) {
        SameDecisions(ps, rules, patterns, p, glob);
      }
    } else {
      var f := LostInclude(ps, rules, patterns, glob);
      assert !(Survives(rules + UserRules(patterns), f, glob) <==> Survives(Compile(ps, patterns), f, glob));
    }
  }

  lemma LostInclude(ps: seq<Path>, rules: seq<Rule>, patterns: seq<string>, glob: Glob) returns (f: Path)
    requires SameRules(rules, Base(ps)) && !IncludesPrecede(rules)
    ensures !Survives(rules + UserRules(patterns), f, glob) && Survives(Compile(ps, patterns), f, glob)
  {
    f :| f != [] && Include(f) in rules && ExcludeChildren(Parent(f)) in rules &&
      !ComesBefore(rules, Include(f), ExcludeChildren(Parent(f)));
    LostWhenLate(ps, rules, patterns, f, glob);
  }

  lemma LostWhenLate(ps: seq<Path>, rules: seq<Rule>, patterns: seq<string>, f: Path, glob: Glob)
    requires SameRules(rules, Base(ps)) && f != [] && Include(f) in rules
    requires !ComesBefore(rules, Include(f), ExcludeChildren(Parent(f)))
    ensures !Survives(rules + UserRules(patterns), f, glob) && Survives(Compile(ps, patterns), f, glob)
  {
    assert OnSpine(ps, f) by {
      assert Include(f) in Base(ps);
      InBase(ps, f);
    }
    ClosedTooEarly(ps, rules, f, UserRules(patterns), glob);
    SurvivesSpine(ps, patterns, f, glob);
  }

  // The level-by-level list: for each directory, what is wanted in it and then its closing rule.

  function IncludesIn(dir: Path, incs: seq<Path>): (rules: seq<Rule>)
    ensures forall r :: r in rules <==> r.Include? && r.path in incs && r.path != [] && Parent(r.path) == dir
  {
    if incs == [] then []
    else (if incs[0] != [] && Parent(incs[0]) == dir then [Include(incs[0])] else []) + IncludesIn(dir, incs[1..])
  }

  function RootIncludes(incs: seq<Path>): (rules: seq<Rule>)
    ensures forall r :: r in rules <==> r == Include([]) && [] in incs
  {
    if incs == [] then []
    else (if incs[0] == [] then [Include([])] else []) + RootIncludes(incs[1..])
  }

  function Levels(dirs: seq<Path>, incs: seq<Path>): (rules: seq<Rule>)
    ensures forall r :: r in rules <==>
              || (r.ExcludeChildren? && r.dir in dirs)
              || (r.Include? && r.path in incs && r.path != [] && Parent(r.path) in dirs)
  {
    if dirs == [] then []
    else IncludesIn(dirs[0], incs) + [ExcludeChildren(dirs[0])] + Levels(dirs[1..], incs)
  }

  function LevelByLevel(ps: seq<Path>): seq<Rule> {
    RootIncludes(Includes(ps)) + Levels(Excludes(ps), Includes(ps))
  }

  lemma LevelByLevelSameRules(ps: seq<Path>)
    ensures SameRules(LevelByLevel(ps), Base(ps))
  {
    forall r ensures r in LevelByLevel(ps) <==> r in Base(ps) {
      if r.Include? && r.path != [] {
        InBase(ps, r.path);
        InIncludes(ps, r.path);
        InExcludes(ps, Parent(r.path));
      }
    }
  }

  lemma {:induction false} LevelsOrder(dirs: seq<Path>, incs: seq<Path>, f: Path)
    requires f in incs && f != [] && Parent(f) in dirs
    ensures Include(f) in Levels(dirs, incs) && ExcludeChildren(Parent(f)) in Levels(dirs, incs)
    ensures ComesBefore(Levels(dirs, incs), Include(f), ExcludeChildren(Parent(f)))
  {
    var wanted, close, rest := IncludesIn(dirs[0], incs), [ExcludeChildren(dirs[0])], Levels(dirs[1..], incs);
    if Parent(f) == dirs[0] {
      BeforeAcross(wanted, close + rest, Include(f), ExcludeChildren(Parent(f)));
      assert Levels(dirs, incs) == wanted + (close + rest);
    } else {
      LevelsOrder(dirs[1..], incs, f);
      BeforeInTail(wanted + close, rest, Include(f), ExcludeChildren(Parent(f)));
    }
  }

  /** BackupPC's own order and the emitted order select the same paths. */
  lemma LevelByLevelAgrees(ps: seq<Path>, patterns: seq<string>, p: Path, glob: Glob)
    ensures Survives(LevelByLevel(ps) + UserRules(patterns), p, glob) <==> Survives(Compile(ps, patterns), p, glob)
  {
    LevelByLevelSameRules(ps);
    var all := LevelByLevel(ps);
    forall f: Path | f != [] && Include(f) in all && ExcludeChildren(Parent(f)) in all
      ensures ComesBefore(all, Include(f), ExcludeChildren(Parent(f)))
    {
      LevelsOrder(Excludes(ps), Includes(ps), f);
      var roots, levels := RootIncludes(Includes(ps)), Levels(Excludes(ps), Includes(ps));
      BeforeInTail(roots, levels, Include(f), ExcludeChildren(Parent(f)));
    }
    Commute(ps, all, patterns, glob);
  }

  // ---------------------------------------------------------------------
  // What is selected

  /** Not narrowed by a deeper include. */
  ghost predicate Maximal(ps: seq<Path>, c: Path) {
    c in ps && c != [] && forall d :: d in ps ==> !(c < d)
  }

  ghost predicate Selected(ps: seq<Path>, p: Path) {
    || (forall c :: c in ps ==> c == [])
    || (exists c :: c in ps && p <= c)
    || (exists c :: Maximal(ps, c) && c <= p)
  }

  lemma BaseDecision(ps: seq<Path>, node: Path, glob: Glob)
    requires node != []
    ensures Kept(Base(ps), node, glob) <==> OnSpine(ps, node) || !AboveInclude(ps, Parent(node))
  {
    BaseIncludesPrecede(ps);
    Decision(ps, Base(ps), [], node, glob);
    assert Base(ps) + UserRules([]) == Base(ps);
  }

  /** The deepest level of `p` that is still on the way to an include. */
  lemma {:induction false} DeepestOnSpine(ps: seq<Path>, p: Path) returns (k: nat)
    requires exists c :: c in ps && c != []
    ensures k <= |p| && OnSpine(ps, p[..k])
    ensures k < |p| ==> !OnSpine(ps, p[..k + 1])
  {
    var c :| c in ps && c != [];
    assert p[..0] <= c;
    k := 0;
    while k < |p| && OnSpine(ps, p[..k + 1])
      invariant k <= |p| && OnSpine(ps, p[..k])
    {
      k := k + 1;
    }
  }

  /** The paths that survive are the includes, their ancestors, and all that lies below an include
      that no other include narrows; without any proper include everything survives. */
  lemma Selection(ps: seq<Path>, p: Path, glob: Glob)
    ensures Survives(Base(ps), p, glob) <==> Selected(ps, p)
  {
    SurvivesLevels(Base(ps), p, glob);
    if Survives(Base(ps), p, glob) && exists c :: c in ps && c != [] {
      SurvivorSelected(ps, p, glob);
    }
    if Selected(ps, p) {
      forall k | 0 < k <= |p| ensures Kept(Base(ps), p[..k], glob) {
        SelectedKept(ps, p, k, glob);
      }
    }
  }

  lemma SurvivorSelected(ps: seq<Path>, p: Path, glob: Glob)
    requires Survives(Base(ps), p, glob) && exists c :: c in ps && c != []
    ensures Selected(ps, p)
  {
    var k := DeepestOnSpine(ps, p);
    var c :| c in ps && p[..k] <= c;
    if k == |p| {
      assert p[..k] == p;
    } else {
      SurvivesLevels(Base(ps), p, glob);
      BaseDecision(ps, p[..k + 1], glob);
      assert Parent(p[..k + 1]) == p[..k];
      assert !AboveInclude(ps, p[..k]);
      assert c == p[..k];
      var d :| d in ps && d != [];
      assert c != [];
      assert Maximal(ps, c);
    }
  }

  lemma SelectedKept(ps: seq<Path>, p: Path, k: nat, glob: Glob)
    requires Selected(ps, p) && 0 < k <= |p|
    ensures Kept(Base(ps), p[..k], glob)
  {
    var node := p[..k];
    BaseDecision(ps, node, glob);
    assert Parent(node) == p[..k - 1];
    if c :| c in ps && p <= c {
      assert node <= c;
    } else if c :| Maximal(ps, c) && c <= p {
      if k <= |c| {
        assert node <= c;
      } else {
        assert c <= Parent(node);
        assert forall d :: d in ps && Parent(node) < d ==> c < d;
      }
    }
  }

  /** Order and repetition of the includes make no difference, and neither does asking for `/`. */
  lemma OnlyTheSetMatters(ps: seq<Path>, qs: seq<Path>, p: Path, glob: Glob)
    requires forall c :: c != [] ==> (c in ps <==> c in qs)
    ensures Survives(Base(ps), p, glob) <==> Survives(Base(qs), p, glob)
  {
    Selection(ps, p, glob);
    Selection(qs, p, glob);
    SetMonotone(ps, qs, p);
    SetMonotone(qs, ps, p);
  }

  lemma SetMonotone(ps: seq<Path>, qs: seq<Path>, p: Path)
    requires forall c :: c != [] ==> (c in ps <==> c in qs)
    ensures Selected(ps, p) ==> Selected(qs, p)
  {
    if !Selected(ps, p) {
    } else if d :| d in qs && d != [] {
      assert d in ps;
      if c :| c in ps && p <= c {
        if c == [] { assert p <= d; } else { assert c in qs; }
      } else {
        var c :| Maximal(ps, c) && c <= p;
        assert Maximal(qs, c);
      }
    }
  }

  // ---------------------------------------------------------------------
  // User excludes

  /** A user pattern only bites outside the includes and their ancestors. */
  ghost predicate HitOffSpine(ps: seq<Path>, patterns: seq<string>, p: Path, glob: Glob) {
    exists k :: 0 < k <= |p| && !OnSpine(ps, p[..k]) && UserMatched(patterns, p[..k], glob)
  }

  lemma UserExcludes(ps: seq<Path>, patterns: seq<string>, p: Path, glob: Glob)
    ensures Survives(Compile(ps, patterns), p, glob) <==>
            Selected(ps, p) && !HitOffSpine(ps, patterns, p, glob)
  {
    Selection(ps, p, glob);
    SurvivesLevels(Base(ps), p, glob);
    SurvivesLevels(Compile(ps, patterns), p, glob);
    BaseIncludesPrecede(ps);
    forall k | 0 < k <= |p|
      ensures Kept(Compile(ps, patterns), p[..k], glob) <==>
              Kept(Base(ps), p[..k], glob) && (OnSpine(ps, p[..k]) || !UserMatched(patterns, p[..k], glob))
    {
      Decision(ps, Base(ps), patterns, p[..k], glob);
      BaseDecision(ps, p[..k], glob);
    }
  }

  /** More user excludes never select more, and never lose an include or the way to it. */
  lemma ExcludesOnlyShrink(ps: seq<Path>, patterns: seq<string>, more: seq<string>, p: Path, glob: Glob)
    requires forall pat :: pat in patterns ==> pat in more
    ensures Survives(Compile(ps, more), p, glob) ==> Survives(Compile(ps, patterns), p, glob)
    ensures OnSpine(ps, p) ==> Survives(Compile(ps, more), p, glob)
  {
    UserExcludes(ps, patterns, p, glob);
    UserExcludes(ps, more, p, glob);
    if OnSpine(ps, p) {
      SurvivesSpine(ps, more, p, glob);
    }
  }
}
