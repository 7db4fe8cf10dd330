/** The rule list that the include/exclude compiler emits, and what rsync makes of it.
    Include paths are literal (wildcard-free); user excludes are opaque patterns. */
module FilterRules {
  import opened Paths
  import opened Sequences

  datatype Rule =
    | Include(path: Path)          // --include=/a/b
    | ExcludeChildren(dir: Path)   // --exclude=/a/*
    | UserExclude(pattern: string) // --exclude=<whatever the user wrote>

  /** Which nodes a user pattern matches is up to rsync. */
  type Glob = (string, Path) -> bool

  predicate Matches(r: Rule, node: Path, glob: Glob)
    requires node != []
  {
    match r
    case Include(p) => node == p
    case ExcludeChildren(d) => Parent(node) == d
    case UserExclude(pat) => glob(pat, node)
  }

  function FirstMatch(rules: seq<Rule>, node: Path, glob: Glob): (i: nat)
    requires node != []
    ensures i <= |rules|
    ensures forall j :: 0 <= j < i ==> !Matches(rules[j], node, glob)
    ensures i < |rules| ==> Matches(rules[i], node, glob)
  {
    if rules == [] || Matches(rules[0], node, glob) then 0
    else 1 + FirstMatch(rules[1..], node, glob)
  }

  /** The first matching rule decides; a node that no rule matches is kept. */
  predicate Kept(rules: seq<Rule>, node: Path, glob: Glob)
    requires node != []
  {
    var i := FirstMatch(rules, node, glob);
    i == |rules| || rules[i].Include?
  }

  /** The transfer walks down from the root and never enters a directory it has dropped. */
  predicate Survives(rules: seq<Rule>, p: Path, glob: Glob) {
    p == [] || (Survives(rules, Parent(p), glob) && Kept(rules, p, glob))
  }

  // ---------------------------------------------------------------------
  // The compiler's lists

  function AddNew(acc: seq<Path>, p: Path): seq<Path> {
    if p in acc then acc else acc + [p]
  }

  /** `acc` after visiting the first `k` levels of `p`. */
  function AddIncludes(acc: seq<Path>, p: Path, k: nat): seq<Path>
    requires k <= |p|
  {
    if k == 0 then acc else AddNew(AddIncludes(acc, p, k - 1), p[..k])
  }

  function AddExcludes(acc: seq<Path>, p: Path, k: nat): seq<Path>
    requires k <= |p|
  {
    if k == 0 then acc else AddNew(AddExcludes(acc, p, k - 1), p[..k - 1])
  }

  function Includes(ps: seq<Path>): seq<Path> {
    if ps == [] then []
    else
      var acc, p := Includes(ps[..|ps| - 1]), ps[|ps| - 1];
      if p == [] then acc + [[]] else AddIncludes(acc, p, |p|)
  }

  function Excludes(ps: seq<Path>): seq<Path> {
    if ps == [] then []
    else
      var acc, p := Excludes(ps[..|ps| - 1]), ps[|ps| - 1];
      AddExcludes(acc, p, |p|)
  }

  function IncludeRules(ps: seq<Path>): (rules: seq<Rule>)
    ensures |rules| == |ps| && forall i :: 0 <= i < |ps| ==> rules[i] == Include(ps[i])
    ensures forall r :: r in rules <==> r.Include? && r.path in ps
  {
    if ps == [] then [] else [Include(ps[0])] + IncludeRules(ps[1..])
  }

  function ExcludeRules(ps: seq<Path>): (rules: seq<Rule>)
    ensures |rules| == |ps| && forall i :: 0 <= i < |ps| ==> rules[i] == ExcludeChildren(ps[i])
    ensures forall r :: r in rules <==> r.ExcludeChildren? && r.dir in ps
  {
    if ps == [] then [] else [ExcludeChildren(ps[0])] + ExcludeRules(ps[1..])
  }

  function UserRules(patterns: seq<string>): (rules: seq<Rule>)
    ensures |rules| == |patterns| && forall i :: 0 <= i < |patterns| ==> rules[i] == UserExclude(patterns[i])
  {
    if patterns == [] then [] else [UserExclude(patterns[0])] + UserRules(patterns[1..])
  }

  /** All includes first, then all generated excludes. */
  function Base(ps: seq<Path>): seq<Rule> {
    IncludeRules(Includes(ps)) + ExcludeRules(Excludes(ps))
  }

  function Compile(ps: seq<Path>, patterns: seq<string>): seq<Rule> {
    Base(ps) + UserRules(patterns)
  }

  // ---------------------------------------------------------------------
  // What is in the lists

  /** An include or one of its ancestors. */
  ghost predicate OnSpine(ps: seq<Path>, q: Path) {
    exists p :: p in ps && q <= p
  }

  ghost predicate AboveInclude(ps: seq<Path>, q: Path) {
    exists p :: p in ps && q < p
  }

  lemma {:induction false} InAddIncludes(acc: seq<Path>, p: Path, k: nat, q: Path)
    requires k <= |p|
    ensures q in AddIncludes(acc, p, k) <==> q in acc || (q != [] && q <= p && |q| <= k)
  {
    if k > 0 {
      InAddIncludes(acc, p, k - 1, q);
      assert q == p[..k] <==> q <= p && |q| == k;
    }
  }

  lemma {:induction false} InAddExcludes(acc: seq<Path>, p: Path, k: nat, q: Path)
    requires k <= |p|
    ensures q in AddExcludes(acc, p, k) <==> q in acc || (q < p && |q| < k)
  {
    if k > 0 {
      InAddExcludes(acc, p, k - 1, q);
      assert q == p[..k - 1] <==> q <= p && |q| == k - 1;
    }
  }

  lemma SpineLast(ps: seq<Path>, q: Path)
    requires ps != []
    ensures var front, p := ps[..|ps| - 1], ps[|ps| - 1];
            && ([] in ps <==> [] in front || p == [])
            && (OnSpine(ps, q) <==> OnSpine(front, q) || q <= p)
            && (AboveInclude(ps, q) <==> AboveInclude(front, q) || q < p)
  {
    var front, p := ps[..|ps| - 1], ps[|ps| - 1];
    assert ps == front + [p];
    assert p in ps;
    if r :| r in front && q <= r {
      assert r in ps;
    }
    if r :| r in front && q < r {
      assert r in ps;
    }
  }

  /** The includes emitted are exactly the includes given and all their ancestors below the root. */
  lemma {:induction false} InIncludes(ps: seq<Path>, q: Path)
    ensures q in Includes(ps) <==> if q == [] then [] in ps else OnSpine(ps, q)
  {
    if ps != [] {
      var front, p := ps[..|ps| - 1], ps[|ps| - 1];
      InIncludes(front, q);
      SpineLast(ps, q);
      if p != [] {
        InAddIncludes(Includes(front), p, |p|, q);
      }
    }
  }

  /** The directories closed are exactly the proper ancestors of the includes. */
  lemma {:induction false} InExcludes(ps: seq<Path>, q: Path)
    ensures q in Excludes(ps) <==> AboveInclude(ps, q)
  {
    if ps != [] {
      var front, p := ps[..|ps| - 1], ps[|ps| - 1];
      InExcludes(front, q);
      SpineLast(ps, q);
      InAddExcludes(Excludes(front), p, |p|, q);
    }
  }

  ghost predicate DistinctBelowRoot(s: seq<Path>) {
    forall i, j :: 0 <= i < j < |s| && s[i] != [] ==> s[i] != s[j]
  }

  lemma {:induction false} AddIncludesDistinct(acc: seq<Path>, p: Path, k: nat)
    requires k <= |p| && DistinctBelowRoot(acc)
    ensures DistinctBelowRoot(AddIncludes(acc, p, k))
  {
    if k > 0 {
      AddIncludesDistinct(acc, p, k - 1);
    }
  }

  lemma {:induction false} AddExcludesDistinct(acc: seq<Path>, p: Path, k: nat)
    requires k <= |p| && Distinct(acc)
    ensures Distinct(AddExcludes(acc, p, k))
  {
    if k > 0 {
      AddExcludesDistinct(acc, p, k - 1);
    }
  }

  /** Nothing is emitted twice, except that `--include=/` is repeated as often as it was asked for. */
  lemma {:induction false} NoRepeats(ps: seq<Path>)
    ensures DistinctBelowRoot(Includes(ps))
    ensures Distinct(Excludes(ps))
    ensures multiset(Includes(ps))[[]] == multiset(ps)[[]]
  {
    if ps != [] {
      var front, p := ps[..|ps| - 1], ps[|ps| - 1];
      NoRepeats(front);
      assert ps == front + [p];
      AddExcludesDistinct(Excludes(front), p, |p|);
      if p != [] {
        AddIncludesDistinct(Includes(front), p, |p|);
        RootCountKept(Includes(front), p, |p|);
      }
    }
  }

  lemma {:induction false} RootCountKept(acc: seq<Path>, p: Path, k: nat)
    requires k <= |p|
    ensures multiset(AddIncludes(acc, p, k))[[]] == multiset(acc)[[]]
  {
    if k > 0 {
      RootCountKept(acc, p, k - 1);
    }
  }

  // ---------------------------------------------------------------------
  // Deciding one node

  ghost predicate SameRules(a: seq<Rule>, b: seq<Rule>) {
    forall r :: r in a <==> r in b
  }

  /** `first` is in the list, and no `second` stands before it. */
  ghost predicate ComesBefore(rules: seq<Rule>, first: Rule, second: Rule) {
    exists i :: 0 <= i < |rules| && rules[i] == first && second !in rules[..i]
  }

  /** No directory is closed before what is wanted in it has been let through. */
  ghost predicate IncludesPrecede(rules: seq<Rule>) {
    forall f: Path ::
      f != [] && Include(f) in rules && ExcludeChildren(Parent(f)) in rules ==>
      ComesBefore(rules, Include(f), ExcludeChildren(Parent(f)))
  }

  predicate UserMatched(patterns: seq<string>, node: Path, glob: Glob) {
    exists pat :: pat in patterns && glob(pat, node)
  }

  lemma InBase(ps: seq<Path>, node: Path)
    requires node != []
    ensures Include(node) in Base(ps) <==> OnSpine(ps, node)
    ensures ExcludeChildren(Parent(node)) in Base(ps) <==> AboveInclude(ps, Parent(node))
    ensures OnSpine(ps, node) ==> AboveInclude(ps, Parent(node))
  {
    InIncludes(ps, node);
    InExcludes(ps, Parent(node));
    if p :| p in ps && node <= p {
      assert Parent(node) < p;
    }
  }

  /** Of the generated rules, only two can match a node: its own include and the one closing its parent. */
  lemma MatchingRules(ps: seq<Path>, rules: seq<Rule>, node: Path, glob: Glob, r: Rule)
    requires node != [] && SameRules(rules, Base(ps)) && r in rules
    ensures Matches(r, node, glob) <==> r == Include(node) || r == ExcludeChildren(Parent(node))
  {
    assert r in Base(ps);
  }

  lemma SpineKept(ps: seq<Path>, rules: seq<Rule>, tail: seq<Rule>, node: Path, glob: Glob)
    requires node != [] && SameRules(rules, Base(ps)) && IncludesPrecede(rules) && OnSpine(ps, node)
    ensures Kept(rules + tail, node, glob)
  {
    InBase(ps, node);
    var i :| 0 <= i < |rules| && rules[i] == Include(node) && ExcludeChildren(Parent(node)) !in rules[..i];
    assert Matches((rules + tail)[i], node, glob);
    var k := FirstMatch(rules + tail, node, glob);
    MatchingRules(ps, rules, node, glob, rules[k]);
    assert k < i ==> rules[k] in rules[..i];
  }

  lemma ClosedDropped(ps: seq<Path>, rules: seq<Rule>, tail: seq<Rule>, node: Path, glob: Glob)
    requires node != [] && SameRules(rules, Base(ps)) && !OnSpine(ps, node) && AboveInclude(ps, Parent(node))
    ensures !Kept(rules + tail, node, glob)
  {
    InBase(ps, node);
    var c :| 0 <= c < |rules| && rules[c] == ExcludeChildren(Parent(node));
    assert Matches((rules + tail)[c], node, glob);
    var i := FirstMatch(rules + tail, node, glob);
    MatchingRules(ps, rules, node, glob, rules[i]);
  }

  lemma OpenLeftToUser(ps: seq<Path>, rules: seq<Rule>, patterns: seq<string>, node: Path, glob: Glob)
    requires node != [] && SameRules(rules, Base(ps)) && !OnSpine(ps, node) && !AboveInclude(ps, Parent(node))
    ensures Kept(rules + UserRules(patterns), node, glob) <==> !UserMatched(patterns, node, glob)
  {
    InBase(ps, node);
    var all := rules + UserRules(patterns);
    forall j | 0 <= j < |rules| ensures !Matches(all[j], node, glob) {
      MatchingRules(ps, rules, node, glob, rules[j]);
    }
    if UserMatched(patterns, node, glob) {
      var k :| 0 <= k < |patterns| && glob(patterns[k], node);
      assert Matches(all[|rules| + k], node, glob);
    }
  }

  /** In every well-ordered arrangement, includes and their ancestors are kept, anything else in a
      closed directory is dropped, and only the rest is left to the user's patterns. */
  lemma Decision(ps: seq<Path>, rules: seq<Rule>, patterns: seq<string>, node: Path, glob: Glob)
    requires node != [] && SameRules(rules, Base(ps)) && IncludesPrecede(rules)
    ensures Kept(rules + UserRules(patterns), node, glob) <==>
            OnSpine(ps, node) || (!AboveInclude(ps, Parent(node)) && !UserMatched(patterns, node, glob))
  {
    if OnSpine(ps, node) {
      SpineKept(ps, rules, UserRules(patterns), node, glob);
    } else if AboveInclude(ps, Parent(node)) {
      ClosedDropped(ps, rules, UserRules(patterns), node, glob);
    } else {
      OpenLeftToUser(ps, rules, patterns, node, glob);
    }
  }
}
