/** The walk over the tokens as they stand on the command line. */
module FilterWalk {
  import opened Paths
  import opened FilterRules
  import opened FilterTheorems
  import opened RsyncConfig

  /** No character that rsync would read as a wildcard. */
  predicate WildcardFree(p: Path) {
    forall c, ch :: c in p && ch in c ==> ch != '*' && ch != '?' && ch != '[' && ch != '\\'
  }

  /** What rsync makes of an anchored pattern without wildcards, and of one that ends in a `*` component:
      the whole path has to be the same, or the path of the parent. */
  predicate AnchoredMatch(pattern: string, node: Path)
    requires node != []
  {
    if |pattern| >= 2 && pattern[|pattern| - 2..] == "/*" then Render(Parent(node)) == pattern[..|pattern| - 2]
    else Render(node) == pattern
  }

  lemma StarPattern(stem: string, node: Path)
    requires node != []
    ensures AnchoredMatch(stem + "/*", node) <==> Render(Parent(node)) == stem
  {
    var pattern := stem + "/*";
    assert pattern[|pattern| - 2..] == "/*" && pattern[..|pattern| - 2] == stem;
  }

  lemma PlainPattern(pattern: string, node: Path)
    requires node != [] && (pattern == "/" || (|pattern| >= 2 && pattern[|pattern| - 1] != '*'))
    ensures AnchoredMatch(pattern, node) <==> Render(node) == pattern
  {
    assert |pattern| >= 2 ==> pattern[|pattern| - 2..][1] == pattern[|pattern| - 1];
  }

  lemma NeverBareSlash(node: Path)
    requires Canonical(node) && node != []
    ensures Render(node) != "/"
  {
    RenderLevel(node, |node| - 1);
    assert node[..|node|] == node;
  }

  lemma SameSpelling(p: Path, q: Path)
    requires SlashFree(p) && SlashFree(q)
    ensures Render(p) == Render(q) <==> p == q
  {
    if Render(p) == Render(q) {
      RenderInjective(p, q);
    }
  }

  /** The spelled patterns mean what the rules say. */
  lemma SpellingIsFaithful(p: Path, node: Path)
    requires Canonical(p) && WildcardFree(p) && Canonical(node) && node != []
    ensures AnchoredMatch(Spell(p), node) <==> p == node
    ensures AnchoredMatch(Render(p) + "/*", node) <==> p == Parent(node)
  {
    StarPattern(Render(p), node);
    ParentSlashFree(node);
    SameSpelling(p, Parent(node));
    NeverBareSlash(node);
    SameSpelling(p, node);
    if p != [] {
      NoTrailingStar(p);
    }
    PlainPattern(Spell(p), node);
  }

  lemma ParentSlashFree(node: Path)
    requires Canonical(node) && node != []
    ensures SlashFree(Parent(node))
  {
    forall c | c in Parent(node) ensures '/' !in c {
      assert c in node;
    }
  }

  lemma NoTrailingStar(p: Path)
    requires Canonical(p) && WildcardFree(p) && p != []
    ensures |Render(p)| >= 2 && Render(p)[|Render(p)| - 1] != '*'
  {
    var c := p[|p| - 1];
    assert c in p;
    assert Render(p) == Render(Parent(p)) + "/" + c;
    assert Render(p)[|Render(p)| - 1] == c[|c| - 1];
    assert c[|c| - 1] in c;
  }

  // ---------------------------------------------------------------------
  // The walk over the command line's tokens

  /** How rsync matches a pattern with a node of the transfer. */
  type Matcher = Glob

  function Pattern(tok: string): string {
    if |tok| < 10 then "" else tok[10..]
  }

  predicate IsInclude(tok: string) {
    "--include=" <= tok
  }

  function FirstToken(tokens: seq<string>, node: Path, matches: Matcher): (i: nat)
    ensures i <= |tokens|
  {
    if tokens == [] || matches(Pattern(tokens[0]), node) then 0 else 1 + FirstToken(tokens[1..], node, matches)
  }

  predicate TokensKeep(tokens: seq<string>, node: Path, matches: Matcher) {
    var i := FirstToken(tokens, node, matches);
    i == |tokens| || IsInclude(tokens[i])
  }

  /** The transfer walks down from the root, decides by the first token whose pattern matches, and never enters what
      it has dropped. */
  predicate SurvivesTokens(tokens: seq<string>, p: Path, matches: Matcher) {
    p == [] || (SurvivesTokens(tokens, Parent(p), matches) && TokensKeep(tokens, p, matches))
  }

  /** Patterns that begin with a slash and have no wildcard but perhaps a last component `*` are matched as anchored
      ones; nothing is asked of other patterns. */
  ghost predicate MatchesAnchored(matches: Matcher) {
    forall p: Path, node: Path :: Canonical(p) && WildcardFree(p) && Canonical(node) && node != [] ==>
      && matches(Spell(p), node) == AnchoredMatch(Spell(p), node)
      && matches(Render(p) + "/*", node) == AnchoredMatch(Render(p) + "/*", node)
  }

  ghost predicate Literals(ps: seq<Path>) {
    forall p :: p in ps ==> Canonical(p) && WildcardFree(p)
  }

  lemma PrefixLiteral(p: Path, q: Path)
    requires Canonical(p) && WildcardFree(p) && q <= p
    ensures Canonical(q) && WildcardFree(q)
  {
    forall c | c in q ensures c in p {}
  }

  lemma RuleLiteral(ps: seq<Path>, r: Rule)
    requires Literals(ps) && r in Base(ps)
    ensures r.Include? ==> Canonical(r.path) && WildcardFree(r.path)
    ensures r.ExcludeChildren? ==> Canonical(r.dir) && WildcardFree(r.dir)
  {
    if r.Include? {
      InIncludes(ps, r.path);
      if r.path != [] {
        var p :| p in ps && r.path <= p;
        PrefixLiteral(p, r.path);
      }
    } else if r.ExcludeChildren? {
      InExcludes(ps, r.dir);
      var p :| p in ps && r.dir < p;
      PrefixLiteral(p, r.dir);
    }
  }

  function PatternText(r: Rule): string {
    match r
    case Include(p) => Spell(p)
    case ExcludeChildren(d) => Render(d) + "/*"
    case UserExclude(pat) => pat
  }

  lemma TokenParts(flag: string, text: string)
    requires |flag| == 10
    ensures Pattern(flag + text) == text && flag <= flag + text && (flag + text)[2] == flag[2]
  {
  }

  lemma PatternOf(r: Rule)
    ensures Pattern(Text(r)) == PatternText(r)
    ensures IsInclude(Text(r)) <==> r.Include?
  {
    hide Spell, Render, Pattern;
    TokenParts(if r.Include? then "--include=" else "--exclude=", PatternText(r));
    if r.ExcludeChildren? {
      RegroupText("--exclude=", Render(r.dir), "/*");
    }
    assert "--include="[2] != "--exclude="[2];
  }

  lemma RuleMatches(ps: seq<Path>, patterns: seq<string>, r: Rule, node: Path, matches: Matcher)
    requires Literals(ps) && MatchesAnchored(matches) && Canonical(node) && node != []
    requires r in Compile(ps, patterns)
    ensures matches(Pattern(Text(r)), node) <==> Matches(r, node, matches)
  {
    PatternOf(r);
    if !r.UserExclude? {
      assert r in Base(ps);
      RuleLiteral(ps, r);
      SpellingIsFaithful(if r.Include? then r.path else r.dir, node);
    }
  }

  lemma {:induction false} SameFirst(ps: seq<Path>, patterns: seq<string>, rules: seq<Rule>, node: Path,
                                     matches: Matcher)
    requires Literals(ps) && MatchesAnchored(matches) && Canonical(node) && node != []
    requires forall r :: r in rules ==> r in Compile(ps, patterns)
    ensures FirstToken(Texts(rules), node, matches) == FirstMatch(rules, node, matches)
    decreases |rules|
  {
    if rules != [] {
      assert rules[0] in rules;
      RuleMatches(ps, patterns, rules[0], node, matches);
      SameFirst(ps, patterns, rules[1..], node, matches);
      assert Texts(rules)[1..] == Texts(rules[1..]);
    }
  }

  lemma SameKept(ps: seq<Path>, patterns: seq<string>, node: Path, matches: Matcher)
    requires Literals(ps) && MatchesAnchored(matches) && Canonical(node) && node != []
    ensures TokensKeep(Texts(Compile(ps, patterns)), node, matches) <==> Kept(Compile(ps, patterns), node, matches)
  {
    var rules := Compile(ps, patterns);
    SameFirst(ps, patterns, rules, node, matches);
    var i := FirstMatch(rules, node, matches);
    if i < |rules| {
      PatternOf(rules[i]);
    }
  }

  lemma {:induction false} SameWalk(ps: seq<Path>, patterns: seq<string>, p: Path, matches: Matcher)
    requires Literals(ps) && MatchesAnchored(matches) && Canonical(p)
    ensures SurvivesTokens(Texts(Compile(ps, patterns)), p, matches) <==> Survives(Compile(ps, patterns), p, matches)
  {
    if p != [] {
      assert Canonical(Parent(p)) by {
        forall c | c in Parent(p) ensures c in p {}
      }
      SameWalk(ps, patterns, Parent(p), matches);
      SameKept(ps, patterns, p, matches);
    }
  }

  /** The tokens that are emitted, walked over as strings, select exactly the includes, their ancestors and what lies
      below an include that no other one narrows, less what the user excludes match outside the includes. */
  lemma TokensSelect(included: seq<string>, excluded: seq<string>, p: Path, matches: Matcher)
    requires Literals(Cleaned(included)) && MatchesAnchored(matches) && Canonical(p)
    ensures SurvivesTokens(Texts(Compile(Cleaned(included), excluded)), p, matches) <==>
            Selected(Cleaned(included), p) && !HitOffSpine(Cleaned(included), excluded, p, matches)
  {
    SameWalk(Cleaned(included), excluded, p, matches);
    UserExcludes(Cleaned(included), excluded, p, matches);
  }
}
