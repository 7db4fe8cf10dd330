/** Slash-separated paths: splitting, lexical cleaning and rendering. */
module Paths {

  /** A path below the transfer root, as its components; `[]` is the root itself. */
  type Path = seq<string>

  predicate SlashFree(parts: seq<string>) {
    forall c :: c in parts ==> '/' !in c
  }

  /** What `filepath.Clean` leaves: no empty, `.` or `..` component, no slash inside one. */
  predicate Canonical(p: Path) {
    forall c :: c in p ==> c != "" && c != "." && c != ".." && '/' !in c
  }

  function Parent(p: Path): Path
    requires p != []
  {
    p[..|p| - 1]
  }

  /** `strings.Split(s, "/")`. */
  function Split(s: string): (parts: seq<string>)
    ensures parts != [] && SlashFree(parts)
  {
    if s == "" then [""]
    else
      var rest := Split(s[1..]);
      if s[0] == '/' then [""] + rest else [[s[0]] + rest[0]] + rest[1..]
  }

  function Join(parts: seq<string>): string {
    if parts == [] then ""
    else if |parts| == 1 then parts[0]
    else parts[0] + "/" + Join(parts[1..])
  }

  lemma {:induction false} SplitUnprefixed(c: string, s: string)
    requires '/' !in c
    ensures Split(c + s)[0] == c + Split(s)[0] && Split(c + s)[1..] == Split(s)[1..]
  {
    if c == "" {
      assert c + s == s;
      assert c + Split(s)[0] == Split(s)[0];
    } else {
      SplitUnprefixed(c[1..], s);
      SplitStep(c[0], c[1..] + s);
      assert [c[0]] + (c[1..] + s) == c + s;
      assert [c[0]] + (c[1..] + Split(s)[0]) == c + Split(s)[0];
    }
  }

  /** Joining puts together exactly what splitting took apart. */
  lemma {:induction false} JoinSplit(s: string)
    ensures Join(Split(s)) == s
  {
    if s != "" {
      JoinSplit(s[1..]);
      var rest := Split(s[1..]);
      if s[0] == '/' {
        assert Split(s)[1..] == rest;
        assert Join(Split(s)) == "" + "/" + Join(rest);
      } else if |rest| == 1 {
        assert Join(Split(s)) == [s[0]] + rest[0];
      } else {
        assert Split(s)[1..] == rest[1..];
        assert Join(Split(s)) == [s[0]] + rest[0] + "/" + Join(rest[1..]);
      }
    }
  }

  lemma SplitStep(ch: char, rest: string)
    requires ch != '/'
    ensures Split([ch] + rest)[0] == [ch] + Split(rest)[0] && Split([ch] + rest)[1..] == Split(rest)[1..]
  {
    assert ([ch] + rest)[1..] == rest;
  }

  /** Splitting takes apart exactly what joining put together. */
  lemma {:induction false} SplitJoin(parts: seq<string>)
    requires parts != [] && SlashFree(parts)
    ensures Split(Join(parts)) == parts
  {
    if |parts| == 1 {
      SplitUnprefixed(parts[0], "");
      assert parts[0] + "" == parts[0];
    } else {
      SplitJoin(parts[1..]);
      var tail := "/" + Join(parts[1..]);
      assert tail[1..] == Join(parts[1..]);
      assert Split(tail) == [""] + parts[1..];
      SplitUnprefixed(parts[0], tail);
      assert Join(parts) == parts[0] + tail;
      assert parts[0] + Split(tail)[0] == parts[0];
    }
  }

  /** One component against the stack of the components kept so far. */
  function Push(stack: Path, c: string): Path {
    if c == "" || c == "." then stack
    else if c == ".." then (if stack == [] then [] else Parent(stack))
    else stack + [c]
  }

  function Resolve(stack: Path, parts: seq<string>): (p: Path)
    requires Canonical(stack) && SlashFree(parts)
    ensures Canonical(p)
    decreases |parts|
  {
    if parts == [] then stack else Resolve(Push(stack, parts[0]), parts[1..])
  }

  /** The components of `filepath.Clean("/" + x)`. */
  function CleanPath(x: string): (p: Path)
    ensures Canonical(p)
  {
    Resolve([], Split(x))
  }

  /** `filepath.Clean("/" + x)`. */
  function Clean(x: string): string {
    "/" + Join(CleanPath(x))
  }

  lemma {:induction false} ResolveCanonical(stack: Path, parts: Path)
    requires Canonical(stack) && Canonical(parts)
    ensures Resolve(stack, parts) == stack + parts
    decreases |parts|
  {
    if parts != [] {
      assert parts[0] in parts;
      forall c | c in stack + [parts[0]] || c in parts[1..] ensures c in stack || c in parts {}
      ResolveCanonical(stack + [parts[0]], parts[1..]);
      assert stack + [parts[0]] + parts[1..] == stack + parts;
    } else {
      assert stack + parts == stack;
    }
  }

  /** A canonical path is left alone, so every canonical path is reached and cleaning twice is cleaning once. */
  lemma CleanFixesCanonical(p: Path)
    requires Canonical(p)
    ensures CleanPath(Join(p)) == p
    ensures CleanPath("/" + Join(p)) == p
  {
    var slashed := "/" + Join(p);
    assert slashed[1..] == Join(p);
    if p == [] {
      assert Resolve([], [""]) == [];
      assert Split(slashed) == ["", ""];
      assert Resolve([], ["", ""]) == Resolve([], [""]);
    } else {
      SplitJoin(p);
      ResolveCanonical([], p);
      assert Split(slashed) == [""] + p;
      assert Resolve([], [""] + p) == Resolve([], ([""] + p)[1..]);
    }
  }

  // ---------------------------------------------------------------------
  // What cleaning means, without the stack

  predicate Ordinary(c: string) {
    c != "" && c != "." && c != ".." && '/' !in c
  }

  lemma {:induction false} ResolveAppend(stack: Path, a: seq<string>, b: seq<string>)
    requires Canonical(stack) && SlashFree(a) && SlashFree(b) && SlashFree(a + b)
    ensures Resolve(stack, a + b) == Resolve(Resolve(stack, a), b)
    decreases |a|
  {
    if a == [] {
      assert a + b == b;
    } else {
      assert (a + b)[1..] == a[1..] + b;
      assert a[0] in a && SlashFree(a[1..] + b) by { forall c | c in a[1..] + b ensures c in a || c in b {} }
      ResolveAppend(Push(stack, a[0]), a[1..], b);
    }
  }

  lemma CleanParts(parts: seq<string>)
    requires SlashFree(parts)
    ensures CleanPath(Join(parts)) == Resolve([], parts)
  {
    if parts == [] {
      assert Split("") == [""];
      assert Resolve([], [""]) == Resolve(Push([], ""), [""][1..]);
    } else {
      SplitJoin(parts);
    }
  }

  /** Parts in the middle that leave every stack as it is can be left out. */
  lemma LeaveOut(a: seq<string>, mid: seq<string>, b: seq<string>)
    requires SlashFree(a) && SlashFree(mid) && SlashFree(b)
    requires Resolve(Resolve([], a), mid) == Resolve([], a)
    ensures CleanPath(Join(a + mid + b)) == CleanPath(Join(a + b))
  {
    forall c | c in a + mid || c in a + mid + b || c in a + b ensures c in a || c in mid || c in b {}
    CleanParts(a + mid + b);
    CleanParts(a + b);
    ResolveAppend([], a + mid, b);
    ResolveAppend([], a, mid);
    ResolveAppend([], a, b);
  }

  /** An empty part, as a doubled, leading or trailing slash makes one, can be left out anywhere, and so can a `.`. */
  lemma CleanIgnores(a: seq<string>, c: string, b: seq<string>)
    requires SlashFree(a) && SlashFree(b) && (c == "" || c == ".")
    ensures CleanPath(Join(a + [c] + b)) == CleanPath(Join(a + b))
  {
    var stack := Resolve([], a);
    assert [c][1..] == [];
    assert Resolve(Push(stack, c), []) == stack;
    LeaveOut(a, [c], b);
  }

  /** A name followed by `..` can be left out anywhere. */
  lemma CleanCancels(a: seq<string>, c: string, b: seq<string>)
    requires SlashFree(a) && SlashFree(b) && Ordinary(c)
    ensures CleanPath(Join(a + [c, ".."] + b)) == CleanPath(Join(a + b))
  {
    var stack, mid := Resolve([], a), [c, ".."];
    assert mid[1..] == [".."] && [".."][1..] == [];
    assert Push(stack, c) == stack + [c] && Push(stack + [c], "..") == stack;
    assert Canonical(stack + [c]);
    assert Resolve(stack, mid) == Resolve(stack + [c], [".."]) == Resolve(stack, []) == stack;
    LeaveOut(a, mid, b);
  }

  lemma UpFromRoot()
    ensures Resolve(Resolve([], []), [".."]) == Resolve([], [])
  {
    assert [".."][1..] == [] && Push([], "..") == [];
  }

  /** There is nothing above the root. */
  lemma CleanStartsAtRoot(b: seq<string>)
    requires SlashFree(b)
    ensures CleanPath(Join([".."] + b)) == CleanPath(Join(b))
  {
    UpFromRoot();
    hide CleanPath, Join, Resolve;
    LeaveOut([], [".."], b);
    assert [] + [".."] + b == [".."] + b && [] + b == b;
  }

  /** The laws of cleaning: what can be left out, and that nothing else is touched. */
  ghost predicate CleansLike(clean: string -> Path) {
    && (forall p: Path :: Canonical(p) ==> clean(Join(p)) == p)
    && (forall a: seq<string>, c: string, b: seq<string> :: SlashFree(a) && SlashFree(b) && (c == "" || c == ".") ==>
          clean(Join(a + [c] + b)) == clean(Join(a + b)))
    && (forall a: seq<string>, c: string, b: seq<string> :: SlashFree(a) && SlashFree(b) && Ordinary(c) ==>
          clean(Join(a + [c, ".."] + b)) == clean(Join(a + b)))
    && (forall b: seq<string> :: SlashFree(b) ==> clean(Join([".."] + b)) == clean(Join(b)))
  }

  lemma LawIgnores(clean: string -> Path, a: seq<string>, c: string, b: seq<string>)
    requires CleansLike(clean) && SlashFree(a) && SlashFree(b) && (c == "" || c == ".")
    ensures clean(Join(a + [c] + b)) == clean(Join(a + b))
  {
  }

  lemma LawCancels(clean: string -> Path, a: seq<string>, c: string, b: seq<string>)
    requires CleansLike(clean) && SlashFree(a) && SlashFree(b) && Ordinary(c)
    ensures clean(Join(a + [c, ".."] + b)) == clean(Join(a + b))
  {
  }

  lemma LawStartsAtRoot(clean: string -> Path, b: seq<string>)
    requires CleansLike(clean) && SlashFree(b)
    ensures clean(Join([".."] + b)) == clean(Join(b))
  {
  }

  lemma {:induction false} CleansAsResolve(clean: string -> Path, stack: Path, parts: seq<string>)
    requires CleansLike(clean) && Canonical(stack) && SlashFree(parts)
    ensures clean(Join(stack + parts)) == Resolve(stack, parts)
    decreases |parts|
  {
    if parts == [] {
      assert stack + parts == stack;
    } else {
      hide CleansLike;
      var c, rest := parts[0], parts[1..];
      OnePart(stack, parts);
      CleansAsResolve(clean, Push(stack, c), rest);
      if c == "" || c == "." {
        LawIgnores(clean, stack, c, rest);
      } else if c == ".." && stack == [] {
        LawStartsAtRoot(clean, rest);
      } else if c == ".." {
        LawCancels(clean, Parent(stack), stack[|stack| - 1], rest);
      }
    }
  }

  /** The first part, as it stands to the stack. */
  lemma OnePart(stack: Path, parts: seq<string>)
    requires parts != [] && Canonical(stack) && SlashFree(parts)
    ensures var c, rest := parts[0], parts[1..];
            && SlashFree(stack) && SlashFree(rest) && Canonical(Push(stack, c)) && stack + parts == stack + [c] + rest
            && (stack == [] ==> stack + parts == [c] + rest && stack + rest == rest)
            && (stack != [] ==>
                  && Ordinary(stack[|stack| - 1]) && SlashFree(Parent(stack))
                  && (c == ".." ==> stack + parts == Parent(stack) + [stack[|stack| - 1], ".."] + rest))
  {
    assert parts[0] in parts;
    forall d | d in parts[1..] ensures d in parts {}
    if stack != [] {
      assert stack[|stack| - 1] in stack;
      forall d | d in Parent(stack) ensures d in stack {}
    }
  }

  /** `CleanPath` obeys these laws, and is the only function that does. */
  lemma CleanIsUnique(clean: string -> Path)
    ensures CleansLike(clean) <==> forall x :: clean(x) == CleanPath(x)
  {
    if CleansLike(clean) {
      forall x ensures clean(x) == CleanPath(x) {
        JoinSplit(x);
        CleansAsResolve(clean, [], Split(x));
        assert [] + Split(x) == Split(x);
      }
    }
    if forall x :: clean(x) == CleanPath(x) {
      CleanPathCleans(clean);
    }
  }

  lemma CleanPathCleans(clean: string -> Path)
    requires forall x :: clean(x) == CleanPath(x)
    ensures CleansLike(clean)
  {
    forall p: Path | Canonical(p) ensures clean(Join(p)) == p {
      CleanFixesCanonical(p);
    }
    forall a: seq<string>, c: string, b: seq<string> | SlashFree(a) && SlashFree(b) && (c == "" || c == ".")
      ensures clean(Join(a + [c] + b)) == clean(Join(a + b))
    {
      CleanIgnores(a, c, b);
    }
    forall a: seq<string>, c: string, b: seq<string> | SlashFree(a) && SlashFree(b) && Ordinary(c)
      ensures clean(Join(a + [c, ".."] + b)) == clean(Join(a + b))
    {
      CleanCancels(a, c, b);
    }
    forall b: seq<string> | SlashFree(b) ensures clean(Join([".."] + b)) == clean(Join(b)) {
      CleanStartsAtRoot(b);
    }
  }

  /** Every component preceded by a slash: how the filter compiler spells a path. */
  function Render(p: Path): string {
    if p == [] then "" else Render(Parent(p)) + "/" + p[|p| - 1]
  }

  lemma {:induction false} RenderJoin(p: Path)
    requires p != []
    ensures Render(p) == "/" + Join(p)
  {
    if |p| == 1 {
      assert Parent(p) == [];
      assert Render(p) == "" + "/" + p[0];
    } else {
      RenderJoin(Parent(p));
      JoinLast(p);
    }
  }

  lemma {:induction false} JoinLast(p: Path)
    requires |p| > 1
    ensures Join(p) == Join(Parent(p)) + "/" + p[|p| - 1]
  {
    if |p| == 2 {
      assert Join(p[1..]) == p[1];
      assert Join(Parent(p)) == p[0];
    } else {
      JoinLast(p[1..]);
      assert Parent(p[1..]) == Parent(p)[1..];
    }
  }

  /** Distinct paths have distinct spellings. */
  lemma RenderInjective(p: Path, q: Path)
    requires SlashFree(p) && SlashFree(q)
    requires Render(p) == Render(q)
    ensures p == q
  {
    if p != [] && q != [] {
      RenderJoin(p);
      RenderJoin(q);
      assert Render(p)[1..] == Join(p) && Render(q)[1..] == Join(q);
      SplitJoin(p);
      SplitJoin(q);
    }
  }
}
