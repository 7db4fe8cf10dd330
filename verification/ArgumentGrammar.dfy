/** Which of the configured rsync arguments survive the blacklist. */
module ArgumentGrammar {
  import opened Options
  import opened Blacklist

  /** Which tokens are removed, and which of those remove the token after them as well. */
  datatype Policy = Policy(forbids: string -> bool, takesNext: string -> bool)

  const BLACKLISTED := Policy(Forbidden, TakesNext)

  /** Is token `i` the value of the flag before it? `pending` says so for token 0. */
  predicate IsOperand(policy: Policy, pending: bool, toks: seq<string>, i: nat)
    requires i <= |toks|
  {
    if i == 0 then pending
    else !IsOperand(policy, pending, toks, i - 1) && policy.takesNext(toks[i - 1])
  }

  predicate KeepsToken(policy: Policy, pending: bool, toks: seq<string>, i: nat)
    requires i < |toks|
  {
    !IsOperand(policy, pending, toks, i) && !policy.forbids(toks[i])
  }

  /** The kept tokens among the first `n`, in order. */
  function Allowed(policy: Policy, pending: bool, toks: seq<string>, n: nat): (kept: seq<string>)
    requires n <= |toks|
    ensures |kept| <= n
  {
    if n == 0 then []
    else Allowed(policy, pending, toks, n - 1)
         + (if KeepsToken(policy, pending, toks, n - 1) then [toks[n - 1]] else [])
  }

  function Sanitized(toks: seq<string>): seq<string> {
    Allowed(BLACKLISTED, false, toks, |toks|)
  }

  /** Where the kept tokens stood. */
  function KeptAt(policy: Policy, toks: seq<string>, n: nat): (at: seq<nat>)
    requires n <= |toks|
    ensures forall j :: 0 <= j < |at| ==> at[j] < n
    ensures forall i: nat :: i in at <==> i < n && KeepsToken(policy, false, toks, i)
    ensures forall j, k :: 0 <= j < k < |at| ==> at[j] < at[k]
  {
    if n == 0 then []
    else KeptAt(policy, toks, n - 1) + (if KeepsToken(policy, false, toks, n - 1) then [n - 1] else [])
  }

  /** The result is a subsequence in order: the tokens that are neither forbidden nor an operand. */
  lemma {:induction false} Subsequence(policy: Policy, toks: seq<string>, n: nat)
    requires n <= |toks|
    ensures var at, kept := KeptAt(policy, toks, n), Allowed(policy, false, toks, n);
            |at| == |kept| && forall j :: 0 <= j < |at| ==> kept[j] == toks[at[j]]
  {
    if n > 0 {
      Subsequence(policy, toks, n - 1);
    }
  }

  lemma {:induction false} AllowedAppend(policy: Policy, pending: bool, a: seq<string>, b: seq<string>, n: nat)
    requires n <= |b|
    ensures IsOperand(policy, pending, a + b, |a| + n) == IsOperand(policy, IsOperand(policy, pending, a, |a|), b, n)
    ensures Allowed(policy, pending, a + b, |a| + n) ==
            Allowed(policy, pending, a, |a|) + Allowed(policy, IsOperand(policy, pending, a, |a|), b, n)
  {
    if n == 0 {
      AllowedPrefix(policy, pending, a, b, |a|);
    } else {
      AllowedAppend(policy, pending, a, b, n - 1);
    }
  }

  lemma {:induction false} AllowedPrefix(policy: Policy, pending: bool, a: seq<string>, b: seq<string>, n: nat)
    requires n <= |a|
    ensures IsOperand(policy, pending, a + b, n) == IsOperand(policy, pending, a, n)
    ensures Allowed(policy, pending, a + b, n) == Allowed(policy, pending, a, n)
  {
    if n > 0 {
      AllowedPrefix(policy, pending, a, b, n - 1);
    }
  }

  lemma {:induction false} PendingDropsHead(policy: Policy, b: seq<string>, n: nat)
    requires 1 <= n <= |b|
    ensures IsOperand(policy, true, b, n) == IsOperand(policy, false, b[1..], n - 1)
    ensures Allowed(policy, true, b, n) == Allowed(policy, false, b[1..], n - 1)
  {
    if n > 1 {
      PendingDropsHead(policy, b, n - 1);
    } else {
      assert Allowed(policy, true, b, 0) == [];
    }
  }

  /** What is still owed after `a`: the rest of `b` without the token `a` swallows. */
  function AfterPending(policy: Policy, a: seq<string>, b: seq<string>): seq<string> {
    if IsOperand(policy, false, a, |a|) && b != [] then b[1..] else b
  }

  /** Concatenation is kept up to one operand that is still owed. */
  lemma SplitsOverConcat(policy: Policy, a: seq<string>, b: seq<string>)
    ensures Allowed(policy, false, a + b, |a + b|) ==
            var rest := AfterPending(policy, a, b);
            Allowed(policy, false, a, |a|) + Allowed(policy, false, rest, |rest|)
  {
    AllowedAppend(policy, false, a, b, |b|);
    if IsOperand(policy, false, a, |a|) && b != [] {
      PendingDropsHead(policy, b, |b|);
    }
  }

  lemma {:induction false} AllAllowed(policy: Policy, toks: seq<string>, n: nat)
    requires n <= |toks| && forall i :: 0 <= i < n ==> !policy.forbids(toks[i])
    requires forall tok :: policy.takesNext(tok) ==> policy.forbids(tok)
    ensures !IsOperand(policy, false, toks, n) && Allowed(policy, false, toks, n) == toks[..n]
  {
    if n > 0 {
      AllAllowed(policy, toks, n - 1);
    }
  }

  lemma {:induction false} NoneForbidden(policy: Policy, pending: bool, toks: seq<string>, n: nat)
    requires n <= |toks|
    ensures forall tok :: tok in Allowed(policy, pending, toks, n) ==> !policy.forbids(tok)
  {
    if n > 0 {
      NoneForbidden(policy, pending, toks, n - 1);
    }
  }

  lemma BlacklistedPolicy()
    ensures forall tok :: BLACKLISTED.takesNext(tok) ==> BLACKLISTED.forbids(tok)
    ensures forall tok :: BLACKLISTED.forbids(tok) == Forbidden(tok)
    ensures forall tok :: BLACKLISTED.takesNext(tok) == TakesNext(tok)
  {
    forall tok ensures BLACKLISTED.takesNext(tok) ==> BLACKLISTED.forbids(tok) {
      Table(tok);
    }
  }

  /** Sanitizing what is already sane changes nothing. */
  lemma Idempotent(toks: seq<string>)
    ensures Sanitized(Sanitized(toks)) == Sanitized(toks)
  {
    BlacklistedPolicy();
    NoneForbidden(BLACKLISTED, false, toks, |toks|);
    AllAllowed(BLACKLISTED, Sanitized(toks), |Sanitized(toks)|);
  }

  /** The token grammar: a forbidden flag, with its value if it wants one, or an allowed token. */
  function Grammar(table: seq<BlacklistArg>, toks: seq<string>): seq<string>
    decreases |toks|
  {
    if toks == [] then []
    else match Lookup(table, toks[0])
      case None => [toks[0]] + Grammar(table, toks[1..])
      case Some(n) => if 1 + n > |toks| then [] else Grammar(table, toks[1 + n..])
  }

  lemma AllowedFirst(policy: Policy, toks: seq<string>)
    requires toks != []
    ensures var rest := if policy.takesNext(toks[0]) && |toks| > 1 then toks[2..] else toks[1..];
            Allowed(policy, false, toks, |toks|) ==
            (if policy.forbids(toks[0]) then [] else [toks[0]]) + Allowed(policy, false, rest, |rest|)
  {
    var head := [toks[0]];
    assert toks == head + toks[1..];
    SplitsOverConcat(policy, head, toks[1..]);
    assert IsOperand(policy, false, head, 1) == policy.takesNext(toks[0]);
    assert Allowed(policy, false, head, 0) == [];
    assert |toks| > 1 ==> toks[1..][1..] == toks[2..];
  }

  /** The sanitized arguments obey the grammar, under any order of the table. */
  lemma RefinesGrammar(table: seq<BlacklistArg>, toks: seq<string>)
    requires forall flag :: flag in table <==> flag in BLACKLIST
    ensures Sanitized(toks) == Grammar(table, toks)
  {
    assert Implements(table, BLACKLISTED) by {
      BlacklistImplements();
      forall arg ensures Lookup(table, arg) == Lookup(BLACKLIST, arg) {
        TableOrder(table, arg);
      }
    }
    AllowedIsGrammar(table, BLACKLISTED, toks);
  }

  lemma {:induction false} AllowedIsGrammar(table: seq<BlacklistArg>, policy: Policy, toks: seq<string>)
    requires Implements(table, policy)
    ensures Allowed(policy, false, toks, |toks|) == Grammar(table, toks)
    decreases |toks|
  {
    if toks != [] {
      AllowedFirst(policy, toks);
      if policy.takesNext(toks[0]) && |toks| > 1 {
        AllowedIsGrammar(table, policy, toks[2..]);
      } else {
        AllowedIsGrammar(table, policy, toks[1..]);
      }
    }
  }

  /** The table decides every token as the policy says. */
  ghost predicate Implements(table: seq<BlacklistArg>, policy: Policy) {
    && (forall arg :: policy.takesNext(arg) ==> policy.forbids(arg))
    && (forall arg ::
          Lookup(table, arg) == if policy.takesNext(arg) then Some(1) else if policy.forbids(arg) then Some(0) else None)
  }

  lemma BlacklistImplements()
    ensures Implements(BLACKLIST, BLACKLISTED)
  {
    BlacklistedPolicy();
    forall arg ensures Lookup(BLACKLIST, arg) ==
      if TakesNext(arg) then Some(1) else if Forbidden(arg) then Some(0) else None
    {
      Table(arg);
    }
  }

  /** `kept` is the result for the tokens before `i`, and token `i`, if there is one, is no operand. */
  ghost predicate Scanned(policy: Policy, toks: seq<string>, i: nat, kept: seq<string>) {
    if i <= |toks| then kept == Allowed(policy, false, toks, i) && !IsOperand(policy, false, toks, i)
    else kept == Allowed(policy, false, toks, |toks|)
  }

  /** One turn of the loop over the tokens. */
  lemma ScanToken(policy: Policy, toks: seq<string>, i: nat, kept: seq<string>)
    requires i < |toks| && Scanned(policy, toks, i, kept)
    ensures !policy.takesNext(toks[i]) ==>
              Scanned(policy, toks, i + 1, if policy.forbids(toks[i]) then kept else kept + [toks[i]])
    ensures policy.takesNext(toks[i]) && policy.forbids(toks[i]) ==> Scanned(policy, toks, i + 2, kept)
  {
  }
}
