/** Go slices, which may share a backing array, and what appending to one shared slice many times leaves in it. */
module Slices {

  datatype Slice = Slice(arr: array<string>, len: nat) {
    predicate Valid() {
      len <= arr.Length
    }

    /** Room behind the slice in its backing array. */
    function Spare(): nat
      requires Valid()
    {
      arr.Length - len
    }

    ghost function Contents(): seq<string>
      requires Valid()
      reads arr
    {
      arr[..len]
    }

    /** What stands in that room. */
    ghost function Behind(): (room: seq<string>)
      requires Valid()
      reads arr
      ensures |room| == Spare()
    {
      arr[len..]
    }
  }

  /** `append(s, xs...)`: in place when there is room, else into a new and larger array. */
  method Append(s: Slice, xs: seq<string>, extra: nat) returns (r: Slice)
    requires s.Valid()
    modifies s.arr
    ensures Appended(r, s, old(s.Contents()), old(s.Behind()), xs)
    ensures r.arr == s.arr || fresh(r.arr)
  {
    var target := s.arr;
    if |xs| > s.Spare() {
      target := new string[s.len + |xs| + extra](i requires 0 <= i reads s.arr => if i < s.len then s.arr[i] else "");
    }
    for i := 0 to |xs|
      invariant fresh(target) || target == s.arr
      invariant target != s.arr ==> unchanged(s.arr)
      invariant forall j :: 0 <= j < s.len ==> target[j] == old(s.arr[j])
      invariant forall j :: 0 <= j < i ==> target[s.len + j] == xs[j]
      invariant target == s.arr ==> forall j :: s.len + i <= j < s.arr.Length ==> s.arr[j] == old(s.arr[j])
    {
      target[s.len + i] := xs[i];
    }
    r := Slice(target, s.len + |xs|);
    assert r.Contents() == old(s.Contents()) + xs;
  }

  /** The result of appending `xs` to the slice `s` when it held `lines`, with `room` behind them: the lines and `xs`,
      in place if `xs` fits the room, which then holds `xs` and what was behind it. */
  ghost predicate Appended(r: Slice, s: Slice, lines: seq<string>, room: seq<string>, xs: seq<string>)
    requires s.Valid()
    reads r.arr, s.arr
  {
    && Placed(r, s, lines, xs)
    && r.Contents() == lines + xs && s.Contents() == lines && |s.Behind()| == |room|
    && s.Behind() == (if Fits(xs, |room|) then xs + room[|xs|..] else room)
  }

  /** A stretch of the shared array if the lines appended fit there, else an array of its own with the right lines. */
  ghost predicate Placed(r: Slice, s: Slice, lines: seq<string>, xs: seq<string>)
    requires s.Valid()
    reads Own(r, s)
  {
    && r.Valid() && r.len == s.len + |xs|
    && if Fits(xs, s.Spare()) then r.arr == s.arr else r.arr != s.arr && r.Contents() == lines + xs
  }

  /** The array of `r`, unless it is shared with `s`. */
  ghost function Own(r: Slice, s: Slice): set<array<string>> {
    if r.arr == s.arr then {} else {r.arr}
  }

  predicate Fits(xs: seq<string>, room: nat) {
    |xs| <= room
  }

  /** What stands behind the shared slice after the first `n` appends: each list that fits has been written over it. */
  function Overlay(room: seq<string>, own: seq<seq<string>>, n: nat): (r: seq<string>)
    requires n <= |own|
    ensures |r| == |room|
  {
    if n == 0 then room
    else
      var before, xs := Overlay(room, own, n - 1), own[n - 1];
      if Fits(xs, |room|) then xs + before[|xs|..] else before
  }

  /** What the `i`-th result holds in the end. */
  function Final(lines: seq<string>, room: seq<string>, own: seq<seq<string>>, i: nat): seq<string>
    requires i < |own|
  {
    lines + if Fits(own[i], |room|) then Overlay(room, own, |own|)[..|own[i]|] else own[i]
  }

  lemma PlacedFinal(r: Slice, s: Slice, lines: seq<string>, room: seq<string>, own: seq<seq<string>>, i: nat)
    requires s.Valid() && i < |own| && Placed(r, s, lines, own[i])
    requires s.Contents() == lines && s.Behind() == Overlay(room, own, |own|)
    ensures r.Contents() == Final(lines, room, own, i)
  {
    if Fits(own[i], |room|) {
      assert s.arr[..] == s.Contents() + s.Behind();
      assert r.Contents() == s.arr[..][..s.len + |own[i]|];
    }
  }

  // ---------------------------------------------------------------------
  // When every result keeps its own lines

  predicate Compatible(xs: seq<string>, ys: seq<string>) {
    xs <= ys || ys <= xs
  }

  /** The lists that fit into the room are all beginnings of one another. */
  predicate Unmixed(room: nat, own: seq<seq<string>>) {
    forall i, j :: 0 <= i < |own| && 0 <= j < |own| && Fits(own[i], room) && Fits(own[j], room) ==>
      Compatible(own[i], own[j])
  }

  lemma {:induction false} OverlayKeeps(room: seq<string>, own: seq<seq<string>>, n: nat, i: nat)
    requires i < n <= |own| && Fits(own[i], |room|)
    requires forall j :: 0 <= j < n && Fits(own[j], |room|) ==> Compatible(own[i], own[j])
    ensures own[i] <= Overlay(room, own, n)
  {
    if i < n - 1 {
      OverlayKeeps(room, own, n - 1, i);
      var xs := own[n - 1];
      if Fits(xs, |room|) && own[i] <= xs {
        assert own[i] <= xs + Overlay(room, own, n - 1)[|xs|..];
      }
    }
  }

  lemma FinalKeepsOwn(lines: seq<string>, room: seq<string>, own: seq<seq<string>>, i: nat)
    requires i < |own|
    ensures Final(lines, room, own, i) == lines + own[i] <==>
            (Fits(own[i], |room|) ==> Overlay(room, own, |own|)[..|own[i]|] == own[i])
  {
    var f := Final(lines, room, own, i);
    assert f[..|lines|] == lines;
    assert f[|lines|..] == if Fits(own[i], |room|) then Overlay(room, own, |own|)[..|own[i]|] else own[i];
    assert (lines + own[i])[|lines|..] == own[i];
  }

  /** Every result ends up with the shared lines followed by its own exactly when the lists that fit into the
      room behind the shared ones are all beginnings of one another. */
  lemma OwnLinesKept(lines: seq<string>, room: seq<string>, own: seq<seq<string>>)
    ensures (forall i :: 0 <= i < |own| ==> Final(lines, room, own, i) == lines + own[i]) <==> Unmixed(|room|, own)
  {
    var last := Overlay(room, own, |own|);
    forall i | 0 <= i < |own| ensures Final(lines, room, own, i) == lines + own[i] <==>
                                      (Fits(own[i], |room|) ==> last[..|own[i]|] == own[i])
    {
      FinalKeepsOwn(lines, room, own, i);
    }
    if Unmixed(|room|, own) {
      forall i | 0 <= i < |own| && Fits(own[i], |room|) ensures last[..|own[i]|] == own[i] {
        OverlayKeeps(room, own, |own|, i);
      }
    }
    if forall i :: 0 <= i < |own| ==> Final(lines, room, own, i) == lines + own[i] {
      KeptIsUnmixed(room, own);
    }
  }

  lemma KeptIsUnmixed(room: seq<string>, own: seq<seq<string>>)
    requires forall i :: 0 <= i < |own| && Fits(own[i], |room|) ==> Overlay(room, own, |own|)[..|own[i]|] == own[i]
    ensures Unmixed(|room|, own)
  {
    var last := Overlay(room, own, |own|);
    forall i, j | 0 <= i < |own| && 0 <= j < |own| && Fits(own[i], |room|) && Fits(own[j], |room|)
      ensures Compatible(own[i], own[j])
    {
      if |own[i]| <= |own[j]| {
        assert own[i] == last[..|own[j]|][..|own[i]|];
      } else {
        assert own[j] == last[..|own[i]|][..|own[j]|];
      }
    }
  }

  /** Three lines appended one at a time leave a slice of capacity four, and that one spare place is enough
      for the last line appended to replace the first. */
  lemma SpareRoomMixes(lines: seq<string>)
    ensures var own := [["first"], ["last"]];
            !Unmixed(1, own) && Final(lines, [""], own, 0) == lines + ["last"]
  {
    var own := [["first"], ["last"]];
    assert Overlay([""], own, 2) == own[1] + Overlay([""], own, 1)[1..];
    assert Overlay([""], own, 2)[..1] == own[1];
    assert own[0][0] != own[1][0] by { assert own[0][0][0] != own[1][0][0]; }
    assert Fits(own[0], 1) && Fits(own[1], 1) && !Compatible(own[0], own[1]);
  }
}
