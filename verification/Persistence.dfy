/** The copy of the metrics kept in ZFS properties: whole seconds, milliseconds, decimal text. */
module Persistence {
  import opened Options
  import opened Schedule
  import opened Decimal
  import opened Metrics

  type Props = map<string, string>

  const LAST_START := "de.digineo.zackup:last_start"
  const S_DATE := "de.digineo.zackup:s_date"
  const S_DURATION := "de.digineo.zackup:s_duration"
  const F_DATE := "de.digineo.zackup:f_date"
  const F_DURATION := "de.digineo.zackup:f_duration"
  const USED_BY_SNAPSHOTS := "usedbysnapshots"
  const USED_BY_DATASET := "usedbydataset"
  const USED_BY_CHILDREN := "usedbychildren"
  const USED_BY_REF_RESERVATION := "usedbyrefreservation"

  /** The decoded properties, one per entry of the decoder table. */
  datatype Prop = LastStart | SDate | SDuration | FDate | FDuration
                | UsedBySnapshots | UsedByDataset | UsedByChildren | UsedByRefReservation

  function PropName(p: Prop): string {
    match p
    case LastStart => LAST_START
    case SDate => S_DATE
    case SDuration => S_DURATION
    case FDate => F_DATE
    case FDuration => F_DURATION
    case UsedBySnapshots => USED_BY_SNAPSHOTS
    case UsedByDataset => USED_BY_DATASET
    case UsedByChildren => USED_BY_CHILDREN
    case UsedByRefReservation => USED_BY_REF_RESERVATION
  }

  predicate IsSize(p: Prop) {
    p.UsedBySnapshots? || p.UsedByDataset? || p.UsedByChildren? || p.UsedByRefReservation?
  }

  /** The number a property value stands for, if it is a valid one. */
  function ParseProp(p: Prop, value: string): Option<int> {
    if IsSize(p) then
      match ParseUint(value)
      case None => None
      case Some(n) => Some(n)
    else ParseInt(value)
  }

  /** What the decoder stores in its field: seconds and milliseconds become nanoseconds. */
  function Scale(p: Prop, n: int): int {
    match p
    case LastStart => n * SECOND
    case SDate => n * SECOND
    case FDate => n * SECOND
    case SDuration => Wrap64(n * MILLISECOND)
    case FDuration => Wrap64(n * MILLISECOND)
    case _ => n
  }

  function Get(m: View, p: Prop): Option<int> {
    match p
    case LastStart => Some(m.startedAt)
    case SDate => m.succeededAt
    case SDuration => Some(m.successDuration)
    case FDate => m.failedAt
    case FDuration => Some(m.failureDuration)
    case UsedBySnapshots => Some(m.usedBySnapshots)
    case UsedByDataset => Some(m.usedByDataset)
    case UsedByChildren => Some(m.usedByChildren)
    case UsedByRefReservation => Some(m.usedByRefReservation)
  }

  function Set(m: View, p: Prop, n: int): View
    requires IsSize(p) ==> n >= 0
  {
    match p
    case LastStart => m.(startedAt := Scale(p, n))
    case SDate => m.(succeededAt := Some(Scale(p, n)))
    case SDuration => m.(successDuration := Scale(p, n))
    case FDate => m.(failedAt := Some(Scale(p, n)))
    case FDuration => m.(failureDuration := Scale(p, n))
    case UsedBySnapshots => m.(usedBySnapshots := n)
    case UsedByDataset => m.(usedByDataset := n)
    case UsedByChildren => m.(usedByChildren := n)
    case UsedByRefReservation => m.(usedByRefReservation := n)
  }

  lemma GetSet(m: View, p: Prop, n: int, q: Prop)
    requires IsSize(p) ==> n >= 0
    ensures Get(Set(m, p, n), q) == if p == q then Some(Scale(p, n)) else Get(m, q)
    ensures Set(m, p, n).hasJob == m.hasJob && Set(m, p, n).scheduledAt == m.scheduledAt
  {
  }

  lemma SameFields(m: View, m': View)
    requires m.hasJob == m'.hasJob && m.scheduledAt == m'.scheduledAt
    requires forall p: Prop :: Get(m, p) == Get(m', p)
    ensures m == m'
  {
    assert Get(m, LastStart) == Get(m', LastStart) && Get(m, SDate) == Get(m', SDate);
    assert Get(m, SDuration) == Get(m', SDuration) && Get(m, FDate) == Get(m', FDate);
    assert Get(m, FDuration) == Get(m', FDuration) && Get(m, UsedBySnapshots) == Get(m', UsedBySnapshots);
    assert Get(m, UsedByDataset) == Get(m', UsedByDataset) && Get(m, UsedByChildren) == Get(m', UsedByChildren);
    assert Get(m, UsedByRefReservation) == Get(m', UsedByRefReservation);
  }

  // ---------------------------------------------------------------------
  // Loading

  /** `strings.FieldsFunc(line, isTab)`: the maximal runs without a tab. */
  function Columns(line: string): seq<string>
    decreases |line|
  {
    if line == "" then []
    else if line[0] == '\t' then Columns(line[1..])
    else
      var n := RunLength(line);
      [line[..n]] + Columns(line[n..])
  }

  function RunLength(line: string): (n: nat)
    ensures n <= |line| && '\t' !in line[..n]
    ensures n < |line| ==> line[n] == '\t'
  {
    if line == "" || line[0] == '\t' then 0 else 1 + RunLength(line[1..])
  }

  /** The entry of the decoder table for a property name. */
  function Decoder(name: string): Option<Prop> {
    if name == LAST_START then Some(LastStart)
    else if name == S_DATE then Some(SDate)
    else if name == S_DURATION then Some(SDuration)
    else if name == F_DATE then Some(FDate)
    else if name == F_DURATION then Some(FDuration)
    else if name == USED_BY_SNAPSHOTS then Some(UsedBySnapshots)
    else if name == USED_BY_DATASET then Some(UsedByDataset)
    else if name == USED_BY_CHILDREN then Some(UsedByChildren)
    else if name == USED_BY_REF_RESERVATION then Some(UsedByRefReservation)
    else None
  }

  lemma DecoderNames(p: Prop)
    ensures Decoder(PropName(p)) == Some(p)
  {
    assert |LAST_START| == 28 && |S_DATE| == 24 && |S_DURATION| == 28 && |F_DATE| == 24 && |F_DURATION| == 28;
    assert LAST_START[18] == 'l' && S_DURATION[18] == 's' && F_DURATION[18] == 'f';
    assert S_DATE[18] == 's' && F_DATE[18] == 'f';
    assert |USED_BY_SNAPSHOTS| == 15 && |USED_BY_DATASET| == 13;
    assert |USED_BY_CHILDREN| == 14 && |USED_BY_REF_RESERVATION| == 20;
  }

  /** A line that sets property `p` of `dataset`, and the number it sets. */
  function Setting(dataset: string, p: Prop, line: string): Option<int> {
    var cols := Columns(line);
    if |cols| == 3 && cols[0] == dataset && cols[2] != "-" && Decoder(cols[1]) == Some(p)
    then ParseProp(p, cols[2]) else None
  }

  /** A decoder leaves its field alone when the value is invalid. */
  function Decoded(m: View, p: Prop, value: string): View {
    match ParseProp(p, value)
    case None => m
    case Some(n) => Set(m, p, n)
  }

  function LoadLine(m: View, dataset: string, line: string): View {
    var cols := Columns(line);
    if |cols| != 3 || cols[0] != dataset || cols[2] == "-" then m
    else match Decoder(cols[1])
      case None => m
      case Some(p) => Decoded(m, p, cols[2])
  }

  function LoadLines(m: View, dataset: string, lines: seq<string>): View {
    if lines == [] then m
    else LoadLine(LoadLines(m, dataset, lines[..|lines| - 1]), dataset, lines[|lines| - 1])
  }

  /** The numbers that lines set for one property, in order. */
  function Settings(dataset: string, p: Prop, lines: seq<string>): seq<int> {
    if lines == [] then []
    else
      Settings(dataset, p, lines[..|lines| - 1])
      + match Setting(dataset, p, lines[|lines| - 1]) { case None => [] case Some(n) => [n] }
  }

  /** Loading leaves in every field the last valid line for it, and what was there without one. */
  lemma {:induction false} LastLineWins(m: View, dataset: string, lines: seq<string>, p: Prop)
    ensures var set_ := Settings(dataset, p, lines);
            Get(LoadLines(m, dataset, lines), p) ==
            if set_ == [] then Get(m, p) else Some(Scale(p, set_[|set_| - 1]))
    ensures LoadLines(m, dataset, lines).hasJob == m.hasJob
    ensures LoadLines(m, dataset, lines).scheduledAt == m.scheduledAt
  {
    if lines != [] {
      var before, line := lines[..|lines| - 1], lines[|lines| - 1];
      LastLineWins(m, dataset, before, p);
      var cols := Columns(line);
      if |cols| == 3 && cols[0] == dataset && cols[2] != "-" && Decoder(cols[1]).Some? {
        var q := Decoder(cols[1]).value;
        if ParseProp(q, cols[2]).Some? {
          GetSet(LoadLines(m, dataset, before), q, ParseProp(q, cols[2]).value, p);
        }
      }
    }
  }

  lemma SameLastLine(m: View, dataset: string, lines: seq<string>, other: seq<string>, p: Prop)
    requires Settings(dataset, p, lines) == Settings(dataset, p, other)
    ensures Get(LoadLines(m, dataset, lines), p) == Get(LoadLines(m, dataset, other), p)
    ensures LoadLines(m, dataset, lines).hasJob == LoadLines(m, dataset, other).hasJob
    ensures LoadLines(m, dataset, lines).scheduledAt == LoadLines(m, dataset, other).scheduledAt
  {
    LastLineWins(m, dataset, lines, p);
    LastLineWins(m, dataset, other, p);
  }

  /** Only the order of valid lines for the same property matters. */
  lemma LinesCommute(m: View, dataset: string, lines: seq<string>, other: seq<string>)
    requires forall p: Prop :: Settings(dataset, p, lines) == Settings(dataset, p, other)
    ensures LoadLines(m, dataset, lines) == LoadLines(m, dataset, other)
  {
    forall p: Prop ensures Get(LoadLines(m, dataset, lines), p) == Get(LoadLines(m, dataset, other), p) {
      SameLastLine(m, dataset, lines, other, p);
    }
    SameLastLine(m, dataset, lines, other, LastStart);
    SameFields(LoadLines(m, dataset, lines), LoadLines(m, dataset, other));
  }
}
