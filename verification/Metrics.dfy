/** Per-host metrics and the status derived from them. */
module Metrics {
  import opened Options
  import opened Schedule
  import opened Decimal

  const MILLISECOND := 1_000_000

  datatype MetricStatus = Unknown | Primed | Success | Failed | Running

  datatype View = View(
    hasJob: bool,
    scheduledAt: Time,
    startedAt: Time,
    succeededAt: Option<Time>,
    successDuration: int,
    failedAt: Option<Time>,
    failureDuration: int,
    usedBySnapshots: nat,
    usedByDataset: nat,
    usedByChildren: nat,
    usedByRefReservation: nat)

  const EMPTY := View(false, ZERO, ZERO, None, 0, None, 0, 0, 0, 0, 0)

  function Status(m: View): MetricStatus {
    var t0, tOK, tErr := m.startedAt, m.succeededAt, m.failedAt;
    if t0 == ZERO then Primed
    else if (tOK.None? || t0 > tOK.value) && (tErr.None? || t0 > tErr.value) then Running
    else if tOK.Some? && (tErr.None? || tOK.value > tErr.value) && !(tOK.value < t0) then Success
    else if tErr.Some? && (tOK.None? || tErr.value > tOK.value) && !(tErr.value < t0) then Failed
    else Unknown
  }

  predicate Before(result: Option<Time>, t: Time) {
    result.Some? ==> result.value < t
  }

  /** Each status on its own, without regard to the order of the tests. */
  lemma StatusMeaning(m: View)
    ensures Status(m) == Primed <==> m.startedAt == ZERO
    ensures Status(m) == Running <==>
            m.startedAt != ZERO && Before(m.succeededAt, m.startedAt) && Before(m.failedAt, m.startedAt)
    ensures Status(m) == Success <==>
            m.startedAt != ZERO && m.succeededAt.Some? && m.succeededAt.value >= m.startedAt
            && Before(m.failedAt, m.succeededAt.value)
    ensures Status(m) == Failed <==>
            m.startedAt != ZERO && m.failedAt.Some? && m.failedAt.value >= m.startedAt
            && Before(m.succeededAt, m.failedAt.value)
    ensures Status(m) == Unknown <==>
            m.startedAt != ZERO && m.succeededAt.Some? && m.succeededAt == m.failedAt
            && m.succeededAt.value >= m.startedAt
  {
  }

  // ---------------------------------------------------------------------
  // Events

  datatype Event =
    | Start(host: string, at: Time)
    | Result(host: string, success: bool, at: Time)

  /** `t.Sub(u)`: saturates at the ends of the 64-bit range. */
  function Sub(t: Time, u: Time): (d: int)
    ensures IsInt64(d)
  {
    if t - u >= TWO63 then TWO63 - 1 else if t - u < -TWO63 then -TWO63 else t - u
  }

  function Elapsed(m: View, t: Time): int {
    Truncate(Sub(t, m.startedAt), MILLISECOND)
  }

  function Finished(m: View, success: bool, t: Time): View {
    if success then m.(succeededAt := Some(t), successDuration := Elapsed(m, t))
    else m.(failedAt := Some(t), failureDuration := Elapsed(m, t))
  }

  type Hosts = map<string, View>

  function Apply(hosts: Hosts, e: Event): Hosts {
    match e
    case Start(h, t) => hosts[h := (if h in hosts then hosts[h] else EMPTY).(startedAt := t)]
    case Result(h, success, t) => if h in hosts then hosts[h := Finished(hosts[h], success, t)] else hosts
  }

  function Replay(hosts: Hosts, events: seq<Event>): Hosts {
    if events == [] then hosts
    else Apply(Replay(hosts, events[..|events| - 1]), events[|events| - 1])
  }

  /** The hosts with a backup under way. */
  function InFlight(events: seq<Event>): set<string> {
    if events == [] then {}
    else
      var before, e := InFlight(events[..|events| - 1]), events[|events| - 1];
      if e.Start? then before + {e.host} else before - {e.host}
  }

  /** What the last event of a host says its status is. */
  function LastOf(events: seq<Event>, h: string): Option<MetricStatus> {
    if events == [] then None
    else
      var e := events[|events| - 1];
      if e.host != h then LastOf(events[..|events| - 1], h)
      else if e.Start? then Some(Running)
      else Some(if e.success then Success else Failed)
  }

  /** One backup of a host at a time, each started strictly after the host's earlier results and finished
      not before it was started. */
  predicate Orderly(hosts: Hosts, events: seq<Event>) {
    events == [] ||
    (var before, e := events[..|events| - 1], events[|events| - 1];
     var now := Replay(hosts, before);
     && Orderly(hosts, before)
     && match e
        case Start(h, t) =>
          && h !in InFlight(before) && t != ZERO
          && (h in now ==> Before(now[h].succeededAt, t) && Before(now[h].failedAt, t))
        case Result(h, success, t) =>
          h in InFlight(before) && h in now && now[h].startedAt <= t)
  }

  /** When a single event leaves the status it stands for. */
  lemma StartShows(m: View, t: Time)
    ensures Status(m.(startedAt := t)) == Running <==>
            t != ZERO && Before(m.succeededAt, t) && Before(m.failedAt, t)
  {
  }

  lemma ResultShows(m: View, success: bool, t: Time)
    ensures Status(Finished(m, success, t)) == (if success then Success else Failed) <==>
            m.startedAt != ZERO && m.startedAt <= t && Before(if success then m.failedAt else m.succeededAt, t)
  {
  }

  /** A result records its own time and the time since the start, to the millisecond below, and leaves the
      record of the opposite result alone. */
  lemma ResultRecords(m: View, success: bool, t: Time) returns (ms: int)
    requires m.startedAt <= t && IsInt64(t - m.startedAt)
    ensures var m' := Finished(m, success, t);
            var duration := if success then m'.successDuration else m'.failureDuration;
            && (if success then m'.succeededAt == Some(t) else m'.failedAt == Some(t))
            && duration == ms * MILLISECOND && duration <= t - m.startedAt < duration + MILLISECOND
            && (if success then m'.failedAt == m.failedAt && m'.failureDuration == m.failureDuration
                else m'.succeededAt == m.succeededAt && m'.successDuration == m.successDuration)
            && m'.startedAt == m.startedAt
  {
    ms := Quo(t - m.startedAt, MILLISECOND);
  }

  /** A start makes a host known, with nothing but the start; a result of an unknown host changes nothing; and no event
      touches another host, a schedule, a job or a size. */
  lemma EventTouches(hosts: Hosts, e: Event, h: string)
    ensures var after := Apply(hosts, e);
            && (h in after <==> h in hosts || (e.Start? && h == e.host))
            && (h != e.host && h in hosts ==> after[h] == hosts[h])
    ensures e.Start? ==>
              var was := if e.host in hosts then hosts[e.host] else View(false, ZERO, ZERO, None, 0, None, 0, 0, 0, 0, 0);
              Apply(hosts, e)[e.host].startedAt == e.at && Apply(hosts, e)[e.host].(startedAt := was.startedAt) == was
    ensures e.Result? && e.host in hosts ==>
              var was, now := hosts[e.host], Apply(hosts, e)[e.host];
              && was.hasJob == now.hasJob && was.scheduledAt == now.scheduledAt && was.startedAt == now.startedAt
              && was.usedBySnapshots == now.usedBySnapshots && was.usedByDataset == now.usedByDataset
              && was.usedByChildren == now.usedByChildren && was.usedByRefReservation == now.usedByRefReservation
  {
  }

  /** A duration beyond the 64-bit range is the longest one there is, whole milliseconds of it. */
  lemma LongestDuration(m: View, success: bool, t: Time)
    ensures var m' := Finished(m, success, t);
            var duration := if success then m'.successDuration else m'.failureDuration;
            && (t - m.startedAt >= 9_223_372_036_854_775_807 ==> duration == 9_223_372_036_854_000_000)
            && (t - m.startedAt <= -9_223_372_036_854_775_808 ==> duration == -9_223_372_036_854_000_000)
  {
  }

  lemma {:induction false} RunningWhileInFlight(hosts: Hosts, events: seq<Event>, h: string)
    requires Orderly(hosts, events) && h in InFlight(events)
    ensures h in Replay(hosts, events) && Status(Replay(hosts, events)[h]) == Running
  {
    if events != [] && events[|events| - 1].host != h {
      RunningWhileInFlight(hosts, events[..|events| - 1], h);
    }
  }

  /** After every orderly run the status of each host names its last event; a host without one keeps all
      its metrics. */
  lemma {:induction false} StatusNamesLastEvent(hosts: Hosts, events: seq<Event>, h: string)
    requires Orderly(hosts, events)
    ensures LastOf(events, h).Some? ==>
              h in Replay(hosts, events) && Status(Replay(hosts, events)[h]) == LastOf(events, h).value
    ensures LastOf(events, h).None? ==>
              (h in Replay(hosts, events) <==> h in hosts) && (h in hosts ==> Replay(hosts, events)[h] == hosts[h])
  {
    if events != [] {
      var before, e := events[..|events| - 1], events[|events| - 1];
      if e.host != h {
        StatusNamesLastEvent(hosts, before, h);
      } else if e.Result? {
        RunningWhileInFlight(hosts, before, h);
        ResultShows(Replay(hosts, before)[h], e.success, e.at);
      }
    }
  }
}
