/** When the backups of one host come one at a time. */
module Overlap {
  import opened Options
  import opened Schedule
  import opened Metrics
  import opened Restart
  import opened Scheduler
  import opened HostRuns

  /** Jobs of the host that wait in the queue, and backups of it that are under way. */
  datatype Backlog = Backlog(waiting: int, underWay: int) {
    function Total(): int {
      waiting + underWay
    }
  }

  /** A restart loses the queue and the workers. */
  function StepLoad(load: Backlog, m: View, step: HostStep): Backlog {
    match step
    case Polling(tick) => if Due(m, tick) then load.(waiting := load.waiting + 1) else load
    case Starting(_) => Backlog(load.waiting - 1, load.underWay + 1)
    case Ending(_, _) => load.(underWay := load.underWay - 1)
    case Dropping => load.(waiting := load.waiting - 1)
    case Restarting(_, _, _, _) => Backlog(0, 0)
  }

  function LoadAfter(m: View, steps: seq<HostStep>): Backlog {
    if steps == [] then Backlog(0, 0)
    else
      var front, last := steps[..|steps| - 1], steps[|steps| - 1];
      StepLoad(LoadAfter(m, front), MetricsAfter(m, front), last)
  }

  /** What workers do: they take a job that waits, and end a backup that is under way. And what their clock says:
      a start comes strictly after all earlier results, and a result not before the start. */
  predicate WorkerStep(load: Backlog, m: View, step: HostStep) {
    match step
    case Starting(t) => load.waiting > 0 && t != ZERO && Before(m.succeededAt, t) && Before(m.failedAt, t)
    case Ending(_, t) => load.underWay > 0 && m.startedAt <= t
    case Dropping => load.waiting > 0
    case _ => true
  }

  predicate Worked(m: View, steps: seq<HostStep>) {
    steps == [] ||
    (var front, last := steps[..|steps| - 1], steps[|steps| - 1];
     Worked(m, front) && WorkerStep(LoadAfter(m, front), MetricsAfter(m, front), last))
  }

  /** Whenever a poll finds the host due, no earlier job of it still waits in the queue. */
  predicate TakenBeforeDue(m: View, steps: seq<HostStep>) {
    steps == [] ||
    (var front, last := steps[..|steps| - 1], steps[|steps| - 1];
     && TakenBeforeDue(m, front)
     && (last.Polling? && Due(MetricsAfter(m, front), last.tick) ==> LoadAfter(m, front).waiting == 0))
  }

  /** At no time is there more than one job or backup of the host. */
  predicate OneAtATime(m: View, steps: seq<HostStep>) {
    LoadAfter(m, steps).Total() <= 1 && (steps == [] || OneAtATime(m, steps[..|steps| - 1]))
  }

  lemma {:induction false} LoadCounts(m: View, steps: seq<HostStep>)
    requires Worked(m, steps)
    ensures LoadAfter(m, steps).waiting >= 0 && LoadAfter(m, steps).underWay >= 0
  {
    if steps != [] {
      LoadCounts(m, steps[..|steps| - 1]);
    }
  }

  /** As long as the backups come one at a time, one that is under way shows. */
  lemma {:induction false} UnderWayShows(m: View, steps: seq<HostStep>)
    requires Worked(m, steps) && OneAtATime(m, steps) && LoadAfter(m, steps).underWay > 0
    ensures Status(MetricsAfter(m, steps)) == Running
  {
    var front, last := steps[..|steps| - 1], steps[|steps| - 1];
    LoadCounts(m, front);
    if last.Starting? {
      StartShows(MetricsAfter(m, front), last.at);
    } else if !last.Restarting? {
      UnderWayShows(m, front);
    }
  }

  lemma StepTotal(load: Backlog, m: View, step: HostStep)
    requires WorkerStep(load, m, step) && load.waiting >= 0 && load.underWay >= 0 && load.Total() <= 1
    requires load.underWay > 0 ==> Status(m) == Running
    ensures StepLoad(load, m, step).Total() <= 1 <==> (step.Polling? && Due(m, step.tick) ==> load.waiting == 0)
  {
  }

  /** The poll loop looks at the status alone, so a host whose job still waits is enqueued again when it is due again.
      Its backups come one at a time exactly if that never happens. */
  lemma {:induction false} OneAtATimeExactly(m: View, steps: seq<HostStep>)
    requires Worked(m, steps)
    ensures OneAtATime(m, steps) <==> TakenBeforeDue(m, steps)
  {
    hide Status, StepMetrics, StepLoad, WorkerStep, Due;
    if steps != [] {
      var front, last := steps[..|steps| - 1], steps[|steps| - 1];
      OneAtATimeExactly(m, front);
      LoadCounts(m, front);
      if OneAtATime(m, front) {
        if LoadAfter(m, front).underWay > 0 {
          UnderWayShows(m, front);
        }
        StepTotal(LoadAfter(m, front), MetricsAfter(m, front), last);
      }
    }
  }

  /** Two jobs that are there at the same time can be under way at the same time: it is up to the workers. */
  lemma BothStart(m: View, steps: seq<HostStep>, t: Time)
    requires Worked(m, steps) && LoadAfter(m, steps).waiting >= 2 && t != ZERO
    requires Before(MetricsAfter(m, steps).succeededAt, t) && Before(MetricsAfter(m, steps).failedAt, t)
    ensures var more := steps + [Starting(t)] + [Starting(t)];
            Worked(m, more) && LoadAfter(m, more).underWay == LoadAfter(m, steps).underWay + 2
  {
    var once := steps + [Starting(t)];
    assert once[..|steps|] == steps && (once + [Starting(t)])[..|once|] == once;
    assert MetricsAfter(m, once) == MetricsAfter(m, steps).(startedAt := t);
  }

  /** A daily host that is due at the start of days 1 and 2, whose job is taken on neither. */
  lemma SentTwiceStartedTwice()
    ensures var d := Daemon(DailySlot(0, 0, 0), 0);
            var tick := (day: int) => Tick(day * DAY, day * DAY, day * DAY, 0, 0, (day + 1) * DAY, (day + 1) * DAY);
            var m := EMPTY.(scheduledAt := DAY);
            var steps := [Polling(tick(1)), Polling(tick(2)), Starting(2 * DAY), Starting(2 * DAY)];
            Clocked(d, steps) && Worked(m, steps) && LoadAfter(m, steps) == Backlog(0, 2)
  {
    var d := Daemon(DailySlot(0, 0, 0), 0);
    var first := Tick(DAY, DAY, DAY, 0, 0, 2 * DAY, 2 * DAY);
    var second := Tick(2 * DAY, 2 * DAY, 2 * DAY, 0, 0, 3 * DAY, 3 * DAY);
    var m := EMPTY.(scheduledAt := DAY);
    assert ClockedStep(d, Polling(first)) && ClockedStep(d, Polling(second)) by {
      NextIsEarliest(d.schedule, DAY, 2);
      NextIsEarliest(d.schedule, 2 * DAY, 3);
    }
    hide ClockedStep;
    var one := [Polling(first)];
    assert one[..0] == [] && Due(m, first);
    assert MetricsAfter(m, one) == m.(scheduledAt := 2 * DAY) && LoadAfter(m, one) == Backlog(1, 0) && Worked(m, one);
    var two := one + [Polling(second)];
    assert two[..1] == one && Due(MetricsAfter(m, one), second);
    assert MetricsAfter(m, two) == m.(scheduledAt := 3 * DAY) && LoadAfter(m, two) == Backlog(2, 0) && Worked(m, two);
    BothStart(m, two, 2 * DAY);
    assert two + [Starting(2 * DAY)] + [Starting(2 * DAY)]
        == [Polling(first), Polling(second), Starting(2 * DAY), Starting(2 * DAY)];
  }

  // ---------------------------------------------------------------------
  // What that means for the events of the host

  function EventOf(h: string, step: HostStep): seq<Event> {
    match step
    case Starting(t) => [Event.Start(h, t)]
    case Ending(success, t) => [Event.Result(h, success, t)]
    case _ => []
  }

  function HostEvents(h: string, steps: seq<HostStep>): seq<Event> {
    if steps == [] then [] else HostEvents(h, steps[..|steps| - 1]) + EventOf(h, steps[|steps| - 1])
  }

  predicate NoRestart(steps: seq<HostStep>) {
    steps == [] || (!steps[|steps| - 1].Restarting? && NoRestart(steps[..|steps| - 1]))
  }

  predicate InOrder(now: Hosts, inFlight: set<string>, e: Event) {
    match e
    case Start(h, t) =>
      && h !in inFlight && t != ZERO
      && (h in now ==> Before(now[h].succeededAt, t) && Before(now[h].failedAt, t))
    case Result(h, success, t) => h in inFlight && h in now && now[h].startedAt <= t
  }

  lemma EventMore(hosts: Hosts, events: seq<Event>, e: Event)
    ensures Replay(hosts, events + [e]) == Apply(Replay(hosts, events), e)
    ensures InFlight(events + [e]) == if e.Start? then InFlight(events) + {e.host} else InFlight(events) - {e.host}
    ensures Orderly(hosts, events) && InOrder(Replay(hosts, events), InFlight(events), e) ==> Orderly(hosts, events + [e])
  {
    assert (events + [e])[..|events|] == events;
  }

  /** The events so far are orderly, and leave the host with the metrics `m`, up to its schedule. */
  predicate Told(hosts: Hosts, events: seq<Event>, h: string, m: View, load: Backlog) {
    && Orderly(hosts, events) && InFlight(events) == (if load.underWay > 0 then {h} else {})
    && h in Replay(hosts, events) && Replay(hosts, events)[h].(scheduledAt := m.scheduledAt) == m
  }

  lemma ToldMore(hosts: Hosts, events: seq<Event>, h: string, m: View, load: Backlog, step: HostStep)
    requires Told(hosts, events, h, m, load) && WorkerStep(load, m, step) && !step.Restarting?
    requires load.waiting >= 0 && load.underWay >= 0 && load.Total() <= 1
    ensures Told(hosts, events + EventOf(h, step), h, StepMetrics(m, step), StepLoad(load, m, step))
  {
    hide Orderly, Replay, InFlight;
    if step.Starting? || step.Ending? {
      EventMore(hosts, events, EventOf(h, step)[0]);
      assert EventOf(h, step) == [EventOf(h, step)[0]];
    } else {
      assert events + [] == events;
    }
  }

  /** Between two restarts, backups that come one at a time make an orderly run of events, so that the status of the
      host always names the last of them. */
  lemma {:induction false} OneAtATimeIsOrderly(m: View, h: string, steps: seq<HostStep>)
    requires Worked(m, steps) && OneAtATime(m, steps) && NoRestart(steps)
    ensures Told(map[h := m], HostEvents(h, steps), h, MetricsAfter(m, steps), LoadAfter(m, steps))
  {
    hide Told, StepMetrics, StepLoad, EventOf, WorkerStep;
    if steps == [] {
      ToldNothing(m, h);
    } else {
      var front, last := steps[..|steps| - 1], steps[|steps| - 1];
      OneAtATimeIsOrderly(m, h, front);
      LoadCounts(m, front);
      ToldMore(map[h := m], HostEvents(h, front), h, MetricsAfter(m, front), LoadAfter(m, front), last);
    }
  }

  lemma ToldNothing(m: View, h: string)
    ensures Told(map[h := m], [], h, m, Backlog(0, 0))
  {
  }
}
