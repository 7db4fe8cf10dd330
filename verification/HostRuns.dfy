/** The metrics of one host while it is polled, its backups start and end, and the daemon is restarted. */
module HostRuns {
  import opened Options
  import opened Sequences
  import opened Schedule
  import opened Metrics
  import opened Persistence
  import opened Restart
  import opened HostState
  import opened Scheduler
  import opened PollRuns

  datatype HostStep =
    | Polling(tick: Tick)
    | Starting(at: Time)
    | Ending(success: bool, at: Time)
    | Dropping                                                        // a worker could not create the dataset
    | Restarting(now: Time, draw: nat, next: Time, loaded: View)      // what was loaded is up to the store

  function StepMetrics(m: View, step: HostStep): View {
    match step
    case Polling(tick) => Polled(m, tick)
    case Starting(t) => m.(startedAt := t)
    case Ending(success, t) => Finished(m, success, t)
    case Dropping => m
    case Restarting(_, _, next, loaded) => loaded.(scheduledAt := next)
  }

  function MetricsAfter(m: View, steps: seq<HostStep>): View {
    if steps == [] then m else StepMetrics(MetricsAfter(m, steps[..|steps| - 1]), steps[|steps| - 1])
  }

  /** When jobs of the host were sent. */
  function JobsSent(m: View, steps: seq<HostStep>): seq<Time> {
    if steps == [] then []
    else
      var front, last := steps[..|steps| - 1], steps[|steps| - 1];
      JobsSent(m, front) + SentAt(MetricsAfter(m, front), last)
  }

  function SentAt(m: View, step: HostStep): seq<Time> {
    if step.Polling? && Due(m, step.tick) then [step.tick.sent] else []
  }

  function PollsOf(m: View, steps: seq<HostStep>): seq<Poll> {
    if steps == [] then []
    else
      var front, last := steps[..|steps| - 1], steps[|steps| - 1];
      PollsOf(m, front) + PollOf(MetricsAfter(m, front), last)
  }

  function PollOf(m: View, step: HostStep): seq<Poll> {
    match step
    case Polling(tick) => [Poll(tick, Status(m) == Running)]
    case Restarting(now, draw, _, _) => [Reboot(now, draw)]
    case _ => []
  }

  lemma OneStepMore(m: View, front: seq<HostStep>, step: HostStep)
    ensures var steps, now := front + [step], MetricsAfter(m, front);
            && MetricsAfter(m, steps) == StepMetrics(now, step)
            && PollsOf(m, steps) == PollsOf(m, front) + PollOf(now, step)
            && JobsSent(m, steps) == JobsSent(m, front) + SentAt(now, step)
  {
    assert (front + [step])[..|front|] == front;
  }

  /** Every clock reading lies after Go's zero time, and a restart not before jobs that were sent. */
  ghost predicate Clocked(d: Daemon, steps: seq<HostStep>)
    requires d.schedule.Valid()
  {
    && (forall i :: 0 <= i < |steps| ==> ClockedStep(d, steps[i]))
    && (forall i, j :: 0 <= i < j < |steps| && steps[i].Polling? && steps[j].Restarting? ==>
          steps[i].tick.sent <= steps[j].now)
  }

  predicate ClockedStep(d: Daemon, step: HostStep)
    requires d.schedule.Valid()
  {
    && (step.Polling? ==> step.tick.Valid(d) && ZERO <= step.tick.now)
    && (step.Restarting? ==> d.CanDraw(step.draw) && ZERO <= step.now && step.next == d.NextSchedule(step.now, step.draw))
  }

  // ---------------------------------------------------------------------
  // The spacing of jobs

  ghost predicate Times(sent: seq<Time>, log: seq<Enqueued>) {
    |sent| == |log| && forall i :: 0 <= i < |log| ==> sent[i] == log[i].sent
  }

  /** The metrics show the plan's schedule, and the jobs sent are those of the plan. */
  ghost predicate Shows(d: Daemon, plan: Plan, m: View, sent: seq<Time>, log: seq<Enqueued>)
    requires d.schedule.Valid()
  {
    m.scheduledAt == At(plan) && (plan.Planned? ==> plan.at != ZERO) && Times(sent, log)
  }

  ghost predicate Follows(d: Daemon, plan: Plan, m: View, steps: seq<HostStep>)
    requires d.schedule.Valid()
  {
    var polls := PollsOf(m, steps);
    Shows(d, PlanAfter(d, plan, polls), MetricsAfter(m, steps), JobsSent(m, steps), Enqueues(d, plan, polls))
  }

  lemma StepShows(d: Daemon, plan: Plan, m: View, step: HostStep)
    requires d.schedule.Valid() && ClockedStep(d, step)
    requires m.scheduledAt == At(plan) && (plan.Planned? ==> plan.at != ZERO)
    ensures PollOf(m, step) == [] ==> StepMetrics(m, step).scheduledAt == m.scheduledAt && SentAt(m, step) == []
    ensures PollOf(m, step) != [] ==>
              |PollOf(m, step)| == 1 &&
              var (plan', jobs) := PollPlan(d, plan, PollOf(m, step)[0]);
              Shows(d, plan', StepMetrics(m, step), SentAt(m, step), jobs)
  {
    if step.Polling? {
      PlanMatchesMetrics(d, plan, m, step.tick);
    } else if step.Restarting? {
      var k := NextScheduleWindow(d, step.now, step.draw);
    }
  }

  /** With backups starting and ending and restarts between the polls, a host's metrics follow its run of plans. */
  lemma {:induction false} MetricsFollowPlan(d: Daemon, plan: Plan, m: View, steps: seq<HostStep>)
    requires d.schedule.Valid() && Clocked(d, steps)
    requires m.scheduledAt == At(plan) && (plan.Planned? ==> plan.at != ZERO)
    ensures Follows(d, plan, m, steps)
  {
    if steps != [] {
      var front, last := steps[..|steps| - 1], steps[|steps| - 1];
      MetricsFollowPlan(d, plan, m, front);
      assert steps == front + [last];
      FollowsMore(d, plan, m, front, last);
    }
  }

  lemma TimesMore(sent: seq<Time>, log: seq<Enqueued>, more: seq<Time>, jobs: seq<Enqueued>)
    requires Times(sent, log) && Times(more, jobs)
    ensures Times(sent + more, log + jobs)
  {
  }

  lemma FollowsMore(d: Daemon, plan: Plan, m: View, front: seq<HostStep>, last: HostStep)
    requires d.schedule.Valid() && ClockedStep(d, last) && Follows(d, plan, m, front)
    ensures Follows(d, plan, m, front + [last])
  {
    hide StepMetrics, PollOf, SentAt, PollPlan, MetricsAfter, JobsSent, PollsOf, PlanAfter, Enqueues, Times;
    var now, polls := MetricsAfter(m, front), PollsOf(m, front);
    var sent, log := JobsSent(m, front), Enqueues(d, plan, polls);
    OneStepMore(m, front, last);
    StepShows(d, PlanAfter(d, plan, polls), now, last);
    if PollOf(now, last) == [] {
      assert polls + [] == polls && sent + [] == sent;
    } else {
      var poll := PollOf(now, last)[0];
      assert PollOf(now, last) == [poll];
      OnePollMore(d, plan, polls, poll);
      TimesMore(sent, log, SentAt(now, last), PollPlan(d, PlanAfter(d, plan, polls), poll).1);
    }
  }

  lemma {:induction false} PollsAreSteps(m: View, steps: seq<HostStep>)
    ensures forall p :: p in PollsOf(m, steps) && p.Poll? ==>
              exists i :: 0 <= i < |steps| && steps[i].Polling? && steps[i].tick == p.tick
  {
    if steps != [] {
      PollsAreSteps(m, steps[..|steps| - 1]);
    }
  }

  lemma {:induction false} PollsAreTimed(d: Daemon, m: View, steps: seq<HostStep>)
    requires d.schedule.Valid() && Clocked(d, steps)
    ensures Timed(d, PollsOf(m, steps))
  {
    if steps != [] {
      var front, last := steps[..|steps| - 1], steps[|steps| - 1];
      PollsAreTimed(d, m, front);
      PollsAreSteps(m, front);
      var polls := PollsOf(m, front);
      forall j | 0 <= j < |polls| && polls[j].Poll? && last.Restarting? ensures polls[j].tick.sent <= last.now {
        assert polls[j] in polls;
        var i :| 0 <= i < |front| && front[i].Polling? && front[i].tick == polls[j].tick;
        assert steps[i] == front[i];
      }
    }
  }

  function PlanOf(d: Daemon, m: View, ref: Time, draw: nat): Plan
    requires d.schedule.Valid()
  {
    if m.scheduledAt == ZERO then Unplanned else PlanFrom(d, ref, draw)
  }

  lemma RunOfPlans(d: Daemon, m: View, ref: Time, draw: nat, steps: seq<HostStep>)
    requires d.schedule.Valid() && d.CanDraw(draw) && Clocked(d, steps) && ZERO <= ref
    requires m.scheduledAt == ZERO || m.scheduledAt == d.NextSchedule(ref, draw)
    ensures Sound(d, PlanOf(d, m, ref, draw)) && Timed(d, PollsOf(m, steps))
    ensures Times(JobsSent(m, steps), Enqueues(d, PlanOf(d, m, ref, draw), PollsOf(m, steps)))
  {
    PlanFromSound(d, ref, draw);
    PollsAreTimed(d, m, steps);
    MetricsFollowPlan(d, PlanOf(d, m, ref, draw), m, steps);
  }

  /** Whatever else happens to a host that was scheduled at `ref`, restarts included, n of its jobs span
      more than n - 2 days. */
  lemma JobsSpaced(d: Daemon, m: View, ref: Time, draw: nat, steps: seq<HostStep>, i: nat, j: nat)
    requires d.schedule.Valid() && d.CanDraw(draw) && Clocked(d, steps) && ZERO <= ref
    requires m.scheduledAt == ZERO || m.scheduledAt == d.NextSchedule(ref, draw)
    requires i < j < |JobsSent(m, steps)|
    ensures (j - i - 1) * DAY < JobsSent(m, steps)[j] - JobsSent(m, steps)[i]
  {
    RunOfPlans(d, m, ref, draw, steps);
    NoBurst(d, PlanOf(d, m, ref, draw), PollsOf(m, steps), i, j);
  }

  /** And if it is found idle often enough, it has a job for every slot, in order, whose window was over when it was
      last found idle. */
  lemma EverySlotServed(d: Daemon, m: View, ref: Time, draw: nat, gap: int, steps: seq<HostStep>, k: int)
    requires d.schedule.Valid() && d.CanDraw(draw) && Clocked(d, steps) && ZERO <= ref
    requires m.scheduledAt == d.NextSchedule(ref, draw) && m.scheduledAt != ZERO && gap + Spread(d) <= DAY
    requires Attentive(d, PlanFrom(d, ref, draw), ref, gap, PollsOf(m, steps))
    requires SlotIndex(d, ref) <= k && Opens(d, k) + Spread(d) <= LastIdle(ref, PollsOf(m, steps))
    ensures k - SlotIndex(d, ref) < |JobsSent(m, steps)|
    ensures Opens(d, k) <= JobsSent(m, steps)[k - SlotIndex(d, ref)]
  {
    RunOfPlans(d, m, ref, draw, steps);
    NoSlotMissed(d, ref, draw, gap, PollsOf(m, steps), k);
    RunIsSpaced(d, PlanFrom(d, ref, draw), PollsOf(m, steps));
  }

  // ---------------------------------------------------------------------
  // A host left to the polls

  predicate OnlyPolls(steps: seq<HostStep>) {
    forall i :: 0 <= i < |steps| ==> steps[i].Polling?
  }

  /** When a host that is scheduled at `at` is first due; without a schedule the first poll gives it one. */
  function FirstDue(at: Time, steps: seq<HostStep>): Time
    requires OnlyPolls(steps)
  {
    if at == ZERO && steps != [] then steps[0].tick.next else at
  }

  /** A host that shows as running stays so, and no job is sent for it, until something starts or ends. */
  lemma {:induction false} RunningIsNeverSent(m: View, steps: seq<HostStep>)
    requires Status(m) == Running && OnlyPolls(steps)
    ensures JobsSent(m, steps) == [] && Status(MetricsAfter(m, steps)) == Running
  {
    if steps != [] {
      RunningIsNeverSent(m, steps[..|steps| - 1]);
    }
  }

  ghost predicate PolledPast(at: Time, steps: seq<HostStep>)
    requires OnlyPolls(steps)
  {
    exists i :: 0 <= i < |steps| && at <= steps[i].tick.now
  }

  lemma ClockedPart(d: Daemon, steps: seq<HostStep>)
    requires d.schedule.Valid() && Clocked(d, steps) && steps != []
    ensures Clocked(d, steps[..|steps| - 1]) && ClockedStep(d, steps[0]) && ClockedStep(d, steps[|steps| - 1])
  {
  }

  lemma FirstIsLater(d: Daemon, step: HostStep)
    requires d.schedule.Valid() && ClockedStep(d, step) && step.Polling?
    ensures step.tick.next > step.tick.now >= ZERO
  {
    var k := NextScheduleWindow(d, step.tick.now, step.tick.draw);
  }

  lemma {:induction false} IdleIsSent(d: Daemon, m: View, steps: seq<HostStep>)
    requires d.schedule.Valid() && Clocked(d, steps) && OnlyPolls(steps) && Status(m) != Running
    ensures JobsSent(m, steps) != [] <==> PolledPast(FirstDue(m.scheduledAt, steps), steps)
    ensures JobsSent(m, steps) == [] ==> MetricsAfter(m, steps) == m.(scheduledAt := FirstDue(m.scheduledAt, steps))
  {
    hide Clocked, Status, PolledPast;
    NeverPolled(FirstDue(m.scheduledAt, steps));
    if steps != [] {
      var front, last := steps[..|steps| - 1], steps[|steps| - 1];
      ClockedPart(d, steps);
      IdleIsSent(d, m, front);
      FirstIsLater(d, steps[0]);
      assert front != [] ==> FirstDue(m.scheduledAt, front) == FirstDue(m.scheduledAt, steps);
      PastMore(FirstDue(m.scheduledAt, steps), front, last);
      assert steps == front + [last];
      StatusUnscheduled(m, FirstDue(m.scheduledAt, front));
    }
  }

  lemma StatusUnscheduled(m: View, at: Time)
    ensures Status(m.(scheduledAt := at)) == Status(m)
  {
  }

  lemma NeverPolled(at: Time)
    ensures !PolledPast(at, [])
  {
  }

  lemma PastMore(at: Time, front: seq<HostStep>, last: HostStep)
    requires OnlyPolls(front) && last.Polling?
    ensures PolledPast(at, front + [last]) <==> PolledPast(at, front) || at <= last.tick.now
  {
    if PolledPast(at, front) {
      var i :| 0 <= i < |front| && at <= front[i].tick.now;
      assert (front + [last])[i] == front[i];
    }
    assert (front + [last])[|front|] == last;
  }

  /** Exactly when a host that is left to the polls is backed up: when it does not show as running and some poll comes
      at or after the time it is scheduled at. */
  lemma SentExactly(d: Daemon, m: View, steps: seq<HostStep>)
    requires d.schedule.Valid() && Clocked(d, steps) && OnlyPolls(steps)
    ensures JobsSent(m, steps) != [] <==>
            Status(m) != Running && PolledPast(FirstDue(m.scheduledAt, steps), steps)
  {
    if Status(m) == Running {
      RunningIsNeverSent(m, steps);
    } else {
      IdleIsSent(d, m, steps);
    }
  }

  /** Exactly when a host is backed up again by itself after a restart, at whatever point the daemon was stopped: unless
      whole seconds showed it as running at that point, and as soon as a poll comes at or after its new schedule. */
  lemma BackedUpAgain(d: Daemon, hosts: Hosts, store: Store, events: seq<Event>, nexts: seq<Time>, root: string,
                      names: seq<string>, listings: map<string, seq<string>>, orders: seq<seq<Prop>>, i: nat,
                      steps: seq<HostStep>)
    requires |names| == |nexts| == |orders| && Distinct(names) && i < |names|
    requires Agree(hosts, store, names[i]) && forall j :: 0 <= j < |events| ==> IsTime(events[j].at)
    requires PlainProps(PropsOf(store, names[i]))
    requires Listed(PersistAll(hosts, store, events), root, names[i], listings, orders[i])
    requires d.schedule.Valid() && Clocked(d, steps) && OnlyPolls(steps)
    ensures var h, loaded := names[i], LoadAll(map[], nexts, root, names, listings, |names|);
            && h in loaded
            && (JobsSent(loaded[h], steps) != [] <==>
                !ShownRunning(MemoryOf(Replay(hosts, events), h)) && PolledPast(FirstDue(nexts[i], steps), steps))
  {
    hide LoadAll, PersistAll, Replay, Resolved, Status, Coarse, Listing, JobsSent, PolledPast, ShownRunning;
    var h, loaded := names[i], LoadAll(map[], nexts, root, names, listings, |names|);
    RestartAll(hosts, store, events, nexts, root, names, listings, orders, i);
    var before := MemoryOf(Replay(hosts, events), h);
    SameTimes(loaded[h], Coarse(before));
    CoarseRunning(before);
    SentExactly(d, loaded[h], steps);
  }

  lemma SameTimes(m: View, m': View)
    requires forall p: Prop :: !IsSize(p) ==> Get(m, p) == Get(m', p)
    ensures Status(m) == Status(m')
  {
    assert Get(m, LastStart) == Get(m', LastStart) && Get(m, SDate) == Get(m', SDate) && Get(m, FDate) == Get(m', FDate);
  }

  /** In particular a backup that was under way when the daemon crashed keeps its host from ever being backed up again
      by itself, if whole seconds tell its start from the earlier results. */
  lemma CrashedHostIsNeverSent(hosts: Hosts, store: Store, events: seq<Event>, h: string, fresh_: View, dataset: string,
                               order: seq<Prop>, steps: seq<HostStep>)
    requires Agree(hosts, store, h) && Orderly(hosts, events) && forall i :: 0 <= i < |events| ==> IsTime(events[i].at)
    requires LastOf(events, h) == Some(Running) && Resolved(MemoryOf(Replay(hosts, events), h))
    requires Plain(dataset) && AllOnce(order) && PlainProps(PropsOf(store, h)) && Blank(fresh_)
    requires OnlyPolls(steps)
    ensures var props := PropsOf(PersistAll(hosts, store, events), h);
            var after := LoadLines(fresh_, dataset, Listing(dataset, props, order));
            Status(after) == Running && JobsSent(after, steps) == []
  {
    StatusNamesLastEvent(hosts, events, h);
    RestartAnywhere(hosts, store, events, h, fresh_, dataset, order);
    var props := PropsOf(PersistAll(hosts, store, events), h);
    RunningIsNeverSent(LoadLines(fresh_, dataset, Listing(dataset, props, order)), steps);
  }
}
