/** One host over many polls and restarts: which slots its jobs serve, and when. */
module PollRuns {
  import opened Options
  import opened Schedule
  import opened Metrics
  import opened Scheduler

  /** The number of the slot that `ref` asks for. */
  function SlotIndex(d: Daemon, ref: Time): int
    requires d.schedule.Valid()
  {
    (ref + d.Advance() - d.schedule.Offset()) / DAY + 1
  }

  lemma SlotIndexIsNominal(d: Daemon, ref: Time, draw: nat)
    requires d.schedule.Valid()
    ensures Nominal(d, ref, SlotIndex(d, ref))
    ensures d.NextSchedule(ref, draw) == d.schedule.At(SlotIndex(d, ref)) + d.Offset(draw)
  {
    var k := SlotIndex(d, ref);
    NextIsEarliest(d.schedule, ref + d.Advance(), k);
  }

  /** A host's schedule, with the slot it was drawn for and the time it was drawn from. */
  datatype Plan = Unplanned | Planned(at: Time, slot: int, from: Time)

  function PlanFrom(d: Daemon, ref: Time, draw: nat): Plan
    requires d.schedule.Valid()
  {
    Planned(d.NextSchedule(ref, draw), SlotIndex(d, ref), ref)
  }

  /** A poll of the host, which may or may not be running at the time, or a restart of the daemon,
      which schedules every host anew. */
  datatype Poll = Poll(tick: Tick, running: bool) | Reboot(now: Time, draw: nat)

  /** A job: when it was sent, the slot it serves, and the time from which that slot was chosen. */
  datatype Enqueued = Enqueued(sent: Time, slot: int, from: Time)

  function PollPlan(d: Daemon, plan: Plan, poll: Poll): (Plan, seq<Enqueued>)
    requires d.schedule.Valid()
  {
    match poll
    case Reboot(now, draw) => (PlanFrom(d, now, draw), [])
    case Poll(tick, running) =>
      var p := if plan.Unplanned? then PlanFrom(d, tick.now, tick.draw) else plan;
      if running || p.at > tick.now then (p, [])
      else (PlanFrom(d, tick.later, tick.redraw), [Enqueued(tick.sent, p.slot, p.from)])
  }

  function At(plan: Plan): Time {
    if plan.Unplanned? then ZERO else plan.at
  }

  /** The plan says what happens to the host's metrics: same schedule, same decision. */
  lemma PlanMatchesMetrics(d: Daemon, plan: Plan, m: View, tick: Tick)
    requires d.schedule.Valid() && tick.Valid(d) && ZERO <= tick.now
    requires m.scheduledAt == At(plan) && (plan.Planned? ==> plan.at != ZERO)
    ensures var (plan', jobs) := PollPlan(d, plan, Poll(tick, Status(m) == Running));
            && Polled(m, tick).scheduledAt == At(plan') && plan'.Planned? && plan'.at != ZERO
            && (if Due(m, tick) then |jobs| == 1 && jobs[0].sent == tick.sent else jobs == [])
  {
    var k := NextScheduleWindow(d, tick.now, tick.draw);
    var l := NextScheduleWindow(d, tick.later, tick.redraw);
  }

  function PlanAfter(d: Daemon, plan: Plan, polls: seq<Poll>): Plan
    requires d.schedule.Valid()
  {
    if polls == [] then plan
    else PollPlan(d, PlanAfter(d, plan, polls[..|polls| - 1]), polls[|polls| - 1]).0
  }

  function Enqueues(d: Daemon, plan: Plan, polls: seq<Poll>): seq<Enqueued>
    requires d.schedule.Valid()
  {
    if polls == [] then []
    else
      var front, last := polls[..|polls| - 1], polls[|polls| - 1];
      Enqueues(d, plan, front) + PollPlan(d, PlanAfter(d, plan, front), last).1
  }

  lemma OnePollMore(d: Daemon, plan: Plan, polls: seq<Poll>, last: Poll)
    requires d.schedule.Valid()
    ensures var (now, jobs) := PollPlan(d, PlanAfter(d, plan, polls), last);
            && PlanAfter(d, plan, polls + [last]) == now
            && Enqueues(d, plan, polls + [last]) == Enqueues(d, plan, polls) + jobs
  {
    assert (polls + [last])[..|polls|] == polls;
  }

  /** When the window around a slot opens. */
  function Opens(d: Daemon, slot: int): Time
    requires d.schedule.Valid()
  {
    d.schedule.At(slot) - d.Advance()
  }

  /** How long after that a plan for the slot may still be due. */
  function Spread(d: Daemon): nat {
    if d.jitter > 0 then d.jitter - 1 else 0
  }

  /** What the clock says is possible: draws below the jitter, and a restart not before jobs that were sent. */
  ghost predicate Timed(d: Daemon, polls: seq<Poll>)
    requires d.schedule.Valid()
  {
    && (forall k :: 0 <= k < |polls| && polls[k].Poll? ==> polls[k].tick.Valid(d))
    && (forall k :: 0 <= k < |polls| && polls[k].Reboot? ==> d.CanDraw(polls[k].draw))
    && (forall j, k :: 0 <= j < k < |polls| && polls[j].Poll? && polls[k].Reboot? ==> polls[j].tick.sent <= polls[k].now)
  }

  /** The slot is the one its time of choice asks for, and that time lies before the slot's window opens. */
  predicate Chosen(d: Daemon, slot: int, from: Time)
    requires d.schedule.Valid()
  {
    slot == SlotIndex(d, from) && from < Opens(d, slot)
  }

  /** Each job is sent after its own slot's window opened, and the next one's slot is chosen after that. */
  ghost predicate Spaced(d: Daemon, log: seq<Enqueued>)
    requires d.schedule.Valid()
  {
    && (forall i :: 0 <= i < |log| ==> Chosen(d, log[i].slot, log[i].from) && Opens(d, log[i].slot) <= log[i].sent)
    && (forall i :: 0 <= i < |log| - 1 ==> log[i].slot < log[i + 1].slot && log[i].sent <= log[i + 1].from)
  }

  /** A plan made for a slot is not due before its window opens. */
  predicate Sound(d: Daemon, plan: Plan)
    requires d.schedule.Valid()
  {
    plan.Planned? ==> Chosen(d, plan.slot, plan.from) && Opens(d, plan.slot) <= plan.at
  }

  lemma PlanFromSound(d: Daemon, ref: Time, draw: nat)
    requires d.schedule.Valid() && d.CanDraw(draw)
    ensures Sound(d, PlanFrom(d, ref, draw))
  {
    SlotIndexIsNominal(d, ref, draw);
    OffsetBounds(d, draw);
  }

  lemma LaterSlot(d: Daemon, ref: Time, slot: int)
    requires d.schedule.Valid() && Opens(d, slot) <= ref
    ensures slot < SlotIndex(d, ref)
  {
    SlotIndexIsNominal(d, ref, 0);
    SlotOrder(d.schedule, SlotIndex(d, ref), slot);
  }

  /** What every poll and every restart keeps: the jobs so far are spaced, and the present plan is for a later slot,
      chosen after the last job was sent. */
  ghost predicate RunKeeps(d: Daemon, log: seq<Enqueued>, plan: Plan)
    requires d.schedule.Valid()
  {
    && Spaced(d, log) && Sound(d, plan)
    && (log != [] ==> plan.Planned? && log[|log| - 1].slot < plan.slot && log[|log| - 1].sent <= plan.from)
  }

  lemma PollKeeps(d: Daemon, log: seq<Enqueued>, plan: Plan, poll: Poll)
    requires d.schedule.Valid() && RunKeeps(d, log, plan)
    requires poll.Poll? ==> poll.tick.Valid(d)
    requires poll.Reboot? ==> d.CanDraw(poll.draw) && (log != [] ==> log[|log| - 1].sent <= poll.now)
    ensures var (plan', jobs) := PollPlan(d, plan, poll); RunKeeps(d, log + jobs, plan')
  {
    hide Opens, SlotIndex, Daemon.NextSchedule, Spaced;
    match poll {
      case Reboot(now, draw) =>
        PlanFromSound(d, now, draw);
        if log != [] {
          LastOpened(d, log);
          LaterSlot(d, now, log[|log| - 1].slot);
        }
        assert log + [] == log;
      case Poll(tick, running) =>
        PlanFromSound(d, tick.now, tick.draw);
        PlanFromSound(d, tick.later, tick.redraw);
        var p := if plan.Unplanned? then PlanFrom(d, tick.now, tick.draw) else plan;
        if !running && p.at <= tick.now {
          LaterSlot(d, tick.later, p.slot);
          SpacedMore(d, log, Enqueued(tick.sent, p.slot, p.from));
        } else {
          assert log + [] == log;
        }
    }
  }

  lemma LastOpened(d: Daemon, log: seq<Enqueued>)
    requires d.schedule.Valid() && Spaced(d, log) && log != []
    ensures Opens(d, log[|log| - 1].slot) <= log[|log| - 1].sent
  {
  }

  lemma SpacedMore(d: Daemon, log: seq<Enqueued>, job: Enqueued)
    requires d.schedule.Valid() && Spaced(d, log) && Chosen(d, job.slot, job.from) && Opens(d, job.slot) <= job.sent
    requires log != [] ==> log[|log| - 1].slot < job.slot && log[|log| - 1].sent <= job.from
    ensures Spaced(d, log + [job])
  {
    hide Opens, SlotIndex;
  }

  lemma {:induction false} RunIsSpaced(d: Daemon, plan: Plan, polls: seq<Poll>)
    requires d.schedule.Valid() && Sound(d, plan) && Timed(d, polls)
    ensures RunKeeps(d, Enqueues(d, plan, polls), PlanAfter(d, plan, polls))
  {
    hide RunKeeps, Sound, PollPlan, Tick.Valid;
    if polls != [] {
      var front, last := polls[..|polls| - 1], polls[|polls| - 1];
      RunIsSpaced(d, plan, front);
      if last.Reboot? {
        SentBefore(d, plan, front, last.now);
      }
      PollKeeps(d, Enqueues(d, plan, front), PlanAfter(d, plan, front), last);
    } else {
      NothingSent(d, plan);
    }
  }

  lemma NothingSent(d: Daemon, plan: Plan)
    requires d.schedule.Valid() && Sound(d, plan)
    ensures RunKeeps(d, [], plan)
  {
  }

  lemma {:induction false} SentBefore(d: Daemon, plan: Plan, polls: seq<Poll>, now: Time)
    requires d.schedule.Valid() && forall j :: 0 <= j < |polls| && polls[j].Poll? ==> polls[j].tick.sent <= now
    ensures forall i :: 0 <= i < |Enqueues(d, plan, polls)| ==> Enqueues(d, plan, polls)[i].sent <= now
  {
    if polls != [] {
      SentBefore(d, plan, polls[..|polls| - 1], now);
    }
  }

  lemma {:induction false} SlotsIncrease(d: Daemon, log: seq<Enqueued>, i: nat, j: nat)
    requires d.schedule.Valid() && Spaced(d, log) && i <= j < |log|
    ensures log[j].slot - log[i].slot >= j - i
    decreases j - i
  {
    if i < j {
      SlotsIncrease(d, log, i, j - 1);
      assert log[j - 1].slot < log[j - 1 + 1].slot;
    }
  }

  /** No burst: over every run of polls and restarts no slot is served twice, and the n-th job after a given one
      is sent more than n - 1 days later. */
  lemma NoBurst(d: Daemon, plan: Plan, polls: seq<Poll>, i: nat, j: nat)
    requires d.schedule.Valid() && Sound(d, plan) && Timed(d, polls)
    requires i < j < |Enqueues(d, plan, polls)|
    ensures var log := Enqueues(d, plan, polls);
            log[i].slot < log[j].slot && (j - i - 1) * DAY < log[j].sent - log[i].sent
  {
    hide Opens, SlotIndex, Sound, Timed, Enqueues;
    var log := Enqueues(d, plan, polls);
    RunIsSpaced(d, plan, polls);
    SlotsIncrease(d, log, i + 1, j);
    SlotsIncrease(d, log, i, j);
    assert log[i].sent <= log[i + 1].from < Opens(d, log[i + 1].slot);
    OpensOrder(d, log[i + 1].slot, log[j].slot, j - i - 1);
  }

  lemma OpensOrder(d: Daemon, a: int, b: int, days: nat)
    requires d.schedule.Valid() && b - a >= days
    ensures Opens(d, b) - Opens(d, a) >= days * DAY
  {
    SlotOrder(d.schedule, a, b);
    DaysGrow(b - a, days);
  }

  lemma DaysGrow(a: int, b: int)
    requires a >= b
    ensures a * DAY >= b * DAY
  {
  }

  // ---------------------------------------------------------------------
  // When no slot is missed

  /** A job's successor serves the very next slot exactly when its schedule was drawn, at the rescheduling or
      at a later restart, before that slot's window opened. */
  lemma NextSlotServed(d: Daemon, plan: Plan, polls: seq<Poll>, i: nat)
    requires d.schedule.Valid() && Sound(d, plan) && Timed(d, polls)
    requires i + 1 < |Enqueues(d, plan, polls)|
    ensures var log := Enqueues(d, plan, polls);
            log[i + 1].slot == log[i].slot + 1 <==> log[i + 1].from < Opens(d, log[i].slot + 1)
  {
    hide SlotIndex, Opens, Tick.Valid, Sound, Timed;
    var log := Enqueues(d, plan, polls);
    RunIsSpaced(d, plan, polls);
    NextIndex(d, log[i + 1].from, log[i].slot);
  }

  lemma IndexIs(d: Daemon, ref: Time, k: int)
    requires d.schedule.Valid()
    ensures SlotIndex(d, ref) == k <==> Opens(d, k - 1) <= ref < Opens(d, k)
  {
    SlotIndexIsNominal(d, ref, 0);
    if Opens(d, k - 1) <= ref < Opens(d, k) {
      OneSlot(d, ref, SlotIndex(d, ref), k);
    }
  }

  lemma NextIndex(d: Daemon, from: Time, slot: int)
    requires d.schedule.Valid() && Opens(d, slot) <= from
    ensures SlotIndex(d, from) == slot + 1 <==> from < Opens(d, slot + 1)
  {
    IndexIs(d, from, slot + 1);
  }

  /** A restart keeps the slot that was planned exactly when it comes before that slot's window opens. */
  lemma RebootKeepsSlot(d: Daemon, plan: Plan, now: Time, draw: nat)
    requires d.schedule.Valid() && plan.Planned? && Sound(d, plan) && plan.from <= now
    ensures PlanFrom(d, now, draw).slot == plan.slot <==> now < Opens(d, plan.slot)
  {
    hide SlotIndex, Opens, Daemon.NextSchedule;
    IndexIs(d, plan.from, plan.slot);
    IndexIs(d, now, plan.slot);
  }

  /** When the host was last found idle; `since` if never. */
  function LastIdle(since: Time, polls: seq<Poll>): Time {
    if polls == [] then since
    else
      var last := polls[|polls| - 1];
      if last.Reboot? || last.running then LastIdle(since, polls[..|polls| - 1]) else last.tick.now
  }

  /** The host is looked at often enough: whenever it is found idle, the poll is over within `gap` of the time it was
      found idle before. And the daemon is only restarted before the window of the planned slot opens. */
  ghost predicate Attentive(d: Daemon, plan: Plan, since: Time, gap: int, polls: seq<Poll>)
    requires d.schedule.Valid()
  {
    forall i :: 0 <= i < |polls| ==>
      AttentivePoll(d, PlanAfter(d, plan, polls[..i]), LastIdle(since, polls[..i]), gap, polls[i])
  }

  predicate AttentivePoll(d: Daemon, plan: Plan, idle: Time, gap: int, poll: Poll)
    requires d.schedule.Valid()
  {
    match poll
    case Poll(tick, running) => idle <= tick.now && (!running ==> tick.later - idle <= gap)
    case Reboot(now, _) => idle <= now && plan.Planned? && plan.from <= now < Opens(d, plan.slot)
  }

  /** The plan lies in the window of its slot, and the host has not been found idle since it became due. */
  predicate Ahead(d: Daemon, plan: Plan, idle: Time)
    requires d.schedule.Valid()
  {
    plan.Planned? && Sound(d, plan) && idle < plan.at <= Opens(d, plan.slot) + Spread(d)
  }

  lemma PlanFromAhead(d: Daemon, ref: Time, draw: nat)
    requires d.schedule.Valid() && d.CanDraw(draw)
    ensures Ahead(d, PlanFrom(d, ref, draw), ref)
  {
    PlanFromSound(d, ref, draw);
    SlotIndexIsNominal(d, ref, draw);
    OffsetBounds(d, draw);
  }

  /** An attentive poll either leaves the plan's slot alone or serves it and plans the next one. */
  lemma PromptPoll(d: Daemon, plan: Plan, idle: Time, gap: int, poll: Poll)
    requires d.schedule.Valid() && Ahead(d, plan, idle) && AttentivePoll(d, plan, idle, gap, poll)
    requires if poll.Poll? then poll.tick.Valid(d) else d.CanDraw(poll.draw)
    requires gap + Spread(d) <= DAY
    ensures var (plan', jobs) := PollPlan(d, plan, poll);
            && Ahead(d, plan', if poll.Reboot? || poll.running then idle else poll.tick.now)
            && (|jobs| <= 1 && forall i :: 0 <= i < |jobs| ==> jobs[i].slot == plan.slot)
            && plan'.slot == plan.slot + |jobs|
  {
    match poll {
      case Reboot(now, draw) =>
        PlanFromAhead(d, now, draw);
        RebootKeepsSlot(d, plan, now, draw);
      case Poll(tick, running) =>
        PlanFromAhead(d, tick.later, tick.redraw);
        SlotOrder(d.schedule, plan.slot, plan.slot + 1);
        if !running && plan.at <= tick.now {
          NextIndex(d, tick.later, plan.slot);
        }
    }
  }

  lemma {:induction false} PromptRun(d: Daemon, plan: Plan, since: Time, gap: int, polls: seq<Poll>)
    requires d.schedule.Valid() && Ahead(d, plan, since) && Timed(d, polls) && Attentive(d, plan, since, gap, polls)
    requires gap + Spread(d) <= DAY
    ensures Ahead(d, PlanAfter(d, plan, polls), LastIdle(since, polls))
    ensures var log := Enqueues(d, plan, polls);
            && PlanAfter(d, plan, polls).slot == plan.slot + |log|
            && forall i :: 0 <= i < |log| ==> log[i].slot == plan.slot + i
  {
    hide PollPlan, Tick.Valid, Sound, AttentivePoll, Opens;
    if polls != [] {
      var front, last := polls[..|polls| - 1], polls[|polls| - 1];
      assert Attentive(d, plan, since, gap, front) by {
        assert forall i :: 0 <= i < |front| ==> front[..i] == polls[..i];
      }
      PromptRun(d, plan, since, gap, front);
      PromptPoll(d, PlanAfter(d, plan, front), LastIdle(since, front), gap, last);
    }
  }

  /** If the host is found idle often enough, so that a gap and the jitter fit into a day, no slot is left out: its jobs
      serve one slot after the other from the one that was planned at `ref`, and every slot whose window was over when
      the host was last found idle has been served. */
  lemma NoSlotMissed(d: Daemon, ref: Time, draw: nat, gap: int, polls: seq<Poll>, k: int)
    requires d.schedule.Valid() && d.CanDraw(draw) && Timed(d, polls) && gap + Spread(d) <= DAY
    requires Attentive(d, PlanFrom(d, ref, draw), ref, gap, polls)
    ensures var log, first := Enqueues(d, PlanFrom(d, ref, draw), polls), SlotIndex(d, ref);
            && (forall i :: 0 <= i < |log| ==> log[i].slot == first + i)
            && (first <= k && Opens(d, k) + Spread(d) <= LastIdle(ref, polls) ==>
                  k - first < |log| && log[k - first].slot == k)
  {
    var plan := PlanFrom(d, ref, draw);
    PlanFromAhead(d, ref, draw);
    PromptRun(d, plan, ref, gap, polls);
    hide Opens, SlotIndex, Sound, Timed, Attentive, Enqueues, PlanAfter, LastIdle;
    var next := PlanAfter(d, plan, polls).slot;
    if k >= next {
      OpensOrder(d, next, k, 0);
    }
  }
}
