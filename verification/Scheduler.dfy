/** The poll loop: which hosts are enqueued when, and what they are rescheduled to. */
module Scheduler {
  import opened Options
  import opened Sequences
  import opened Schedule
  import opened Metrics
  import opened Persistence
  import opened Restart
  import opened HostState

  /** What the clock and the random source say while one host is polled. */
  datatype Tick = Tick(
    now: Time, sent: Time, later: Time,   // `sent` is when Enqueue lets the job through; it may block in between
    draw: nat, redraw: nat,
    next: Time, renewed: Time)            // the schedules drawn at `now` and at `later`
  {
    predicate Valid(d: Daemon)
      requires d.schedule.Valid()
    {
      && now <= sent <= later && d.CanDraw(draw) && d.CanDraw(redraw)
      && next == d.NextSchedule(now, draw) && renewed == d.NextSchedule(later, redraw)
    }
  }

  /** The host gets a schedule if it has none. */
  function Scheduled(m: View, tick: Tick): View {
    if m.scheduledAt == ZERO then m.(scheduledAt := tick.next) else m
  }

  predicate Due(m: View, tick: Tick) {
    Status(m) != Running && Scheduled(m, tick).scheduledAt <= tick.now
  }

  /** A host's metrics after it was polled. */
  function Polled(m: View, tick: Tick): View {
    if Due(m, tick) then m.(scheduledAt := tick.renewed) else Scheduled(m, tick)
  }

  datatype Round = Round(hosts: Hosts, store: Store, enqueued: seq<string>)

  function PollStep(round: Round, h: string, tick: Tick): Round
    requires h in round.hosts
  {
    var m := round.hosts[h];
    round.(hosts := round.hosts[h := Polled(m, tick)],
           enqueued := if Due(m, tick) then round.enqueued + [h] else round.enqueued)
  }

  /** What workers note. */
  function NoteStep(round: Round, notes: seq<Noted>): (noted: Round)
    ensures (forall h :: h in round.hosts ==> h in noted.hosts) && noted.enqueued == round.enqueued
  {
    ReplayKeepsHosts(round.hosts, EventsOf(notes));
    round.(hosts := Replay(round.hosts, EventsOf(notes)), store := StoreAfter(round.hosts, round.store, notes))
  }

  predicate Covers(round: Round, order: seq<string>) {
    forall h :: h in order ==> h in round.hosts
  }

  /** The first `n` polls; before each of them workers note something. */
  function PollAll(start: Round, order: seq<string>, ticks: seq<Tick>, between: seq<seq<Noted>>, n: nat): (round: Round)
    requires n <= |order| == |ticks| == |between|
    requires Covers(start, order)
    ensures forall h :: h in start.hosts ==> h in round.hosts
  {
    if n == 0 then start
    else PollStep(NoteStep(PollAll(start, order, ticks, between, n - 1), between[n - 1]), order[n - 1], ticks[n - 1])
  }

  /** The part of the loop body after a missing schedule has been filled in. */
  function DueStep(round: Round, h: string, tick: Tick): Round
    requires h in round.hosts
  {
    var m := round.hosts[h];
    if Status(m) == Running || m.scheduledAt > tick.now then round
    else round.(hosts := round.hosts[h := m.(scheduledAt := tick.renewed)], enqueued := round.enqueued + [h])
  }

  lemma ScheduledThenDue(round: Round, h: string, tick: Tick)
    requires h in round.hosts
    ensures var m := Scheduled(round.hosts[h], tick);
            DueStep(round.(hosts := round.hosts[h := m]), h, tick) == PollStep(round, h, tick)
  {
    SetTwice(round.hosts, h, Scheduled(round.hosts[h], tick), Polled(round.hosts[h], tick));
  }

  class Scheduler {
    const state: State
    var queue: seq<string>   // hosts in the order their jobs were enqueued

    constructor (state: State)
      ensures this.state == state && queue == []
    {
      this.state := state;
      queue := [];
    }

    ghost function Seen(): Round
      reads this, state, state.hosts.Values
    {
      Round(state.Views(), state.store, queue)
    }

    /** One poll over the hosts in some order; `between[i]` is what workers note before the i-th host is looked at, and
        `stopAfter` the number of hosts polled before a Stop is noticed. If none is, every host was running when it was
        looked at or is scheduled strictly after the moment it was examined or rescheduled, and exactly the due
        ones were enqueued, once each. */
    method Run(d: Daemon, order: seq<string>, ticks: seq<Tick>, between: seq<seq<Noted>>, stopAfter: nat)
      requires state.Valid() && d.schedule.Valid() && |order| == |ticks| == |between| && Distinct(order)
      requires forall h :: h in order <==> h in state.hosts
      requires forall i :: 0 <= i < |ticks| ==> ticks[i].Valid(d)
      modifies `queue, state, state.hosts.Values
      ensures state.Valid()
      ensures Seen() == PollAll(old(Seen()), order, ticks, between, if stopAfter < |order| then stopAfter else |order|)
      ensures stopAfter >= |order| ==> PollDone(old(Seen()), order, ticks, between, Seen())
    {
      PollHosts(d, order, ticks, between, if stopAfter < |order| then stopAfter else |order|);
      CompletedPoll(d, old(Seen()), order, ticks, between);
    }

    method PollHosts(d: Daemon, order: seq<string>, ticks: seq<Tick>, between: seq<seq<Noted>>, n: nat)
      requires state.Valid() && d.schedule.Valid() && n <= |order| == |ticks| == |between|
      requires Covers(Seen(), order) && forall i :: 0 <= i < |ticks| ==> ticks[i].Valid(d)
      modifies `queue, state, state.hosts.Values
      ensures state.Valid()
      ensures Seen() == PollAll(old(Seen()), order, ticks, between, n)
    {
      hide PollStep, NoteStep, Tick.Valid, Seen, State.Valid, StoreAfter, Replay;
      ghost var start := Seen();
      for i := 0 to n
        invariant state.Valid() && fresh(state.hosts.Values - old(state.hosts.Values))
        invariant Seen() == PollAll(start, order, ticks, between, i)
      {
        PollNext(d, order[i], ticks[i], between[i]);
      }
    }

    method PollNext(d: Daemon, host: string, tick: Tick, notes: seq<Noted>)
      requires state.Valid() && d.schedule.Valid() && host in Seen().hosts && tick.Valid(d)
      modifies `queue, state, state.hosts.Values
      ensures state.Valid() && fresh(state.hosts.Values - old(state.hosts.Values))
      ensures Seen() == PollStep(NoteStep(old(Seen()), notes), host, tick)
    {
      hide PollStep, NoteStep, Tick.Valid, State.Views, State.Valid;
      OthersNote(notes);
      PollOne(d, host, tick);
    }

    method OthersNote(notes: seq<Noted>)
      requires state.Valid()
      modifies state, state.hosts.Values
      ensures state.Valid() && fresh(state.hosts.Values - old(state.hosts.Values))
      ensures Seen() == NoteStep(old(Seen()), notes)
    {
      state.NoteAll(notes);
    }

    /** The body of the loop for one host. Nothing is lost by taking it as one step: an event that falls between
        the enqueueing and the rescheduling can as well come after both (EventsPassReschedule). */
    method PollOne(d: Daemon, host: string, tick: Tick)
      requires state.Valid() && d.schedule.Valid() && host in state.hosts && tick.Valid(d)
      modifies `queue, state.hosts.Values
      ensures state.Valid()
      ensures Seen() == PollStep(old(Seen()), host, tick)
    {
      GiveSchedule(d, host, tick);
      EnqueueIfDue(d, host, tick);
      ScheduledThenDue(old(Seen()), host, tick);
    }

    method EnqueueIfDue(d: Daemon, host: string, tick: Tick)
      requires state.Valid() && d.schedule.Valid() && host in state.hosts && tick.Valid(d)
      modifies `queue, state.hosts.Values
      ensures state.Valid()
      ensures Seen() == DueStep(old(Seen()), host, tick)
    {
      var job := state.hosts[host];
      var s := Status(job.Value());
      if s == Running || job.scheduledAt > tick.now {
        return;
      }
      queue := queue + [host];
      state.Reschedule(host, d, tick.later, tick.redraw);
    }

    method GiveSchedule(d: Daemon, host: string, tick: Tick)
      requires state.Valid() && d.schedule.Valid() && host in state.hosts && tick.Valid(d)
      modifies state.hosts.Values
      ensures state.Valid()
      ensures state.Views() == old(state.Views())[host := Scheduled(old(state.Views())[host], tick)]
    {
      if state.hosts[host].scheduledAt == ZERO {
        state.Reschedule(host, d, tick.now, tick.draw);
      }
    }
  }

  /** The round in which the `i`-th host is looked at. */
  function AtPoll(start: Round, order: seq<string>, ticks: seq<Tick>, between: seq<seq<Noted>>, i: nat): (round: Round)
    requires i < |order| == |ticks| == |between|
    requires Covers(start, order)
    ensures forall h :: h in start.hosts ==> h in round.hosts
  {
    NoteStep(PollAll(start, order, ticks, between, i), between[i])
  }

  function Flat(between: seq<seq<Noted>>, n: nat): seq<Noted>
    requires n <= |between|
  {
    if n == 0 then [] else Flat(between, n - 1) + between[n - 1]
  }

  lemma NotePoll(round: Round, notes: seq<Noted>, g: string, tick: Tick, h: string)
    requires g in round.hosts && h in round.hosts && g != h
    ensures var after := PollStep(NoteStep(round, notes), g, tick);
            && h in after.hosts && after.hosts[h] == Replay(round.hosts, EventsOf(notes))[h]
            && after.hosts[h].scheduledAt == round.hosts[h].scheduledAt
            && multiset(after.enqueued)[h] == multiset(round.enqueued)[h]
  {
    ReplayKeepsHosts(round.hosts, EventsOf(notes));
  }

  lemma NothingNoted(hosts: Hosts)
    ensures Replay(hosts, EventsOf([])) == hosts
  {
    assert EventsOf([]) == [];
  }

  lemma OwnEvents(hosts: Hosts, start: Hosts, store: Store, flat: seq<Noted>, notes: seq<Noted>, h: string)
    requires h in hosts && h in Replay(start, EventsOf(flat)) && hosts[h] == Replay(start, EventsOf(flat))[h]
    ensures h in Replay(hosts, EventsOf(notes)) && h in Replay(start, EventsOf(flat + notes))
    ensures Replay(hosts, EventsOf(notes))[h] == Replay(start, EventsOf(flat + notes))[h]
  {
    hide Replay;
    NotesConcat(start, store, flat, notes);
    ReplayIsLocal(hosts, Replay(start, EventsOf(flat)), EventsOf(notes), h);
    ReplayKeepsHosts(hosts, EventsOf(notes));
  }

  /** Until its own poll nothing but its own events befalls a host. */
  lemma {:induction false} SeenAsItIs(start: Round, order: seq<string>, ticks: seq<Tick>, between: seq<seq<Noted>>,
                                      n: nat, h: string)
    requires n <= |order| == |ticks| == |between| && h in start.hosts
    requires Covers(start, order)
    requires forall i :: 0 <= i < n ==> order[i] != h
    ensures var round := PollAll(start, order, ticks, between, n);
            && h in Replay(start.hosts, EventsOf(Flat(between, n)))
            && round.hosts[h] == Replay(start.hosts, EventsOf(Flat(between, n)))[h]
            && multiset(round.enqueued)[h] == multiset(start.enqueued)[h]
  {
    hide PollStep, NoteStep, Replay;
    if n > 0 {
      SeenAsItIs(start, order, ticks, between, n - 1, h);
      var round, flat := PollAll(start, order, ticks, between, n - 1), Flat(between, n - 1);
      NotePoll(round, between[n - 1], order[n - 1], ticks[n - 1], h);
      OwnEvents(round.hosts, start.hosts, start.store, flat, between[n - 1], h);
    } else {
      NothingNoted(start.hosts);
    }
  }

  /** Before and after its own poll, the `i`-th host is not enqueued or rescheduled. */
  lemma {:induction false} NotPolledAgain(start: Round, order: seq<string>, ticks: seq<Tick>, between: seq<seq<Noted>>,
                                          k: nat, n: nat, i: nat)
    requires k <= n <= |order| == |ticks| == |between| && i < |order| && (i < k || n <= i) && Distinct(order)
    requires Covers(start, order)
    ensures var before, after := PollAll(start, order, ticks, between, k), PollAll(start, order, ticks, between, n);
            && after.hosts[order[i]].scheduledAt == before.hosts[order[i]].scheduledAt
            && multiset(after.enqueued)[order[i]] == multiset(before.enqueued)[order[i]]
  {
    hide PollStep, NoteStep;
    if k < n {
      NotPolledAgain(start, order, ticks, between, k, n - 1, i);
      assert order[n - 1] != order[i];
      NotePoll(PollAll(start, order, ticks, between, n - 1), between[n - 1], order[n - 1], ticks[n - 1], order[i]);
    }
  }

  lemma AtPollNext(start: Round, order: seq<string>, ticks: seq<Tick>, between: seq<seq<Noted>>, i: nat)
    requires i < |order| == |ticks| == |between|
    requires Covers(start, order)
    ensures var round, at := PollAll(start, order, ticks, between, i), AtPoll(start, order, ticks, between, i);
            && PollAll(start, order, ticks, between, i + 1) == PollStep(at, order[i], ticks[i])
            && at.hosts == Replay(round.hosts, EventsOf(between[i])) && at.enqueued == round.enqueued
  {
    hide PollStep;
  }

  lemma OwnPoll(round: Round, h: string, tick: Tick)
    requires h in round.hosts
    ensures var after := PollStep(round, h, tick);
            && after.hosts[h] == Polled(round.hosts[h], tick)
            && multiset(after.enqueued)[h] == multiset(round.enqueued)[h] + if Due(round.hosts[h], tick) then 1 else 0
  {
  }

  /** A host is looked at as its own events have left it by then, whatever the order and the other hosts. */
  lemma SeenAtPoll(start: Round, order: seq<string>, ticks: seq<Tick>, between: seq<seq<Noted>>, i: nat)
    requires i < |order| == |ticks| == |between| && Distinct(order)
    requires Covers(start, order)
    ensures var h := order[i];
            && h in Replay(start.hosts, EventsOf(Flat(between, i + 1)))
            && AtPoll(start, order, ticks, between, i).hosts[h] == Replay(start.hosts, EventsOf(Flat(between, i + 1)))[h]
  {
    var h, round := order[i], PollAll(start, order, ticks, between, i);
    AtPollNext(start, order, ticks, between, i);
    SeenAsItIs(start, order, ticks, between, i, h);
    OwnEvents(round.hosts, start.hosts, start.store, Flat(between, i), between[i], h);
  }

  /** The `i`-th host was given what its own poll decided, and was enqueued by nothing else. */
  ghost predicate HandledOnce(start: Round, order: seq<string>, ticks: seq<Tick>, between: seq<seq<Noted>>, i: nat,
                              final: Round)
    requires i < |order| == |ticks| == |between| && Covers(start, order)
  {
    var h, seen := order[i], AtPoll(start, order, ticks, between, i).hosts[order[i]];
    && h in final.hosts && final.hosts[h].scheduledAt == Polled(seen, ticks[i]).scheduledAt
    && multiset(final.enqueued)[h] == multiset(start.enqueued)[h] + if Due(seen, ticks[i]) then 1 else 0
  }

  lemma HandledThen(start: Round, order: seq<string>, ticks: seq<Tick>, between: seq<seq<Noted>>, i: nat)
    requires i < |order| == |ticks| == |between| && Distinct(order)
    requires Covers(start, order)
    ensures HandledOnce(start, order, ticks, between, i, PollAll(start, order, ticks, between, i + 1))
  {
    AtPollNext(start, order, ticks, between, i);
    OwnPoll(AtPoll(start, order, ticks, between, i), order[i], ticks[i]);
    NotPolledAgain(start, order, ticks, between, 0, i, i);
    NoPollYet(start, order, ticks, between);
  }

  /** Each host is polled on its own, exactly once per run: what is done depends only on how it is seen. */
  lemma PollIsPerHost(start: Round, order: seq<string>, ticks: seq<Tick>, between: seq<seq<Noted>>, i: nat)
    requires i < |order| == |ticks| == |between| && Distinct(order)
    requires Covers(start, order)
    ensures HandledOnce(start, order, ticks, between, i, PollAll(start, order, ticks, between, |order|))
  {
    hide HandledOnce, PollAll, Distinct;
    assert order[i] in start.hosts;
    hide Covers;
    HandledThen(start, order, ticks, between, i);
    NotPolledAgain(start, order, ticks, between, i + 1, |order|, i);
    HandledStays(start, order, ticks, between, i, PollAll(start, order, ticks, between, i + 1),
                 PollAll(start, order, ticks, between, |order|));
  }

  lemma HandledStays(start: Round, order: seq<string>, ticks: seq<Tick>, between: seq<seq<Noted>>, i: nat,
                     round: Round, final: Round)
    requires i < |order| == |ticks| == |between| && Covers(start, order)
    requires HandledOnce(start, order, ticks, between, i, round) && order[i] in final.hosts
    requires final.hosts[order[i]].scheduledAt == round.hosts[order[i]].scheduledAt
    requires multiset(final.enqueued)[order[i]] == multiset(round.enqueued)[order[i]]
    ensures HandledOnce(start, order, ticks, between, i, final)
  {
  }

  lemma NoPollYet(start: Round, order: seq<string>, ticks: seq<Tick>, between: seq<seq<Noted>>)
    requires |order| == |ticks| == |between| && Covers(start, order)
    ensures PollAll(start, order, ticks, between, 0) == start
  {
  }

  /** A polled host was either running or is now scheduled strictly after the moment it was last looked at:
      after the poll if it was left alone, after the rescheduling if it was enqueued. */
  lemma PolledIsPlanned(d: Daemon, m: View, tick: Tick)
    requires d.schedule.Valid() && tick.Valid(d)
    ensures !Due(m, tick) ==> Status(m) == Running || Polled(m, tick).scheduledAt > tick.now
    ensures Due(m, tick) ==> Polled(m, tick).scheduledAt > tick.later
    ensures Status(Polled(m, tick)) == Status(m)
  {
    var k := NextScheduleWindow(d, tick.later, tick.redraw);
  }

  /** Exactly the hosts that are not running and whose schedule has come are due, never one that has none yet. Those get
      the schedule after the enqueueing, a host without one the schedule after the poll, and any other keeps its own. */
  lemma WhatPollDoes(d: Daemon, m: View, tick: Tick)
    requires d.schedule.Valid() && tick.Valid(d)
    ensures Due(m, tick) <==> Status(m) != Running && m.scheduledAt != ZERO && m.scheduledAt <= tick.now
    ensures Polled(m, tick).scheduledAt ==
            if m.scheduledAt == ZERO then d.NextSchedule(tick.now, tick.draw)
            else if Status(m) != Running && m.scheduledAt <= tick.now then d.NextSchedule(tick.later, tick.redraw)
            else m.scheduledAt
    ensures Polled(m, tick).(scheduledAt := m.scheduledAt) == m
  {
    var k := NextScheduleWindow(d, tick.now, tick.draw);
  }

  lemma PollQueues(round: Round, notes: seq<Noted>, h: string, tick: Tick)
    requires h in NoteStep(round, notes).hosts
    ensures var seen := NoteStep(round, notes).hosts[h];
            PollStep(NoteStep(round, notes), h, tick).enqueued == round.enqueued + if Due(seen, tick) then [h] else []
  {
  }

  /** The queue only grows, by the due host of each poll, at the end. */
  lemma {:induction false} QueueGrows(start: Round, order: seq<string>, ticks: seq<Tick>, between: seq<seq<Noted>>,
                                      i: nat, n: nat)
    requires i < n <= |order| == |ticks| == |between| && Covers(start, order)
    ensures var before, after := PollAll(start, order, ticks, between, i), PollAll(start, order, ticks, between, i + 1);
            var seen := AtPoll(start, order, ticks, between, i).hosts[order[i]];
            && after.enqueued == before.enqueued + (if Due(seen, ticks[i]) then [order[i]] else [])
            && after.enqueued <= PollAll(start, order, ticks, between, n).enqueued
  {
    hide Due, PollStep, NoteStep;
    var round := PollAll(start, order, ticks, between, n - 1);
    assert order[n - 1] in start.hosts;
    PollQueues(round, between[n - 1], order[n - 1], ticks[n - 1]);
    if i + 1 < n {
      QueueGrows(start, order, ticks, between, i, n - 1);
    }
  }

  /** After a completed poll each host was running when it was looked at or is planned for later, and the due ones
      have been enqueued once. */
  ghost predicate PollDone(start: Round, order: seq<string>, ticks: seq<Tick>, between: seq<seq<Noted>>, final: Round)
    requires |order| == |ticks| == |between| && Covers(start, order)
  {
    forall i :: 0 <= i < |order| ==>
      var seen := AtPoll(start, order, ticks, between, i).hosts[order[i]];
      HandledOnce(start, order, ticks, between, i, final)
      && HostDone(seen, ticks[i], final.hosts[order[i]].scheduledAt)
  }

  predicate HostDone(seen: View, tick: Tick, scheduledAt: Time) {
    && (!Due(seen, tick) ==> Status(seen) == Running || scheduledAt > tick.now)
    && (Due(seen, tick) ==> scheduledAt > tick.later)
  }

  lemma CompletedPoll(d: Daemon, start: Round, order: seq<string>, ticks: seq<Tick>, between: seq<seq<Noted>>)
    requires d.schedule.Valid() && |order| == |ticks| == |between| && Distinct(order)
    requires Covers(start, order)
    requires forall i :: 0 <= i < |ticks| ==> ticks[i].Valid(d)
    ensures PollDone(start, order, ticks, between, PollAll(start, order, ticks, between, |order|))
  {
    hide AtPoll, PollAll, Due, Polled;
    forall i | 0 <= i < |order|
      ensures var seen := AtPoll(start, order, ticks, between, i).hosts[order[i]];
              var final := PollAll(start, order, ticks, between, |order|);
              && HandledOnce(start, order, ticks, between, i, final)
              && HostDone(seen, ticks[i], final.hosts[order[i]].scheduledAt)
    {
      PollIsPerHost(start, order, ticks, between, i);
      PolledIsPlanned(d, AtPoll(start, order, ticks, between, i).hosts[order[i]], ticks[i]);
    }
  }
}
