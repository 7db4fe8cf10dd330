/** One backup: the pipeline of steps, the tunnel around most of them, and the recorded result. */
module Runner {
  import opened Options
  import opened Schedule
  import opened Metrics
  import opened Restart
  import opened HostState

  datatype Step = CreateDataset | Connect | PreScript | Rsync | PostScript | Snapshot

  datatype Entry =
    | Did(step: Step, ok: bool)
    | Started
    | Closed                     // the SSH tunnel
    | Recorded(success: bool)

  datatype Job = Job(host: string, hasPreScript: bool, hasPostScript: bool)

  /** Which steps succeed is up to the outside world. */
  type World = Step -> bool

  /** The steps of a job, in the order the documentation gives. */
  function Plan(job: Job): (steps: seq<Step>)
    ensures |steps| >= 4 && steps[0] == CreateDataset && steps[1] == Connect && steps[|steps| - 1] == Snapshot
  {
    [CreateDataset, Connect]
    + (if job.hasPreScript then [PreScript] else [])
    + [Rsync]
    + (if job.hasPostScript then [PostScript] else [])
    + [Snapshot]
  }

  predicate AllOk(steps: seq<Step>, world: World) {
    forall s :: s in steps ==> world(s)
  }

  /** Steps are attempted one after the other until one fails. */
  function Attempts(steps: seq<Step>, world: World): seq<Entry> {
    if steps == [] then []
    else [Did(steps[0], world(steps[0]))] + if world(steps[0]) then Attempts(steps[1..], world) else []
  }

  /** What one backup leaves behind. */
  function Trace(job: Job, world: World): seq<Entry> {
    if !world(CreateDataset) then [Did(CreateDataset, false)]
    else [Did(CreateDataset, true)] + Recording(job, world)
  }

  /** The part that is recorded. */
  function Recording(job: Job, world: World): seq<Entry> {
    [Started]
    + Attempts(Plan(job)[1..], world)
    + (if world(Connect) then [Closed] else [])
    + [Recorded(AllOk(Plan(job)[1..], world))]
  }

  lemma TraceRegrouped(t: seq<Entry>, a: seq<Entry>, b: seq<Entry>, c: seq<Entry>, d: seq<Entry>)
    ensures t + a + (b + c) + d == t + (a + b + c + d)
    ensures t + a + b + c + d == t + (a + b + c + d)
  {
  }

  /** What is noted from the start of a backup to its result; other workers may note something in between. */
  function BackupNotes(job: Job, success: bool, startAt: Time, endAt: Time, startStored: bool, resultStored: bool,
                       others: seq<Noted>): seq<Noted>
  {
    [Noted(Event.Start(job.host, startAt), startStored)] + others
    + [Noted(Event.Result(job.host, success, endAt), resultStored)]
  }

  class Runner {
    const state: State
    var trace: seq<Entry>

    constructor (state: State)
      ensures this.state == state && trace == []
    {
      this.state := state;
      trace := [];
    }

    /** One step; `rest` is what is still planned, from this step on. */
    method Attempt(step: Step, world: World, ghost rest: seq<Step>) returns (ok: bool)
      requires rest != [] && rest[0] == step
      modifies `trace
      ensures ok == world(step)
      ensures ok ==> trace + Attempts(rest[1..], world) == old(trace) + Attempts(rest, world)
      ensures ok ==> AllOk(rest[1..], world) == AllOk(rest, world)
      ensures !ok ==> trace == old(trace) + Attempts(rest, world) && !AllOk(rest, world)
    {
      ok := world(step);
      trace := trace + [Did(step, ok)];
      assert rest == [step] + rest[1..];
    }

    /** The part of the backup that runs through the tunnel. */
    method Transfer(job: Job, world: World) returns (ok: bool)
      modifies `trace
      ensures ok == AllOk(Plan(job)[2..], world)
      ensures trace == old(trace) + Attempts(Plan(job)[2..], world)
    {
      ghost var rest := Plan(job)[2..];
      if job.hasPreScript {
        ok := Attempt(PreScript, world, rest);
        if !ok {
          return;
        }
        rest := rest[1..];
      }
      ok := Attempt(Rsync, world, rest);
      if !ok {
        return;
      }
      rest := rest[1..];
      if job.hasPostScript {
        ok := Attempt(PostScript, world, rest);
        if !ok {
          return;
        }
        rest := rest[1..];
      }
      ok := Attempt(Snapshot, world, rest);
      assert rest == [Snapshot];
      assert Attempts([], world) == [];
    }

    /** Connect, transfer, and the deferred close of a tunnel that was established. */
    method Tunnel(job: Job, world: World) returns (ok: bool)
      modifies `trace
      ensures ok == AllOk(Plan(job)[1..], world)
      ensures trace == old(trace) + Attempts(Plan(job)[1..], world) + if world(Connect) then [Closed] else []
    {
      assert Plan(job)[1..][1..] == Plan(job)[2..];
      ok := Attempt(Connect, world, Plan(job)[1..]);
      if ok {
        ok := Transfer(job, world);
        trace := trace + [Closed];
      }
    }

    /** The deferred function that records the result. */
    method Record(host: string, ok: bool, at: Time, stored: bool)
      requires state.Valid()
      modifies `trace, state, state.hosts.Values
      ensures state.Valid() && state.Views() == Apply(old(state.Views()), Event.Result(host, ok, at))
      ensures state.store == PersistIf(old(state.Views()), old(state.store), Noted(Event.Result(host, ok, at), stored))
      ensures trace == old(trace) + [Recorded(ok)]
    {
      if ok {
        state.Success(host, at, stored);
      } else {
        state.Failure(host, at, stored);
      }
      trace := trace + [Recorded(ok)];
    }

    /** Everything once the dataset exists. What other workers note during the backup touches the state, but not
        the steps, so all of it may stand after them. */
    method StartAndRecord(job: Job, world: World, startAt: Time, endAt: Time, startStored: bool, resultStored: bool,
                          others: seq<Noted>)
      requires state.Valid()
      modifies `trace, state, state.hosts.Values
      ensures state.Valid() && trace == old(trace) + Recording(job, world)
      ensures var ok := AllOk(Plan(job)[1..], world);
              var notes := BackupNotes(job, ok, startAt, endAt, startStored, resultStored, others);
              && state.Views() == Replay(old(state.Views()), EventsOf(notes))
              && state.store == StoreAfter(old(state.Views()), old(state.store), notes)
    {
      hide Apply, PersistIf, Attempts, Plan, State.Views, State.Valid;
      ghost var views, props := state.Views(), state.store;
      var begin := Noted(Event.Start(job.host, startAt), startStored);
      state.Note(begin);
      OneNote(views, props, begin);
      ghost var begun, stored := state.Views(), state.store;
      trace := trace + [Started];
      var ok := Tunnel(job, world);
      assert state.Views() == begun && state.store == stored;
      state.NoteAll(others);
      NotesConcat(views, props, [begin], others);
      Record(job.host, ok, endAt, resultStored);
      NotesAppend(views, props, [begin] + others, Noted(Event.Result(job.host, ok, endAt), resultStored));
      TraceRegrouped(old(trace), [Started], Attempts(Plan(job)[1..], world), if world(Connect) then [Closed] else [],
        [Recorded(ok)]);
    }

    /** The deferred functions run in reverse order: first the tunnel closes, then the result is recorded. A `zfs set`
        that fails leaves the properties as they were. `others` is what other workers note between start and result. */
    method PerformBackup(job: Job, world: World, startAt: Time, endAt: Time, startStored: bool, resultStored: bool,
                         others: seq<Noted>)
      requires state.Valid()
      modifies `trace, state, state.hosts.Values
      ensures state.Valid()
      ensures trace == old(trace) + Trace(job, world)
      ensures !world(CreateDataset) ==> state.Views() == old(state.Views()) && state.store == old(state.store)
      ensures world(CreateDataset) ==>
                var notes := BackupNotes(job, AllOk(Plan(job), world), startAt, endAt, startStored, resultStored, others);
                && state.Views() == Replay(old(state.Views()), EventsOf(notes))
                && state.store == StoreAfter(old(state.Views()), old(state.store), notes)
    {
      trace := trace + [Did(CreateDataset, world(CreateDataset))];
      if !world(CreateDataset) {
        return;
      }
      assert Plan(job) == [CreateDataset] + Plan(job)[1..];
      assert old(trace) + [Did(CreateDataset, true)] + Recording(job, world) == old(trace) + Trace(job, world);
      StartAndRecord(job, world, startAt, endAt, startStored, resultStored, others);
    }
  }

  // ---------------------------------------------------------------------
  // Laws of the trace

  /** Attempts follow the plan, all but the last have succeeded, and all is well when the last step has. */
  lemma {:induction false} AttemptsInOrder(steps: seq<Step>, world: World)
    ensures var a := Attempts(steps, world);
            && |a| <= |steps| && (steps != [] ==> a != [])
            && (forall i :: 0 <= i < |a| ==> a[i] == Did(steps[i], world(steps[i])))
            && (forall i :: 0 <= i < |a| - 1 ==> world(steps[i]))
            && (AllOk(steps, world) <==> |a| == |steps| && (a != [] ==> world(steps[|a| - 1])))
  {
    if steps != [] {
      AttemptsInOrder(steps[1..], world);
      assert steps == [steps[0]] + steps[1..];
    }
  }

  /** A trace whose dataset exists, from the steps attempted afterwards. */
  function Assemble(a: seq<Entry>, connected: bool, ok: bool): seq<Entry> {
    [Did(CreateDataset, true), Started] + a + (if connected then [Closed] else []) + [Recorded(ok)]
  }

  lemma TraceAssembled(job: Job, world: World)
    requires world(CreateDataset)
    ensures Trace(job, world) ==
            Assemble(Attempts(Plan(job)[1..], world), world(Connect), AllOk(Plan(job), world))
  {
    assert Plan(job) == [CreateDataset] + Plan(job)[1..];
  }

  lemma AssembledPlaces(a: seq<Entry>, connected: bool, ok: bool)
    requires forall i :: 0 <= i < |a| ==> a[i].Did?
    ensures var t := Assemble(a, connected, ok);
            && |t| == |a| + (if connected then 4 else 3)
            && t[0] == Did(CreateDataset, true) && t[1] == Started && t[|t| - 1] == Recorded(ok)
            && (forall i :: 0 <= i < |a| ==> t[2 + i] == a[i])
            && (forall i :: 0 <= i < |t| ==> (t[i].Did? <==> i == 0 || 2 <= i < 2 + |a|))
            && (forall i :: 0 <= i < |t| ==> (t[i].Recorded? <==> i == |t| - 1) && (t[i].Started? <==> i == 1))
            && (forall i :: 0 <= i < |t| ==> (t[i].Closed? <==> connected && i == |t| - 2))
  {
  }

  /** A failed dataset creation records nothing; any other backup starts once and records once, at the very end,
      and a tunnel that was established is closed immediately before that, and only such a tunnel. */
  lemma RecordedOnce(job: Job, world: World)
    ensures var t := Trace(job, world);
            if !world(CreateDataset) then t == [Did(CreateDataset, false)]
            else
              && |t| >= 3 && t[1] == Started && t[|t| - 1] == Recorded(AllOk(Plan(job), world))
              && (forall i :: 0 <= i < |t| ==> (t[i].Recorded? <==> i == |t| - 1) && (t[i].Started? <==> i == 1))
              && (forall i :: 0 <= i < |t| ==> (t[i].Closed? <==> world(Connect) && i == |t| - 2))
  {
    if world(CreateDataset) {
      var a, ok := Attempts(Plan(job)[1..], world), AllOk(Plan(job), world);
      TraceAssembled(job, world);
      assert forall i :: 0 <= i < |a| ==> a[i].Did? by {
        AttemptsInOrder(Plan(job)[1..], world);
      }
      AssembledPlaces(a, world(Connect), ok);
    }
  }

  /** Nothing is attempted after a failure: the step attempted at a place of the trace is the next one of the plan,
      and all earlier ones have been attempted before it and succeeded. So the snapshot is only attempted
      when everything else has succeeded. */
  lemma InPlanOrder(job: Job, world: World, i: nat)
    requires i < |Trace(job, world)| && Trace(job, world)[i].Did?
    ensures var t, n := Trace(job, world), if i == 0 then 0 else i - 1;
            && n < |Plan(job)| && t[i] == Did(Plan(job)[n], world(Plan(job)[n]))
            && forall k :: 0 <= k < n ==> world(Plan(job)[k]) && t[if k == 0 then 0 else k + 1] == Did(Plan(job)[k], true)
  {
    if i > 0 {
      TraceAssembled(job, world);
      InStepOrder(Plan(job)[1..], world, world(Connect), AllOk(Plan(job), world), i);
      assert forall k :: 0 < k < |Plan(job)| ==> Plan(job)[k] == Plan(job)[1..][k - 1];
    }
  }

  lemma InStepOrder(steps: seq<Step>, world: World, connected: bool, ok: bool, i: nat)
    requires var t := Assemble(Attempts(steps, world), connected, ok); 0 < i < |t| && t[i].Did?
    ensures var t := Assemble(Attempts(steps, world), connected, ok);
            && 2 <= i < 2 + |steps| && t[0] == Did(CreateDataset, true)
            && t[i] == Did(steps[i - 2], world(steps[i - 2]))
            && forall k :: 0 <= k < i - 2 ==> world(steps[k]) && t[2 + k] == Did(steps[k], true)
  {
    var a := Attempts(steps, world);
    AttemptsInOrder(steps, world);
    AssembledPlaces(a, connected, ok);
    var t := Assemble(a, connected, ok);
    assert t[2 + (i - 2)] == a[i - 2];
    forall k | 0 <= k < i - 2 ensures world(steps[k]) && t[2 + k] == Did(steps[k], true) {
      assert t[2 + k] == a[k];
    }
  }

  // ---------------------------------------------------------------------
  // Which steps are attempted, from the job and the outcomes alone

  predicate Attempted(t: seq<Entry>, step: Step) {
    exists i :: 0 <= i < |t| && t[i].Did? && t[i].step == step
  }

  /** A step, and what follows if it succeeds. */
  function Then(step: Step, world: World, rest: seq<Entry>): seq<Entry> {
    [Did(step, world(step))] + if world(step) then rest else []
  }

  lemma AttemptsThen(step: Step, steps: seq<Step>, world: World)
    ensures Attempts([step] + steps, world) == Then(step, world, Attempts(steps, world))
  {
    assert ([step] + steps)[1..] == steps;
  }

  function AfterRsync(job: Job, world: World): seq<Entry> {
    var snapshot := Then(Snapshot, world, []);
    if job.hasPostScript then Then(PostScript, world, snapshot) else snapshot
  }

  function AfterConnect(job: Job, world: World): seq<Entry> {
    var rsync := Then(Rsync, world, AfterRsync(job, world));
    if job.hasPreScript then Then(PreScript, world, rsync) else rsync
  }

  lemma PlanInFull(job: Job, world: World)
    ensures Attempts(Plan(job)[1..], world) == Then(Connect, world, AfterConnect(job, world))
  {
    var last := if job.hasPostScript then [PostScript, Snapshot] else [Snapshot];
    var rest := [Rsync] + last;
    var steps := if job.hasPreScript then [PreScript] + rest else rest;
    assert Plan(job)[1..] == [Connect] + steps;
    assert Attempts([], world) == [];
    AttemptsThen(Snapshot, [], world);
    assert [Snapshot] + [] == [Snapshot];
    AttemptsThen(PostScript, [Snapshot], world);
    assert [PostScript] + [Snapshot] == [PostScript, Snapshot];
    AttemptsThen(Rsync, last, world);
    AttemptsThen(PreScript, rest, world);
    AttemptsThen(Connect, steps, world);
  }

  lemma AttemptedThen(step: Step, world: World, rest: seq<Entry>, s: Step)
    ensures Attempted(Then(step, world, rest), s) <==> s == step || (world(step) && Attempted(rest, s))
  {
    var t := Then(step, world, rest);
    assert t[0] == Did(step, world(step));
    if world(step) && Attempted(rest, s) {
      var i :| 0 <= i < |rest| && rest[i].Did? && rest[i].step == s;
      assert t[i + 1] == rest[i];
    }
    if Attempted(t, s) && s != step {
      var i :| 0 <= i < |t| && t[i].Did? && t[i].step == s;
      assert t[i] == rest[i - 1];
    }
  }

  lemma AttemptedAfterRsync(job: Job, world: World, s: Step)
    ensures Attempted(AfterRsync(job, world), s) <==>
            || (s == PostScript && job.hasPostScript)
            || (s == Snapshot && (job.hasPostScript ==> world(PostScript)))
  {
    AttemptedThen(Snapshot, world, [], s);
    AttemptedThen(PostScript, world, Then(Snapshot, world, []), s);
  }

  lemma AttemptedAfterConnect(job: Job, world: World, s: Step)
    ensures Attempted(AfterConnect(job, world), s) <==>
            || (s == PreScript && job.hasPreScript)
            || ((job.hasPreScript ==> world(PreScript)) &&
                (s == Rsync || (world(Rsync) && Attempted(AfterRsync(job, world), s))))
  {
    var rsync := Then(Rsync, world, AfterRsync(job, world));
    AttemptedThen(Rsync, world, AfterRsync(job, world), s);
    AttemptedThen(PreScript, world, rsync, s);
  }

  lemma AttemptedAssembled(a: seq<Entry>, connected: bool, ok: bool, s: Step)
    ensures Attempted(Assemble(a, connected, ok), s) <==> s == CreateDataset || Attempted(a, s)
  {
    var t, n := Assemble(a, connected, ok), |a|;
    assert t[0] == Did(CreateDataset, true) && t[1] == Started && |t| >= n + 2;
    assert forall i :: 0 <= i < n ==> t[2 + i] == a[i];
    assert forall i :: n + 2 <= i < |t| ==> t[i].Closed? || t[i].Recorded?;
    if Attempted(a, s) {
      var i :| 0 <= i < n && a[i].Did? && a[i].step == s;
      assert t[2 + i] == a[i];
    }
    if Attempted(t, s) && s != CreateDataset {
      var i :| 0 <= i < |t| && t[i].Did? && t[i].step == s;
      assert t[2 + (i - 2)] == a[i - 2];
    }
  }

  lemma AttemptedInTrace(job: Job, world: World, s: Step)
    ensures Attempted(Trace(job, world), s) <==>
            || s == CreateDataset
            || (world(CreateDataset) && (s == Connect || (world(Connect) && Attempted(AfterConnect(job, world), s))))
  {
    if world(CreateDataset) {
      hide Attempted, Assemble, Attempts, Then, AfterConnect, Trace, Plan, AllOk;
      TraceAssembled(job, world);
      PlanInFull(job, world);
      AttemptedAssembled(Attempts(Plan(job)[1..], world), world(Connect), AllOk(Plan(job), world), s);
      AttemptedThen(Connect, world, AfterConnect(job, world), s);
    } else {
      assert Trace(job, world)[0] == Did(CreateDataset, false);
    }
  }

  /** Exactly which steps a backup attempts: the dataset, then the tunnel, the pre-scripts if there are any, rsync, the
      post-scripts if there are any, and the snapshot, each if all that come before it succeeded. */
  lemma WhatIsAttempted(job: Job, world: World, s: Step)
    ensures var connected := world(CreateDataset) && world(Connect);
            var prepared := connected && (job.hasPreScript ==> world(PreScript));
            var copied := prepared && world(Rsync);
            Attempted(Trace(job, world), s) <==>
              match s
              case CreateDataset => true
              case Connect => world(CreateDataset)
              case PreScript => job.hasPreScript && connected
              case Rsync => prepared
              case PostScript => job.hasPostScript && copied
              case Snapshot => copied && (job.hasPostScript ==> world(PostScript))
  {
    hide Attempted, Then, AfterConnect, AfterRsync, Trace;
    AttemptedInTrace(job, world, s);
    AttemptedAfterConnect(job, world, s);
    AttemptedAfterRsync(job, world, s);
  }

  function Rank(step: Step): nat {
    match step
    case CreateDataset => 0
    case Connect => 1
    case PreScript => 2
    case Rsync => 3
    case PostScript => 4
    case Snapshot => 5
  }

  /** Steps stand in order, each at most once, and say whether they succeeded. */
  predicate InOrder(t: seq<Entry>, world: World) {
    && (forall i :: 0 <= i < |t| && t[i].Did? ==> t[i].ok == world(t[i].step))
    && (forall i, j :: 0 <= i < j < |t| && t[i].Did? && t[j].Did? ==> Rank(t[i].step) < Rank(t[j].step))
  }

  predicate Above(rank: nat, t: seq<Entry>) {
    forall i :: 0 <= i < |t| ==> t[i].Did? && rank < Rank(t[i].step)
  }

  lemma InOrderThen(step: Step, world: World, rest: seq<Entry>)
    requires InOrder(rest, world) && Above(Rank(step), rest)
    ensures InOrder(Then(step, world, rest), world)
    ensures forall r: nat :: r < Rank(step) ==> Above(r, Then(step, world, rest))
  {
  }

  /** The steps attempted stand in this order, once each, with their outcomes. */
  lemma AttemptedInOrder(job: Job, world: World)
    ensures InOrder(Trace(job, world), world)
  {
    if world(CreateDataset) {
      InOrderThen(Snapshot, world, []);
      InOrderThen(PostScript, world, Then(Snapshot, world, []));
      InOrderThen(Rsync, world, AfterRsync(job, world));
      InOrderThen(PreScript, world, Then(Rsync, world, AfterRsync(job, world)));
      InOrderThen(Connect, world, AfterConnect(job, world));
      PlanInFull(job, world);
      TraceAssembled(job, world);
      var a := Attempts(Plan(job)[1..], world);
      AssembledInOrder(a, world, AllOk(Plan(job), world));
    }
  }

  lemma AssembledInOrder(a: seq<Entry>, world: World, ok: bool)
    requires InOrder(a, world) && Above(0, a) && world(CreateDataset)
    ensures InOrder(Assemble(a, world(Connect), ok), world)
  {
    var t := Assemble(a, world(Connect), ok);
    AssembledPlaces(a, world(Connect), ok);
    forall i | 0 <= i < |t| && t[i].Did? ensures i == 0 || (2 <= i < 2 + |a| && t[i] == a[i - 2]) {
      assert i >= 2 ==> t[2 + (i - 2)] == a[i - 2];
    }
  }

  /** Success is recorded exactly when the snapshot was attempted and succeeded. */
  lemma SuccessMeansSnapshot(job: Job, world: World)
    ensures Recorded(true) in Trace(job, world) <==> Did(Snapshot, true) in Trace(job, world)
  {
    var t, plan := Trace(job, world), Plan(job);
    RecordedOnce(job, world);
    if Did(Snapshot, true) in t {
      SnapshotLast(job, world);
    }
    if Recorded(true) in t {
      SnapshotTaken(job, world);
    }
  }

  lemma SnapshotLast(job: Job, world: World)
    requires Did(Snapshot, true) in Trace(job, world)
    ensures AllOk(Plan(job), world) && world(CreateDataset)
  {
    var plan := Plan(job);
    var i :| 0 <= i < |Trace(job, world)| && Trace(job, world)[i] == Did(Snapshot, true);
    InPlanOrder(job, world, i);
    OnlyLastIsSnapshot(job, if i == 0 then 0 else i - 1);
    forall s | s in plan ensures world(s) {
      var k :| 0 <= k < |plan| && plan[k] == s;
    }
  }

  lemma SnapshotTaken(job: Job, world: World)
    requires AllOk(Plan(job), world)
    ensures Did(Snapshot, true) in Trace(job, world)
  {
    var plan, steps := Plan(job), Plan(job)[1..];
    assert CreateDataset in plan && Connect in plan && Snapshot in plan;
    assert forall s :: s in steps ==> s in plan;
    TraceAssembled(job, world);
    AttemptsInOrder(steps, world);
    AssembledPlaces(Attempts(steps, world), world(Connect), true);
    assert Trace(job, world)[2 + (|steps| - 1)] == Did(Snapshot, true);
  }

  lemma OnlyLastIsSnapshot(job: Job, n: nat)
    requires n < |Plan(job)|
    ensures Plan(job)[n] == Snapshot <==> n == |Plan(job)| - 1
  {
  }

  lemma {:induction false} OtherHostsOnly(hosts: Hosts, events: seq<Event>, h: string)
    requires forall i :: 0 <= i < |events| ==> events[i].host != h
    ensures h in Replay(hosts, events) <==> h in hosts
    ensures MemoryOf(Replay(hosts, events), h) == MemoryOf(hosts, h)
  {
    if events != [] {
      OtherHostsOnly(hosts, events[..|events| - 1], h);
    }
  }

  /** The notes of a backup, one after the other. */
  lemma NotesInFull(hosts: Hosts, store: Store, begin: Noted, others: seq<Noted>, end: Noted)
    ensures var begun, stored := Apply(hosts, begin.event), PersistIf(hosts, store, begin);
            var notes := [begin] + others + [end];
            && Replay(hosts, EventsOf(notes)) == Apply(Replay(begun, EventsOf(others)), end.event)
            && StoreAfter(hosts, store, notes) ==
               PersistIf(Replay(begun, EventsOf(others)), StoreAfter(begun, stored, others), end)
  {
    hide Apply, PersistIf, Replay, StoreAfter;
    OneNote(hosts, store, begin);
    NotesConcat(hosts, store, [begin], others);
    NotesAppend(hosts, store, [begin] + others, end);
  }

  lemma {:induction false} OthersStoreElsewhere(hosts: Hosts, store: Store, notes: seq<Noted>, h: string)
    requires forall i :: 0 <= i < |notes| ==> notes[i].event.host != h
    ensures PropsOf(StoreAfter(hosts, store, notes), h) == PropsOf(store, h)
  {
    if notes != [] {
      OthersStoreElsewhere(hosts, store, notes[..|notes| - 1], h);
    }
  }

  lemma NoneOf(notes: seq<Noted>, h: string)
    requires forall i :: 0 <= i < |notes| ==> notes[i].event.host != h
    ensures forall i :: 0 <= i < |notes| ==> EventsOf(notes)[i].host != h
  {
  }

  /** What a backup does to its host: if it starts after all earlier results, ends no earlier than it started, and is the
      only backup of its host meanwhile, the status names its outcome, with its own times; and what becomes of the
      other hosts is up to the other workers alone. */
  lemma BackupStatus(hosts: Hosts, job: Job, success: bool, startAt: Time, endAt: Time,
                     startStored: bool, resultStored: bool, others: seq<Noted>)
    requires startAt != ZERO && startAt <= endAt && forall i :: 0 <= i < |others| ==> others[i].event.host != job.host
    requires job.host in hosts ==>
               Before(hosts[job.host].succeededAt, startAt) && Before(hosts[job.host].failedAt, startAt)
    ensures var notes := BackupNotes(job, success, startAt, endAt, startStored, resultStored, others);
            var after := Replay(hosts, EventsOf(notes));
            && job.host in after && Status(after[job.host]) == (if success then Success else Failed)
            && after[job.host].startedAt == startAt
            && (if success then after[job.host].succeededAt else after[job.host].failedAt) == Some(endAt)
            && forall h :: h != job.host ==>
                 && (h in after <==> h in Replay(hosts, EventsOf(others)))
                 && MemoryOf(after, h) == MemoryOf(Replay(hosts, EventsOf(others)), h)
  {
    hide Replay, EventsOf;
    var begin, end := Event.Start(job.host, startAt), Event.Result(job.host, success, endAt);
    var begun, events := Apply(hosts, begin), EventsOf(others);
    assert forall i :: 0 <= i < |events| ==> events[i].host != job.host by { NoneOf(others, job.host); }
    NotesInFull(hosts, map[], Noted(begin, startStored), others, Noted(end, resultStored));
    OtherHostsOnly(begun, events, job.host);
    ResultShows(begun[job.host], success, endAt);
    forall h | h != job.host
      ensures h in Replay(begun, events) <==> h in Replay(hosts, events)
      ensures MemoryOf(Replay(begun, events), h) == MemoryOf(Replay(hosts, events), h)
    {
      ReplayIsLocal(begun, hosts, events, h);
    }
  }

  /** What it leaves in the properties of its host: its start and its result, each unless its own `zfs set` failed. */
  lemma BackupStores(hosts: Hosts, store: Store, job: Job, success: bool, startAt: Time, endAt: Time,
                     startStored: bool, resultStored: bool, others: seq<Noted>)
    requires forall i :: 0 <= i < |others| ==> others[i].event.host != job.host
    ensures var notes := BackupNotes(job, success, startAt, endAt, startStored, resultStored, others);
            var was, now := PropsOf(store, job.host), PropsOf(StoreAfter(hosts, store, notes), job.host);
            var begun := if startStored then StoreStart(was, startAt) else was;
            now == if resultStored then StoreResult(begun, success, endAt, Truncate(Sub(endAt, startAt), MILLISECOND))
                   else begun
  {
    hide StoreStart, StoreResult, Truncate, Sub;
    var begin, end := Event.Start(job.host, startAt), Event.Result(job.host, success, endAt);
    var begun, stored := Apply(hosts, begin), PersistIf(hosts, store, Noted(begin, startStored));
    NotesInFull(hosts, store, Noted(begin, startStored), others, Noted(end, resultStored));
    OtherHostsOnly(begun, EventsOf(others), job.host);
    OthersStoreElsewhere(begun, stored, others, job.host);
  }

  /** A backup leaves a host in agreement with its properties if every `zfs set` for that host succeeds. */
  lemma BackupKeepsAgreement(hosts: Hosts, store: Store, job: Job, success: bool, startAt: Time, endAt: Time,
                             startStored: bool, resultStored: bool, others: seq<Noted>, h: string)
    requires Agree(hosts, store, h)
    requires job.host == h ==> startStored && resultStored && IsTime(startAt) && IsTime(endAt)
    requires forall i :: 0 <= i < |others| && others[i].event.host == h ==> others[i].stored && IsTime(others[i].event.at)
    ensures var notes := BackupNotes(job, success, startAt, endAt, startStored, resultStored, others);
            Agree(Replay(hosts, EventsOf(notes)), StoreAfter(hosts, store, notes), h)
  {
    NotesKeepAgreement(hosts, store, BackupNotes(job, success, startAt, endAt, startStored, resultStored, others), h);
  }
}
