/** The worker pool as a transition system: every interleaving of enqueuers, workers and resizes. */
module Pool {
  import opened Sequences

  const MAX_PARALLELITY := 255
  const JOB_QUEUE_SIZE := 16

  /** What happens to the jobs. Each Enqueue call carries its own ticket, counted up from 0. */
  datatype Jobs = Jobs(
    calls: nat,               // Enqueue calls so far
    blocked: set<nat>,        // tickets of callers still waiting to send
    sent: seq<nat>,           // tickets in the order the channel took them
    buffer: seq<nat>,         // the channel
    started: seq<nat>,        // tickets in the order workers took them
    running: map<nat, nat>,   // worker -> ticket
    done: seq<nat>,           // tickets in the order they finished
    jobGroup: int)
  {
    function Call(): Jobs {
      this.(calls := calls + 1, blocked := blocked + {calls}, jobGroup := jobGroup + 1)
    }

    function Take(t: nat): Jobs {
      this.(blocked := blocked - {t}, sent := sent + [t], buffer := buffer + [t])
    }

    function Start(w: nat): Jobs
      requires buffer != []
    {
      this.(buffer := buffer[1..], started := started + [buffer[0]], running := running[w := buffer[0]])
    }

    function End(w: nat): Jobs
      requires w in running
    {
      this.(running := running - {w}, done := done + [running[w]], jobGroup := jobGroup - 1)
    }

    ghost predicate SentOnce() {
      && Distinct(sent)
      && (forall t :: t in sent ==> t < calls && t !in blocked)
      && (forall t :: t in blocked ==> t < calls)
      && (forall t: nat :: t < calls ==> t in blocked || t in sent)
    }

    ghost predicate Flow() {
      sent == started + buffer && |buffer| <= JOB_QUEUE_SIZE
    }

    ghost predicate StartedOnce() {
      && Distinct(done)
      && (forall t :: t in done ==> t in started)
      && (forall w :: w in running ==> running[w] in started && running[w] !in done)
      && (forall v, w :: v in running && w in running && v != w ==> running[v] != running[w])
      && (forall t :: t in started ==> t in done || WithWorker(t))
    }

    ghost predicate WithWorker(t: nat) {
      exists w :: w in running && running[w] == t
    }

    ghost predicate Counted() {
      jobGroup == |blocked| + |buffer| + |running|
    }

    ghost predicate Inv() {
      SentOnce() && Flow() && StartedOnce() && Counted()
    }
  }

  /** What happens to the workers, numbered in the order they register. */
  datatype Staff = Staff(
    registered: seq<nat>,     // workers in the slice
    retiring: set<nat>,       // quit channel closed, not yet exited
    exited: set<nat>,
    pending: nat,             // spawned, not yet registered
    next: nat,
    workerGroup: int)
  {
    predicate Alive(w: nat) {
      w in registered || w in retiring
    }

    function Leave(w: nat): Staff {
      this.(retiring := retiring - {w}, exited := exited + {w}, workerGroup := workerGroup - 1)
    }

    function Register(): Staff
      requires pending > 0
    {
      this.(pending := pending - 1, registered := registered + [next], next := next + 1)
    }

    function Shrink(diff: nat): Staff
      requires diff <= |registered|
    {
      this.(registered := registered[diff..], retiring := retiring + Elements(registered[..diff]))
    }

    function Grow(missing: nat): Staff {
      this.(pending := pending + missing, workerGroup := workerGroup + missing)
    }

    function Resize(newSize: int): Staff {
      var n := Clamp(newSize);
      if |registered| > n then Shrink(|registered| - n) else Grow(n - |registered|)
    }

    /** The slice always holds the youngest workers, in the order they registered. */
    ghost predicate Youngest() {
      && |registered| <= next
      && forall i :: 0 <= i < |registered| ==> registered[i] == next - |registered| + i
    }

    /** Everyone older has been told to go, and has either gone or not. */
    ghost predicate OlderDismissed() {
      && (forall w :: w in retiring ==> w < next - |registered| && w !in exited)
      && (forall w :: w in exited ==> w < next - |registered|)
    }

    ghost predicate Inv() {
      Youngest() && OlderDismissed() && workerGroup == |registered| + |retiring| + pending
    }
  }

  datatype State = State(jobs: Jobs, staff: Staff)

  const INITIAL := State(Jobs(0, {}, [], [], [], map[], [], 0), Staff([0], {}, {}, 0, 1, 1))

  datatype Action =
    | Enqueue               // jobGroup.Add(1); the caller now waits for the channel
    | Send(ticket: nat)     // the channel takes a waiting caller's job
    | Receive(worker: nat)
    | Finish(worker: nat)   // PerformBackup returned; jobGroup.Done()
    | Exit(worker: nat)     // the worker saw its quit channel closed
    | Register              // a spawned newWorker got the lock
    | Resize(newSize: int)

  /** Negative sizes count as 1, but 0 stays 0, and nothing exceeds 255. */
  function Clamp(newSize: int): (n: nat)
    ensures n <= 255 && (n == 0 <==> newSize == 0)
    ensures newSize < 0 ==> n == 1
    ensures newSize > 255 ==> n == 255
    ensures 0 <= newSize <= 255 ==> n == newSize
  {
    if newSize < 0 then 1 else if newSize > MAX_PARALLELITY then MAX_PARALLELITY else newSize
  }

  function Elements(s: seq<nat>): set<nat> {
    set x | x in s
  }

  predicate Enabled(s: State, a: Action) {
    match a
    case Enqueue => true
    case Send(t) => t in s.jobs.blocked && |s.jobs.buffer| < JOB_QUEUE_SIZE
    case Receive(w) => s.staff.Alive(w) && w !in s.jobs.running && s.jobs.buffer != []
    case Finish(w) => w in s.jobs.running
    case Exit(w) => w in s.staff.retiring && w !in s.jobs.running
    case Register => s.staff.pending > 0
    case Resize(_) => true
  }

  function Next(s: State, a: Action): State
    requires Enabled(s, a)
  {
    match a
    case Enqueue => s.(jobs := s.jobs.Call())
    case Send(t) => s.(jobs := s.jobs.Take(t))
    case Receive(w) => s.(jobs := s.jobs.Start(w))
    case Finish(w) => s.(jobs := s.jobs.End(w))
    case Exit(w) => s.(staff := s.staff.Leave(w))
    case Register => s.(staff := s.staff.Register())
    case Resize(newSize) => s.(staff := s.staff.Resize(newSize))
  }

  /** `actions[i]` leads from `states[i]` to `states[i + 1]`. */
  ghost predicate IsRun(states: seq<State>, actions: seq<Action>) {
    && |states| == |actions| + 1
    && forall i :: 0 <= i < |actions| ==> Enabled(states[i], actions[i]) && states[i + 1] == Next(states[i], actions[i])
  }

  // ---------------------------------------------------------------------
  // Invariant

  ghost predicate Inv(s: State) {
    s.jobs.Inv() && s.staff.Inv() && forall w :: w in s.jobs.running ==> s.staff.Alive(w)
  }

  lemma SameWork(j: Jobs, j': Jobs)
    requires j.StartedOnce() && j'.started == j.started && j'.running == j.running && j'.done == j.done
    ensures j'.StartedOnce()
  {
    assert forall t :: j.WithWorker(t) ==> j'.WithWorker(t);
  }

  lemma CallSent(j: Jobs)
    requires j.SentOnce()
    ensures j.Call().SentOnce() && j.calls !in j.blocked
  {
    var j' := j.Call();
    forall t: nat | t < j'.calls ensures t in j'.blocked || t in j'.sent {
      assert t < j.calls ==> t in j.blocked || t in j.sent;
    }
  }

  lemma CallKeeps(j: Jobs)
    requires j.Inv()
    ensures j.Call().Inv()
  {
    SameWork(j, j.Call());
    CallSent(j);
    assert |j.blocked + {j.calls}| == |j.blocked| + 1;
  }

  lemma TakeKeeps(j: Jobs, t: nat)
    requires j.Inv() && t in j.blocked && |j.buffer| < JOB_QUEUE_SIZE
    ensures j.Take(t).Inv()
  {
    SameWork(j, j.Take(t));
    assert j.Take(t).SentOnce();
  }

  lemma HeadIsFresh(j: Jobs)
    requires j.SentOnce() && j.Flow() && j.buffer != []
    ensures j.buffer[0] !in j.started
  {
    assert j.sent[|j.started|] == j.buffer[0];
    assert forall i :: 0 <= i < |j.started| ==> j.sent[i] == j.started[i];
  }

  lemma StartKeeps(j: Jobs, w: nat)
    requires j.Inv() && j.buffer != [] && w !in j.running
    ensures j.Start(w).Inv()
  {
    HeadIsFresh(j);
    var j', t := j.Start(w), j.buffer[0];
    assert j'.Flow() by { assert j.buffer == [t] + j.buffer[1..]; }
    assert j'.running[w] == t;
    forall u | u in j'.started ensures u in j'.done || j'.WithWorker(u) {
      if u != t && j.WithWorker(u) {
        var v :| v in j.running && j.running[v] == u;
        assert j'.running[v] == u;
      }
    }
  }

  lemma EndCounts(j: Jobs, w: nat)
    requires w in j.running
    ensures |j.running - {w}| == |j.running| - 1
  {
    assert (j.running - {w}).Keys == j.running.Keys - {w};
    assert |j.running - {w}| == |(j.running - {w}).Keys|;
  }

  lemma EndKeeps(j: Jobs, w: nat)
    requires j.Inv() && w in j.running
    ensures j.End(w).Inv()
  {
    EndCounts(j, w);
    EndStarted(j, w);
    assert j.End(w).SentOnce() && j.End(w).Flow();
  }

  lemma EndStarted(j: Jobs, w: nat)
    requires j.StartedOnce() && w in j.running
    ensures j.End(w).StartedOnce()
  {
    var j' := j.End(w);
    forall u | u in j'.started ensures u in j'.done || j'.WithWorker(u) {
      if u != j.running[w] && j.WithWorker(u) {
        var v :| v in j.running && j.running[v] == u;
        assert j'.running[v] == u;
      }
    }
  }

  lemma {:induction false} ElementsCount(s: seq<nat>)
    requires Distinct(s)
    ensures |Elements(s)| == |s|
  {
    if s != [] {
      ElementsCount(s[1..]);
      assert Elements(s) == {s[0]} + Elements(s[1..]);
    } else {
      assert Elements(s) == {};
    }
  }

  /** Still sound, and nobody who was alive is gone. */
  ghost predicate SoundFrom(st: Staff, st': Staff) {
    st'.Inv() && forall w :: st.Alive(w) ==> st'.Alive(w)
  }

  lemma ShrinkKeeps(st: Staff, diff: nat)
    requires st.Inv() && diff <= |st.registered|
    ensures SoundFrom(st, st.Shrink(diff))
  {
    var surplus := st.registered[..diff];
    ElementsCount(surplus);
    assert st.retiring !! Elements(surplus);
    assert |st.retiring + Elements(surplus)| == |st.retiring| + diff;
    forall w | st.Alive(w) ensures st.Shrink(diff).Alive(w) {
      if w in st.registered {
        var i :| 0 <= i < |st.registered| && st.registered[i] == w;
        assert if i < diff then surplus[i] == w else st.registered[diff..][i - diff] == w;
      }
    }
  }

  lemma LeaveKeeps(st: Staff, w: nat)
    requires st.Inv() && w in st.retiring
    ensures st.Leave(w).Inv() && forall v :: v != w ==> st.Alive(v) ==> st.Leave(w).Alive(v)
  {
  }

  lemma RegisterKeeps(st: Staff)
    requires st.Inv() && st.pending > 0
    ensures SoundFrom(st, st.Register())
  {
    assert forall w :: w in st.registered ==> w in st.Register().registered;
  }

  lemma GrowKeeps(st: Staff, missing: nat)
    requires st.Inv()
    ensures SoundFrom(st, st.Grow(missing))
  {
  }

  lemma ResizeKeeps(st: Staff, newSize: int)
    requires st.Inv()
    ensures SoundFrom(st, st.Resize(newSize))
  {
    if |st.registered| > Clamp(newSize) {
      ResizeShrinks(st, newSize);
    } else {
      ResizeGrows(st, newSize);
    }
  }

  lemma ResizeShrinks(st: Staff, newSize: int)
    requires st.Inv() && |st.registered| > Clamp(newSize)
    ensures SoundFrom(st, st.Resize(newSize))
  {
    var diff := |st.registered| - Clamp(newSize);
    assert SoundFrom(st, st.Shrink(diff)) by {
      ShrinkKeeps(st, diff);
    }
    assert st.Resize(newSize) == st.Shrink(diff);
  }

  lemma ResizeGrows(st: Staff, newSize: int)
    requires st.Inv() && |st.registered| <= Clamp(newSize)
    ensures SoundFrom(st, st.Resize(newSize))
  {
    GrowKeeps(st, Clamp(newSize) - |st.registered|);
  }

  /** No step, in any interleaving, breaks the pool. */
  lemma InvKept(s: State, a: Action)
    requires Inv(s) && Enabled(s, a)
    ensures Inv(Next(s, a))
  {
    match a
    case Enqueue => CallKeeps(s.jobs);
    case Send(t) => TakeKeeps(s.jobs, t);
    case Receive(w) => StartKeeps(s.jobs, w);
    case Finish(w) => EndKeeps(s.jobs, w);
    case Exit(w) => LeaveKeeps(s.staff, w);
    case Register => RegisterKeeps(s.staff);
    case Resize(n) => ResizeKeeps(s.staff, n);
  }

  lemma {:induction false} RunInv(states: seq<State>, actions: seq<Action>, i: nat)
    requires IsRun(states, actions) && Inv(states[0]) && i < |states|
    ensures Inv(states[i])
  {
    if i > 0 {
      RunInv(states, actions, i - 1);
      InvKept(states[i - 1], actions[i - 1]);
    }
  }

  // ---------------------------------------------------------------------
  // Conservation

  /** In how many places a ticket is: waiting, buffered, with a worker, or done. */
  ghost function Places(s: State, t: nat): nat {
    (if t in s.jobs.blocked then 1 else 0) + multiset(s.jobs.buffer)[t]
    + |set w | w in s.jobs.running && s.jobs.running[w] == t| + multiset(s.jobs.done)[t]
  }

  lemma {:induction false} DistinctCount(s: seq<nat>, t: nat)
    requires Distinct(s)
    ensures multiset(s)[t] == if t in s then 1 else 0
  {
    if s != [] {
      var last := s[|s| - 1];
      DistinctCount(s[..|s| - 1], t);
      assert s == s[..|s| - 1] + [last];
    }
  }

  lemma RunningCount(s: State, t: nat)
    requires s.jobs.StartedOnce()
    ensures |set w | w in s.jobs.running && s.jobs.running[w] == t| ==
            if exists w :: w in s.jobs.running && s.jobs.running[w] == t then 1 else 0
  {
    if w :| w in s.jobs.running && s.jobs.running[w] == t {
      assert (set v | v in s.jobs.running && s.jobs.running[v] == t) == {w};
    } else {
      assert (set v | v in s.jobs.running && s.jobs.running[v] == t) == {};
    }
  }

  lemma OnePlace(s: State, t: nat)
    requires Inv(s)
    ensures Places(s, t) == if t < s.jobs.calls then 1 else 0
  {
    RunningCount(s, t);
    DistinctCount(s.jobs.done, t);
    BufferCount(s, t);
  }

  lemma BufferCount(s: State, t: nat)
    requires s.jobs.SentOnce() && s.jobs.Flow()
    ensures multiset(s.jobs.buffer)[t] == if t in s.jobs.buffer then 1 else 0
    ensures t in s.jobs.sent <==> t in s.jobs.started || t in s.jobs.buffer
    ensures !(t in s.jobs.started && t in s.jobs.buffer)
  {
    assert forall i :: 0 <= i < |s.jobs.buffer| ==> s.jobs.buffer[i] == s.jobs.sent[|s.jobs.started| + i];
    DistinctCount(s.jobs.buffer, t);
    if t in s.jobs.buffer {
      var i :| 0 <= i < |s.jobs.buffer| && s.jobs.buffer[i] == t;
      assert s.jobs.sent[|s.jobs.started| + i] == t;
      assert forall j :: 0 <= j < |s.jobs.started| ==> s.jobs.sent[j] == s.jobs.started[j];
    }
  }

  /** At every moment of every run each enqueued job is in exactly one place, the job group counts the
      unfinished ones, and the channel is first-in first-out and never over its capacity. */
  lemma Conservation(states: seq<State>, actions: seq<Action>, i: nat)
    requires IsRun(states, actions) && states[0] == INITIAL && i < |states|
    ensures var s := states[i];
            && (forall t: nat :: Places(s, t) == if t < s.jobs.calls then 1 else 0)
            && s.jobs.jobGroup == |s.jobs.blocked| + |s.jobs.buffer| + |s.jobs.running|
            && s.jobs.sent == s.jobs.started + s.jobs.buffer && |s.jobs.buffer| <= 16
  {
    RunInv(states, actions, i);
    forall t: nat ensures Places(states[i], t) == if t < states[i].jobs.calls then 1 else 0 {
      OnePlace(states[i], t);
    }
  }

  /** Every worker is spawned, registered, retiring or exited, and no quit channel is closed twice:
      what a Resize closes is open, registered and distinct. */
  lemma WorkersAccounted(states: seq<State>, actions: seq<Action>, i: nat)
    requires IsRun(states, actions) && states[0] == INITIAL && i < |states|
    ensures var s := states[i];
            && s.staff.workerGroup == |s.staff.registered| + |s.staff.retiring| + s.staff.pending
            && Distinct(s.staff.registered)
            && (forall w :: w in s.staff.registered ==> w !in s.staff.retiring && w !in s.staff.exited)
            && s.staff.retiring !! s.staff.exited
  {
    RunInv(states, actions, i);
  }

  lemma {:induction false} HistoryGrows(states: seq<State>, actions: seq<Action>, i: nat, j: nat)
    requires IsRun(states, actions) && i <= j < |states|
    ensures states[i].jobs.calls <= states[j].jobs.calls && states[i].jobs.done <= states[j].jobs.done
  {
    if i < j {
      HistoryGrows(states, actions, i, j - 1);
      assert states[j - 1].jobs.done <= states[j].jobs.done;
    }
  }

  /** Wait: once the job group has been seen at zero, every job enqueued before has been performed, once. */
  lemma WaitMeansDone(states: seq<State>, actions: seq<Action>, called: nat, zero: nat, later: nat, t: nat)
    requires IsRun(states, actions) && states[0] == INITIAL && called <= zero <= later < |states|
    requires states[zero].jobs.jobGroup == 0 && t < states[called].jobs.calls
    ensures multiset(states[later].jobs.done)[t] == 1
  {
    RunInv(states, actions, zero);
    RunInv(states, actions, later);
    HistoryGrows(states, actions, called, zero);
    HistoryGrows(states, actions, zero, later);
    OnePlace(states[zero], t);
    AllDone(states[zero]);
    assert t in states[zero].jobs.done;
    assert t in states[later].jobs.done;
    DistinctCount(states[later].jobs.done, t);
  }

  lemma AllDone(s: State)
    requires Inv(s) && s.jobs.jobGroup == 0
    ensures s.jobs.blocked == {} && s.jobs.buffer == [] && s.jobs.running == map[]
    ensures forall t: nat :: t < s.jobs.calls ==> t in s.jobs.done
  {
    assert |s.jobs.blocked| == 0 && |s.jobs.running| == 0;
    assert s.jobs.sent == s.jobs.started;
    assert forall t :: !s.jobs.WithWorker(t);
  }

  // ---------------------------------------------------------------------
  // Progress

  /** Steps the pool takes on its own, given that backups terminate. */
  predicate Internal(a: Action) {
    !a.Enqueue? && !a.Resize?
  }

  ghost predicate Stuck(s: State) {
    forall a :: Internal(a) ==> !Enabled(s, a)
  }

  ghost predicate Live(s: State) {
    |s.staff.registered| + s.staff.pending > 0
  }

  /** Jobs are left behind exactly when every worker is gone and the channel takes nothing more. */
  lemma StuckExactly(s: State)
    requires Inv(s) && s.jobs.jobGroup > 0
    ensures Stuck(s) <==> s.staff.workerGroup == 0 && (s.jobs.blocked == {} || |s.jobs.buffer| == JOB_QUEUE_SIZE)
  {
    if s.staff.workerGroup == 0 {
      assert s.staff.registered == [] && |s.staff.retiring| == 0;
      assert s.staff.retiring == {};
      if t :| t in s.jobs.blocked {
        assert Enabled(s, Send(t)) <==> |s.jobs.buffer| < JOB_QUEUE_SIZE;
      }
    } else if Stuck(s) {
      assert !Enabled(s, Register);
      if w :| w in s.jobs.running {
        assert Enabled(s, Finish(w));
      } else if w :| w in s.staff.retiring {
        assert Enabled(s, Exit(w));
      } else {
        assert |s.jobs.running| == 0 && |s.staff.retiring| == 0;
        assert !Enabled(s, Receive(s.staff.registered[0]));
        var t :| t in s.jobs.blocked;
        assert Enabled(s, Send(t));
      }
    }
  }

  /** Whether a worker remains or is on its way after a Resize: always, unless the size was 0
      and nothing was being spawned. */
  lemma ResizeKeepsLive(s: State, newSize: int)
    ensures Live(Next(s, Resize(newSize))) <==> newSize != 0 || s.staff.pending > 0
  {
  }

  lemma {:induction false} RunLive(states: seq<State>, actions: seq<Action>, i: nat)
    requires IsRun(states, actions) && Live(states[0]) && i < |states|
    requires forall k :: 0 <= k < |actions| ==> actions[k] != Resize(0)
    ensures Live(states[i])
  {
    if i > 0 {
      RunLive(states, actions, i - 1);
    }
  }

  /** Deadlock freedom: without a Resize to 0, some step is possible as long as a job is unfinished. */
  lemma NeverStuck(states: seq<State>, actions: seq<Action>, i: nat)
    requires IsRun(states, actions) && states[0] == INITIAL && i < |states|
    requires forall k :: 0 <= k < |actions| ==> actions[k] != Resize(0)
    requires states[i].jobs.jobGroup > 0
    ensures !Stuck(states[i])
  {
    RunInv(states, actions, i);
    RunLive(states, actions, i);
    StuckExactly(states[i]);
  }

  function Measure(s: State): nat {
    3 * |s.jobs.blocked| + 2 * |s.jobs.buffer| + |s.jobs.running| + |s.staff.retiring| + s.staff.pending
  }

  lemma Decreases(s: State, a: Action)
    requires Inv(s) && Enabled(s, a) && Internal(a)
    ensures Measure(Next(s, a)) < Measure(s)
  {
    if a.Finish? {
      EndCounts(s.jobs, a.worker);
    }
  }

  lemma {:induction false} MeasureBounds(states: seq<State>, actions: seq<Action>, i: nat)
    requires IsRun(states, actions) && Inv(states[0]) && i < |states|
    requires forall k :: 0 <= k < |actions| ==> Internal(actions[k])
    ensures i + Measure(states[i]) <= Measure(states[0])
  {
    if i > 0 {
      MeasureBounds(states, actions, i - 1);
      RunInv(states, actions, i - 1);
      Decreases(states[i - 1], actions[i - 1]);
    }
  }

  lemma {:induction false} InternalKeepsLive(states: seq<State>, actions: seq<Action>, i: nat)
    requires IsRun(states, actions) && Live(states[0]) && i < |states|
    requires forall k :: 0 <= k < |actions| ==> Internal(actions[k])
    ensures Live(states[i]) && states[i].jobs.calls == states[0].jobs.calls
  {
    if i > 0 {
      InternalKeepsLive(states, actions, i - 1);
    }
  }

  /** Termination: once enqueues and resizes stop, the pool takes a bounded number of steps, and where it
      comes to rest every job ever enqueued is done and every retired worker has exited. */
  lemma RunsDry(states: seq<State>, actions: seq<Action>)
    requires IsRun(states, actions) && Inv(states[0]) && Live(states[0])
    requires forall k :: 0 <= k < |actions| ==> Internal(actions[k])
    ensures |actions| <= Measure(states[0])
    ensures var s := states[|actions|];
            Stuck(s) ==>
              && s.jobs.jobGroup == 0 && (forall t: nat :: t < states[0].jobs.calls ==> t in s.jobs.done)
              && s.staff.retiring == {} && s.staff.pending == 0 && s.staff.workerGroup == |s.staff.registered|
  {
    var s := states[|actions|];
    MeasureBounds(states, actions, |actions|);
    RunInv(states, actions, |actions|);
    InternalKeepsLive(states, actions, |actions|);
    if Stuck(s) {
      if s.jobs.jobGroup > 0 {
        StuckExactly(s);
      }
      AllDone(s);
      assert !Enabled(s, Register);
      if w :| w in s.staff.retiring {
        assert Enabled(s, Exit(w));
      }
    }
  }

  // ---------------------------------------------------------------------
  // Stranded jobs

  /** Left to itself, with no further Enqueue or Resize, the pool may come to rest with jobs unfinished. */
  ghost predicate MayStrand(s: State) {
    exists states, actions :: Strands(s, states, actions)
  }

  ghost predicate Strands(s: State, states: seq<State>, actions: seq<Action>) {
    && IsRun(states, actions) && states[0] == s && (forall k :: 0 <= k < |actions| ==> Internal(actions[k]))
    && Stuck(states[|actions|]) && states[|actions|].jobs.jobGroup > 0
  }

  predicate Waiting(s: State) {
    s.jobs.blocked != {} || s.jobs.buffer != []
  }

  lemma OneStepBefore(s: State, a: Action, states: seq<State>, actions: seq<Action>)
    requires Internal(a) && Enabled(s, a) && Strands(Next(s, a), states, actions)
    ensures Strands(s, [s] + states, [a] + actions)
  {
    var all, acts := [s] + states, [a] + actions;
    forall i | 0 <= i < |acts| ensures Enabled(all[i], acts[i]) && all[i + 1] == Next(all[i], acts[i]) {
      assert i > 0 ==> all[i] == states[i - 1] && acts[i] == actions[i - 1];
    }
  }

  /** Without a worker in the slice or on its way: let the busy ones finish, all retiring ones quit before they
      look at the channel, and callers fill the channel. Nobody is left to empty it. */
  lemma {:induction false} StrandWaiting(s: State) returns (states: seq<State>, actions: seq<Action>)
    requires Inv(s) && !Live(s) && Waiting(s)
    ensures Strands(s, states, actions)
    decreases Measure(s)
  {
    var step: Action;
    if w :| w in s.jobs.running {
      step := Finish(w);
    } else if w :| w in s.staff.retiring {
      step := Exit(w);
    } else if t :| t in s.jobs.blocked && |s.jobs.buffer| < JOB_QUEUE_SIZE {
      step := Send(t);
    } else {
      assert |s.staff.retiring| == 0;
      assert |s.jobs.blocked| + |s.jobs.buffer| > 0;
      StuckExactly(s);
      return [s], [];
    }
    InvKept(s, step);
    Decreases(s, step);
    states, actions := StrandWaiting(Next(s, step));
    OneStepBefore(s, step, states, actions);
    states, actions := [s] + states, [step] + actions;
  }

  lemma {:induction false} NothingWaits(states: seq<State>, actions: seq<Action>, i: nat)
    requires IsRun(states, actions) && !Waiting(states[0]) && i < |states|
    requires forall k :: 0 <= k < |actions| ==> Internal(actions[k])
    ensures !Waiting(states[i])
  {
    if i > 0 {
      NothingWaits(states, actions, i - 1);
    }
  }

  lemma NothingLeft(s: State)
    requires Inv(s) && Stuck(s) && !Waiting(s)
    ensures s.jobs.jobGroup == 0
  {
    assert forall w :: w in s.jobs.running ==> Enabled(s, Finish(w));
    assert |s.jobs.running| == 0;
  }

  /** Left to itself, the pool may strand a job exactly when no worker is in the slice or on its way
      and some job has not been started yet. */
  lemma StrandsExactly(s: State)
    requires Inv(s)
    ensures MayStrand(s) <==> !Live(s) && Waiting(s)
  {
    if !Live(s) && Waiting(s) {
      var states, actions := StrandWaiting(s);
    }
    if states: seq<State>, actions: seq<Action> :| Strands(s, states, actions) {
      if Live(s) {
        RunsDry(states, actions);
      } else if !Waiting(s) {
        NothingWaits(states, actions, |actions|);
        RunInv(states, actions, |actions|);
        NothingLeft(states[|actions|]);
      }
    }
  }

  /** The documentation promises at least one worker; a Resize to 0 keeps none, and a job enqueued
      afterwards is never performed. */
  lemma ResizeToZeroStrands() returns (states: seq<State>, actions: seq<Action>)
    ensures IsRun(states, actions) && states[0] == INITIAL && actions != [] && actions[0] == Resize(0)
    ensures var s := states[|states| - 1]; s.jobs.jobGroup == 1 && Stuck(s)
  {
    actions := [Resize(0), Exit(0), Enqueue, Send(0)];
    var s1 := Next(INITIAL, Resize(0));
    assert INITIAL.staff.registered[..1] == [0];
    assert 0 in s1.staff.retiring;
    var s2 := Next(s1, Exit(0));
    var s3 := Next(s2, Enqueue);
    var s4 := Next(s3, Send(0));
    states := [INITIAL, s1, s2, s3, s4];
    assert s4.staff.registered == [] && s4.staff.retiring == {};
  }

  // ---------------------------------------------------------------------
  // Size

  function Workers(s: State): nat {
    |s.staff.registered| + s.staff.pending
  }

  ghost predicate NoResize(actions: seq<Action>, from: nat, to: nat)
    requires from <= to <= |actions|
  {
    forall k :: from <= k < to ==> !actions[k].Resize?
  }

  /** Until the next Resize, the pool has the requested (clamped) number of workers plus those whose spawn
      was still pending when the Resize came: exactly the requested number iff none was. */
  lemma {:induction false} SizeAfterResize(states: seq<State>, actions: seq<Action>, at: nat, i: nat)
    requires IsRun(states, actions) && at < i < |states| && actions[at].Resize?
    requires NoResize(actions, at + 1, i)
    ensures Workers(states[i]) == Clamp(actions[at].newSize) + states[at].staff.pending
  {
    if i > at + 1 {
      SizeAfterResize(states, actions, at, i - 1);
    }
  }

  /** What a caller of Resize can check: until the next Resize, the pool may strand a job exactly when the
      argument was 0, no spawn was pending, and some job has not been started; in particular any Enqueue
      after such a Resize may be lost, and none after any other. */
  lemma ResizeStrandsExactly(states: seq<State>, actions: seq<Action>, at: nat, i: nat)
    requires IsRun(states, actions) && Inv(states[0]) && at < i < |states| && actions[at].Resize?
    requires NoResize(actions, at + 1, i)
    ensures var toNone := actions[at].newSize == 0 && states[at].staff.pending == 0;
            && (MayStrand(states[i]) <==> toNone && Waiting(states[i]))
            && (actions[i - 1].Enqueue? ==> (MayStrand(states[i]) <==> toNone))
  {
    RunInv(states, actions, i);
    SizeAfterResize(states, actions, at, i);
    StrandsExactly(states[i]);
  }

  /** The documentation promises the requested size; two calls in a row give more, because the second
      does not see the workers the first has spawned. */
  lemma ResizeTwiceOvershoots() returns (states: seq<State>, actions: seq<Action>)
    ensures IsRun(states, actions) && states[0] == INITIAL && actions == [Resize(3), Resize(3)]
    ensures Workers(states[1]) == 3 && Workers(states[2]) == 5 && states[2].staff.workerGroup == 5
  {
    actions := [Resize(3), Resize(3)];
    var once := Next(INITIAL, Resize(3));
    states := [INITIAL, once, Next(once, Resize(3))];
  }

  lemma RunningAreAlive(s: State)
    requires Inv(s)
    ensures |s.jobs.running| <= |s.staff.registered| + |s.staff.retiring|
  {
    var alive := Elements(s.staff.registered) + s.staff.retiring;
    ElementsCount(s.staff.registered);
    assert Elements(s.staff.registered) !! s.staff.retiring;
    assert |alive| == |s.staff.registered| + |s.staff.retiring|;
    assert s.jobs.running.Keys <= alive;
    Smaller(s.jobs.running.Keys, alive);
    assert |s.jobs.running.Keys| == |s.jobs.running|;
  }

  lemma {:induction false} Smaller(a: set<nat>, b: set<nat>)
    requires a <= b
    ensures |a| <= |b|
  {
    assert b == a + (b - a);
  }

  /** Parallelism: until the next Resize, no more jobs run at the same time than the (clamped) size asked for, the spawns
      that were pending then, and the retired workers that have not exited yet. */
  lemma ParallelBound(states: seq<State>, actions: seq<Action>, at: nat, i: nat)
    requires IsRun(states, actions) && Inv(states[0]) && at < i < |states| && actions[at].Resize?
    requires NoResize(actions, at + 1, i)
    ensures |states[i].jobs.running| <=
            Clamp(actions[at].newSize) + states[at].staff.pending + |states[i].staff.retiring|
  {
    RunInv(states, actions, i);
    RunningAreAlive(states[i]);
    SizeAfterResize(states, actions, at, i);
  }
}
