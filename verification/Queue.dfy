/** The queue object: a slice of quit channels over a backing array, a job channel and two wait groups. */
module Queue {
  import opened Pool

  /** A quit channel; closing it a second time would panic. */
  class QuitCh {
    ghost const worker: nat
    var open: bool

    constructor (ghost worker: nat)
      ensures this.worker == worker && open
    {
      this.worker := worker;
      open := true;
    }

    method Close()
      requires open
      modifies this
      ensures !open
    {
      open := false;
    }
  }

  class Queue {
    var slots: array<QuitCh?>   // backing array of `workers`
    var len: nat
    var jobs: seq<nat>
    var jobGroup: int
    var workerGroup: int

    ghost var quits: seq<QuitCh>   // the quit channel of every worker there ever was
    ghost var pool: State

    /** The slice holds the quit channels of the youngest workers; the rest of its backing array is nil. */
    ghost predicate SliceValid()
      reads this, slots
    {
      && len <= slots.Length && len <= |quits|
      && (forall i :: 0 <= i < len ==> slots[i] == quits[|quits| - len + i])
      && (forall i :: len <= i < slots.Length ==> slots[i] == null)
    }

    /** A quit channel is open exactly while its worker is in the slice. */
    ghost predicate QuitsValid()
      reads this, quits
    {
      forall w :: 0 <= w < |quits| ==> quits[w].worker == w && (quits[w].open <==> |quits| - len <= w)
    }

    ghost predicate Valid()
      reads this, slots, quits
    {
      && SliceValid() && QuitsValid()
      && |quits| == pool.staff.next && len == |pool.staff.registered|
      && jobs == pool.jobs.buffer && jobGroup == pool.jobs.jobGroup && workerGroup == pool.staff.workerGroup
    }

    constructor ()
      ensures Valid() && pool == INITIAL && fresh(slots) && fresh(quits)
      ensures slots.Length == 255 && len == 1 && jobs == [] && jobGroup == 0 && workerGroup == 1
    {
      var backing := new QuitCh?[MAX_PARALLELITY](_ => null);
      var quit := new QuitCh(0);
      backing[0] := quit;
      slots, len := backing, 1;
      jobs, jobGroup, workerGroup := [], 0, 1;
      quits := [quit];
      pool := INITIAL;
    }

    /** The first half of Enqueue: the call is counted and now waits for the channel. */
    method Enqueue()
      requires Valid()
      modifies `jobGroup, `pool
      ensures Valid() && pool == Next(old(pool), Action.Enqueue)
    {
      jobGroup := jobGroup + 1;
      pool := Next(pool, Action.Enqueue);
    }

    /** The second half: `q.jobs <- job` goes through. */
    method Send(job: nat)
      requires Valid() && Enabled(pool, Action.Send(job))
      modifies `jobs, `pool
      ensures Valid() && pool == Next(old(pool), Action.Send(job))
      ensures jobs == old(jobs) + [job]
    {
      jobs := jobs + [job];
      pool := Next(pool, Action.Send(job));
    }

    method Receive(worker: nat) returns (job: nat)
      requires Valid() && Enabled(pool, Action.Receive(worker))
      modifies `jobs, `pool
      ensures Valid() && pool == Next(old(pool), Action.Receive(worker))
      ensures [job] + jobs == old(jobs)
    {
      job := jobs[0];
      jobs := jobs[1..];
      pool := Next(pool, Action.Receive(worker));
    }

    method Finish(worker: nat)
      requires Valid() && Enabled(pool, Action.Finish(worker))
      modifies `jobGroup, `pool
      ensures Valid() && pool == Next(old(pool), Action.Finish(worker))
    {
      jobGroup := jobGroup - 1;
      pool := Next(pool, Action.Finish(worker));
    }

    /** The worker leaves its loop: it is idle and its own quit channel is closed. */
    method Exit(worker: nat)
      requires Valid() && Enabled(pool, Action.Exit(worker)) && pool.staff.Inv()
      modifies `workerGroup, `pool
      ensures Valid() && pool == Next(old(pool), Action.Exit(worker))
      ensures worker < |quits| && !quits[worker].open
    {
      workerGroup := workerGroup - 1;
      pool := Next(pool, Action.Exit(worker));
    }

    /** `append` moves a full slice to a larger backing array. */
    method MakeRoom(spare: nat)
      requires SliceValid()
      modifies `slots
      ensures SliceValid() && len < slots.Length
      ensures slots == old(slots) || (fresh(slots) && len == old(slots.Length))
    {
      if len == slots.Length {
        var larger := new QuitCh?[len + 1 + spare](i requires 0 <= i reads this, slots =>
          if i < len && i < slots.Length then slots[i] else null);
        slots := larger;
      }
    }

    /** newWorker: append a fresh quit channel. */
    method Register(spare: nat)
      requires Valid() && Enabled(pool, Action.Register)
      modifies `slots, `len, `quits, `pool, slots
      ensures Valid() && pool == Next(old(pool), Action.Register)
      ensures slots == old(slots) || (fresh(slots) && old(len) == old(slots.Length))
    {
      MakeRoom(spare);
      var quit := new QuitCh(|quits|);
      slots[len] := quit;
      len := len + 1;
      quits := quits + [quit];
      pool := Next(pool, Action.Register);
    }

    /** `close(quit)` for the first `diff` quit channels, each of which is still open. */
    method CloseOldest(diff: nat)
      requires SliceValid() && QuitsValid() && diff <= len
      modifies quits
      ensures forall w :: 0 <= w < |quits| ==> (quits[w].open <==> |quits| - len + diff <= w)
    {
      for i := 0 to diff
        invariant forall w :: 0 <= w < |quits| ==> (quits[w].open <==> |quits| - len + i <= w)
      {
        slots[i].Close();
      }
    }

    /** `copy(q.workers, q.workers[diff:])`. */
    method CopyDown(diff: nat)
      requires diff <= len <= slots.Length
      modifies slots
      ensures forall i :: 0 <= i < len - diff ==> slots[i] == old(slots[diff + i])
      ensures forall i :: len - diff <= i < slots.Length ==> slots[i] == old(slots[i])
    {
      for i := 0 to len - diff
        invariant forall j :: 0 <= j < i ==> slots[j] == old(slots[diff + j])
        invariant forall j :: i <= j < slots.Length ==> slots[j] == old(slots[j])
      {
        slots[i] := slots[i + diff];
      }
    }

    method ClearFrom(newSize: nat)
      requires newSize <= len <= slots.Length
      modifies slots
      ensures forall i :: 0 <= i < slots.Length ==> slots[i] == if newSize <= i < len then null else old(slots[i])
    {
      for i := newSize to len
        invariant forall j :: 0 <= j < slots.Length ==> slots[j] == if newSize <= j < i then null else old(slots[j])
      {
        slots[i] := null;
      }
    }

    /** The surplus branch of Resize: the oldest workers are told to quit and drop out of the slice. */
    method RemoveOldest(newSize: nat)
      requires SliceValid() && QuitsValid() && newSize < len
      modifies `len, slots, quits
      ensures SliceValid() && QuitsValid() && len == newSize
      ensures forall i :: 0 <= i < newSize ==> slots[i] == old(slots[len - newSize + i])
    {
      var diff := len - newSize;
      CloseOldest(diff);
      CopyDown(diff);
      ClearFrom(newSize);
      len := newSize;
    }

    /** Downwards: the backing array is what dropping the oldest workers leaves, in order, and (by Valid)
        nil from there to its end, and exactly their quit channels are closed. Upwards: only spawns. */
    method Resize(size: int)
      requires Valid()
      modifies `len, `workerGroup, `pool, slots, quits
      ensures Valid() && pool == Next(old(pool), Action.Resize(size))
      ensures old(len) > Clamp(size) ==> len == Clamp(size)
      ensures forall i :: 0 <= i < len < old(len) ==> slots[i] == old(slots[len - Clamp(size) + i])
      ensures old(len) <= Clamp(size) ==> len == old(len) && unchanged(slots) && unchanged(quits)
    {
      var newSize := if size < 0 then 1 else if size > MAX_PARALLELITY then MAX_PARALLELITY else size;
      var diff := len - newSize;
      if diff > 0 {
        RemoveOldest(newSize);
      } else if diff < 0 {
        workerGroup := workerGroup - diff;
      }
      pool := Next(pool, Action.Resize(size));
    }
  }
}
