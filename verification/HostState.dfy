/** The in-memory state of all hosts and the property store behind it. */
module HostState {
  import opened Options
  import opened Sequences
  import opened Schedule
  import opened Metrics
  import opened Persistence
  import opened Restart

  /** The metrics of one host, updated in place. */
  class HostMetrics {
    var hasJob: bool
    var scheduledAt: Time
    var startedAt: Time
    var succeededAt: Option<Time>
    var successDuration: int
    var failedAt: Option<Time>
    var failureDuration: int
    var usedBySnapshots: nat
    var usedByDataset: nat
    var usedByChildren: nat
    var usedByRefReservation: nat

    function Value(): View
      reads this
    {
      View(hasJob, scheduledAt, startedAt, succeededAt, successDuration, failedAt, failureDuration,
           usedBySnapshots, usedByDataset, usedByChildren, usedByRefReservation)
    }

    constructor (scheduledAt: Time, startedAt: Time)
      ensures Value() == EMPTY.(scheduledAt := scheduledAt, startedAt := startedAt)
    {
      hasJob, this.scheduledAt, this.startedAt := false, scheduledAt, startedAt;
      succeededAt, successDuration, failedAt, failureDuration := None, 0, None, 0;
      usedBySnapshots, usedByDataset, usedByChildren, usedByRefReservation := 0, 0, 0, 0;
    }

    /** One entry of the decoder table: an invalid value leaves the field alone. */
    method Decode(p: Prop, value: string)
      modifies this
      ensures Value() == Decoded(old(Value()), p, value)
    {
      match ParseProp(p, value) {
        case None =>
        case Some(n) =>
          match p {
            case LastStart => startedAt := Scale(p, n);
            case SDate => succeededAt := Some(Scale(p, n));
            case SDuration => successDuration := Scale(p, n);
            case FDate => failedAt := Some(Scale(p, n));
            case FDuration => failureDuration := Scale(p, n);
            case UsedBySnapshots => usedBySnapshots := n;
            case UsedByDataset => usedByDataset := n;
            case UsedByChildren => usedByChildren := n;
            case UsedByRefReservation => usedByRefReservation := n;
          }
      }
    }
  }

  /** An event, and whether the `zfs set` that goes with it succeeded. */
  datatype Noted = Noted(event: Event, stored: bool)

  function EventsOf(notes: seq<Noted>): (events: seq<Event>)
    ensures |events| == |notes|
  {
    seq(|notes|, i requires 0 <= i < |notes| => notes[i].event)
  }

  /** The properties after an event whose `zfs set` may have failed. */
  function PersistIf(hosts: Hosts, store: Store, note: Noted): Store {
    if note.stored then Persist(hosts, store, note.event) else store
  }

  function StoreAfter(hosts: Hosts, store: Store, notes: seq<Noted>): Store {
    if notes == [] then store
    else
      var front, last := notes[..|notes| - 1], notes[|notes| - 1];
      PersistIf(Replay(hosts, EventsOf(front)), StoreAfter(hosts, store, front), last)
  }

  lemma NotesAppend(hosts: Hosts, store: Store, front: seq<Noted>, last: Noted)
    ensures Replay(hosts, EventsOf(front + [last])) == Apply(Replay(hosts, EventsOf(front)), last.event)
    ensures StoreAfter(hosts, store, front + [last]) ==
            PersistIf(Replay(hosts, EventsOf(front)), StoreAfter(hosts, store, front), last)
  {
    var events := EventsOf(front + [last]);
    assert events[..|front|] == EventsOf(front);
    assert (front + [last])[..|front|] == front;
  }

  lemma {:induction false} NotesConcat(hosts: Hosts, store: Store, a: seq<Noted>, b: seq<Noted>)
    ensures Replay(hosts, EventsOf(a + b)) == Replay(Replay(hosts, EventsOf(a)), EventsOf(b))
    ensures StoreAfter(hosts, store, a + b) == StoreAfter(Replay(hosts, EventsOf(a)), StoreAfter(hosts, store, a), b)
  {
    hide Apply, PersistIf;
    if b == [] {
      assert a + b == a;
    } else {
      var front, last := b[..|b| - 1], b[|b| - 1];
      NotesConcat(hosts, store, a, front);
      assert b == front + [last] && a + b == a + front + [last];
      NotesAppend(hosts, store, a + front, last);
      NotesAppend(Replay(hosts, EventsOf(a)), StoreAfter(hosts, store, a), front, last);
    }
  }

  lemma OneNote(hosts: Hosts, store: Store, note: Noted)
    ensures Replay(hosts, EventsOf([note])) == Apply(hosts, note.event)
    ensures StoreAfter(hosts, store, [note]) == PersistIf(hosts, store, note)
  {
    assert [] + [note] == [note];
    NotesAppend(hosts, store, [], note);
  }

  /** A host stays in agreement with its properties if every `zfs set` for it succeeds, whatever becomes of the others. */
  lemma {:induction false} NotesKeepAgreement(hosts: Hosts, store: Store, notes: seq<Noted>, h: string)
    requires Agree(hosts, store, h)
    requires forall i :: 0 <= i < |notes| && notes[i].event.host == h ==> notes[i].stored && IsTime(notes[i].event.at)
    ensures Agree(Replay(hosts, EventsOf(notes)), StoreAfter(hosts, store, notes), h)
  {
    if notes != [] {
      var front, last := notes[..|notes| - 1], notes[|notes| - 1];
      NotesKeepAgreement(hosts, store, front, h);
      assert notes == front + [last];
      NotesAppend(hosts, store, front, last);
      NoteKeepsAgreement(Replay(hosts, EventsOf(front)), StoreAfter(hosts, store, front), last, h);
    }
  }

  lemma NoteKeepsAgreement(hosts: Hosts, store: Store, note: Noted, h: string)
    requires Agree(hosts, store, h) && (note.event.host == h ==> note.stored && IsTime(note.event.at))
    ensures Agree(Apply(hosts, note.event), PersistIf(hosts, store, note), h)
  {
    if note.event.host == h {
      EventKeepsAgreement(hosts, store, note.event, h);
    } else {
      assert MemoryOf(Apply(hosts, note.event), h) == MemoryOf(hosts, h);
      assert PropsOf(PersistIf(hosts, store, note), h) == PropsOf(store, h);
    }
  }

  /** What becomes of a host depends on its own metrics and events alone. */
  lemma {:induction false} ReplayIsLocal(hosts: Hosts, other: Hosts, events: seq<Event>, h: string)
    requires (h in hosts <==> h in other) && MemoryOf(hosts, h) == MemoryOf(other, h)
    ensures (h in Replay(hosts, events) <==> h in Replay(other, events))
    ensures MemoryOf(Replay(hosts, events), h) == MemoryOf(Replay(other, events), h)
  {
    if events != [] {
      ReplayIsLocal(hosts, other, events[..|events| - 1], h);
    }
  }

  lemma {:induction false} ReplayKeepsHosts(hosts: Hosts, events: seq<Event>)
    ensures forall h :: h in hosts ==>
              h in Replay(hosts, events) && Replay(hosts, events)[h].scheduledAt == hosts[h].scheduledAt
  {
    if events != [] {
      ReplayKeepsHosts(hosts, events[..|events| - 1]);
    }
  }

  /** Rescheduling a host and an event of any host can change places, so it makes no difference whether
      an event falls before a rescheduling or after it. */
  lemma EventsPassReschedule(hosts: Hosts, h: string, at: Time, e: Event)
    requires h in hosts
    ensures h in Apply(hosts, e)
    ensures Apply(hosts[h := hosts[h].(scheduledAt := at)], e) ==
            Apply(hosts, e)[h := Apply(hosts, e)[h].(scheduledAt := at)]
  {
  }

  /** One line of `zfs get` for `host`. */
  function LoadInto(hosts: Hosts, host: string, dataset: string, line: string): Hosts {
    var cols := Columns(line);
    if |cols| == 3 && cols[0] == dataset && cols[2] != "-" && Decoder(cols[1]).Some?
    then hosts[host := LoadLine(MemoryOf(hosts, host), dataset, line)]
    else hosts
  }

  function LoadHostLines(hosts: Hosts, host: string, dataset: string, lines: seq<string>): Hosts {
    if lines == [] then hosts
    else LoadInto(LoadHostLines(hosts, host, dataset, lines[..|lines| - 1]), host, dataset, lines[|lines| - 1])
  }

  /** A known host ends up with its lines loaded; the other hosts keep their metrics. */
  lemma {:induction false} LoadKnownHost(hosts: Hosts, host: string, dataset: string, lines: seq<string>)
    requires host in hosts
    ensures LoadHostLines(hosts, host, dataset, lines) == hosts[host := LoadLines(hosts[host], dataset, lines)]
  {
    if lines != [] {
      LoadKnownHost(hosts, host, dataset, lines[..|lines| - 1]);
    }
  }

  lemma SetTwice(hosts: Hosts, host: string, first: View, second: View)
    ensures hosts[host := first][host] == first
    ensures hosts[host := first][host := second] == hosts[host := second]
  {
  }

  class State {
    var hosts: map<string, HostMetrics>
    var store: Store

    /** No two hosts share a record. */
    ghost predicate Valid()
      reads `hosts
    {
      forall g, h :: g in hosts && h in hosts && g != h ==> hosts[g] != hosts[h]
    }

    ghost function Views(): (views: Hosts)
      reads `hosts, hosts.Values
      ensures views.Keys == hosts.Keys
    {
      map h | h in hosts :: hosts[h].Value()
    }

    constructor ()
      ensures Valid() && Views() == map[] && store == map[]
    {
      hosts, store := map[], map[];
    }

    /** The record of a host, created empty if there is none. */
    method Entry(host: string) returns (m: HostMetrics)
      requires Valid()
      modifies `hosts
      ensures Valid() && fresh(hosts.Values - old(hosts.Values)) && host in hosts && hosts[host] == m
      ensures Views() == old(Views())[host := MemoryOf(old(Views()), host)]
    {
      if host !in hosts {
        var created := new HostMetrics(ZERO, ZERO);
        hosts := hosts[host := created];
      }
      m := hosts[host];
    }

    method MarkStarted(host: string, t: Time)
      requires Valid() && host in hosts
      modifies hosts[host]
      ensures Valid() && Views() == old(Views())[host := old(Views())[host].(startedAt := t)]
    {
      hosts[host].startedAt := t;
    }

    /** `zfs set`, which may fail and then leaves the properties alone. */
    method StoreStartTime(host: string, t: Time, zfsOk: bool)
      modifies `store
      ensures store == if zfsOk then old(store)[host := StoreStart(PropsOf(old(store), host), t)] else old(store)
    {
      if zfsOk {
        store := store[host := StoreStart(PropsOf(store, host), t)];
      }
    }

    method StoreOutcome(host: string, success: bool, t: Time, duration: int, zfsOk: bool)
      modifies `store
      ensures store == if zfsOk then old(store)[host := StoreResult(PropsOf(old(store), host), success, t, duration)]
                       else old(store)
    {
      if zfsOk {
        store := store[host := StoreResult(PropsOf(store, host), success, t, duration)];
      }
    }

    method Start(host: string, t: Time, zfsOk: bool)
      requires Valid()
      modifies this, hosts.Values
      ensures Valid() && fresh(hosts.Values - old(hosts.Values))
      ensures Views() == Apply(old(Views()), Event.Start(host, t))
      ensures store == if zfsOk then Persist(old(Views()), old(store), Event.Start(host, t)) else old(store)
    {
      var m := Entry(host);
      MarkStarted(host, t);
      SetTwice(old(Views()), host, MemoryOf(old(Views()), host), MemoryOf(old(Views()), host).(startedAt := t));
      assert Views() == Apply(old(Views()), Event.Start(host, t));
      hide Views, Apply;
      StoreStartTime(host, t, zfsOk);
    }

    method Success(host: string, t: Time, zfsOk: bool)
      requires Valid()
      modifies this, hosts.Values
      ensures Valid() && hosts == old(hosts)
      ensures Views() == Apply(old(Views()), Event.Result(host, true, t))
      ensures store == if zfsOk then Persist(old(Views()), old(store), Event.Result(host, true, t)) else old(store)
    {
      if host in hosts {
        var m := hosts[host];
        m.succeededAt := Some(t);
        m.successDuration := Truncate(Sub(t, m.startedAt), MILLISECOND);
        StoreOutcome(host, true, t, m.successDuration, zfsOk);
      }
    }

    method Failure(host: string, t: Time, zfsOk: bool)
      requires Valid()
      modifies this, hosts.Values
      ensures Valid() && hosts == old(hosts)
      ensures Views() == Apply(old(Views()), Event.Result(host, false, t))
      ensures store == if zfsOk then Persist(old(Views()), old(store), Event.Result(host, false, t)) else old(store)
    {
      if host in hosts {
        var m := hosts[host];
        m.failedAt := Some(t);
        m.failureDuration := Truncate(Sub(t, m.startedAt), MILLISECOND);
        StoreOutcome(host, false, t, m.failureDuration, zfsOk);
      }
    }

    /** An event noted by some worker. */
    method Note(note: Noted)
      requires Valid()
      modifies this, hosts.Values
      ensures Valid() && fresh(hosts.Values - old(hosts.Values))
      ensures Views() == Apply(old(Views()), note.event)
      ensures store == PersistIf(old(Views()), old(store), note)
    {
      match note.event {
        case Start(host, t) => Start(host, t, note.stored);
        case Result(host, success, t) =>
          if success {
            Success(host, t, note.stored);
          } else {
            Failure(host, t, note.stored);
          }
      }
    }

    /** What other workers note meanwhile. */
    method NoteAll(notes: seq<Noted>)
      requires Valid()
      modifies this, hosts.Values
      ensures Valid() && fresh(hosts.Values - old(hosts.Values))
      ensures Views() == Replay(old(Views()), EventsOf(notes))
      ensures store == StoreAfter(old(Views()), old(store), notes)
    {
      ghost var views, props := Views(), store;
      hide Apply, PersistIf, Views, Valid, EventsOf;
      for i := 0 to |notes|
        invariant Valid() && fresh(hosts.Values - old(hosts.Values))
        invariant Views() == Replay(views, EventsOf(notes[..i]))
        invariant store == StoreAfter(views, props, notes[..i])
      {
        Note(notes[i]);
        NotesAppend(views, props, notes[..i], notes[i]);
        assert notes[..i] + [notes[i]] == notes[..i + 1];
      }
      assert notes[..|notes|] == notes;
    }

    method Reschedule(host: string, daemon: Daemon, ref: Time, draw: nat)
      requires Valid() && daemon.schedule.Valid()
      modifies hosts.Values
      ensures Valid()
      ensures Views() == if host in old(Views())
                         then old(Views())[host := old(Views())[host].(scheduledAt := daemon.NextSchedule(ref, draw))]
                         else old(Views())
    {
      if host in hosts {
        var job := hosts[host];
        job.scheduledAt := daemon.NextSchedule(ref, draw);
      }
    }

    method LoadHost(host: string, dataset: string, lines: seq<string>)
      requires Valid()
      modifies this, hosts.Values
      ensures Valid() && fresh(hosts.Values - old(hosts.Values)) && store == old(store)
      ensures Views() == LoadHostLines(old(Views()), host, dataset, lines)
    {
      for i := 0 to |lines|
        invariant Valid() && fresh(hosts.Values - old(hosts.Values)) && store == old(store)
        invariant Views() == LoadHostLines(old(Views()), host, dataset, lines[..i])
      {
        assert lines[..i + 1][..i] == lines[..i];
        LoadOne(host, dataset, lines[i]);
      }
      assert lines[..|lines|] == lines;
    }

    method DecodeInto(host: string, p: Prop, value: string)
      requires Valid() && host in hosts
      modifies hosts[host]
      ensures Valid() && Views() == old(Views())[host := Decoded(old(Views())[host], p, value)]
    {
      hosts[host].Decode(p, value);
    }

    method LoadOne(host: string, dataset: string, line: string)
      requires Valid()
      modifies this, hosts.Values
      ensures Valid() && fresh(hosts.Values - old(hosts.Values)) && store == old(store)
      ensures Views() == LoadInto(old(Views()), host, dataset, line)
    {
      var cols := Columns(line);
      if |cols| != 3 || cols[0] != dataset || cols[2] == "-" {
        return;
      }
      var decoder := Decoder(cols[1]);
      if decoder.None? {
        return;
      }
      var m := Entry(host);
      DecodeInto(host, decoder.value, cols[2]);
      ghost var known := MemoryOf(old(Views()), host);
      SetTwice(old(Views()), host, known, Decoded(known, decoder.value, cols[2]));
    }

    /** Loading all configured hosts; a host whose dataset cannot be read keeps what it has. */
    method Load(daemon: Daemon, now: Time, draws: seq<nat>, root: string, names: seq<string>,
                listings: map<string, seq<string>>)
      requires Valid() && daemon.schedule.Valid() && |draws| == |names|
      modifies this, hosts.Values
      ensures Valid() && store == old(store)
      ensures Views() == LoadAll(old(Views()), Nexts(daemon, now, draws), root, names, listings, |names|)
    {
      LoadNames(Nexts(daemon, now, draws), root, names, listings);
    }

    method LoadNames(nexts: seq<Time>, root: string, names: seq<string>, listings: map<string, seq<string>>)
      requires Valid() && |nexts| == |names|
      modifies this, hosts.Values
      ensures Valid() && store == old(store)
      ensures Views() == LoadAll(old(Views()), nexts, root, names, listings, |names|)
    {
      ghost var before := Views();
      for i := 0 to |names|
        invariant Valid() && fresh(hosts.Values - old(hosts.Values)) && store == old(store)
        invariant Views() == LoadAll(before, nexts, root, names, listings, i)
      {
        LoadNamed(names[i], nexts[i], root, listings);
      }
    }

    /** The body of the loop for one host. */
    method LoadNamed(host: string, next: Time, root: string, listings: map<string, seq<string>>)
      requires Valid()
      modifies this, hosts.Values
      ensures Valid() && fresh(hosts.Values - old(hosts.Values)) && store == old(store)
      ensures Views() == LoadStep(old(Views()), host, next, root, listings)
    {
      Configure(host, next);
      if host in listings {
        LoadHost(host, Dataset(root, host), listings[host]);
      }
    }

    method Configure(host: string, next: Time)
      requires Valid()
      modifies this, hosts.Values
      ensures Valid() && fresh(hosts.Values - old(hosts.Values)) && store == old(store)
      ensures Views() == Configured(old(Views()), host, next)
    {
      if host !in hosts {
        var created := new HostMetrics(next, ZERO);
        hosts := hosts[host := created];
      }
      hosts[host].hasJob := true;
    }
  }

  /** `filepath.Join(RootDataset, host)` for names that are already clean. */
  function Dataset(root: string, host: string): string {
    root + "/" + host
  }

  function Configured(hosts: Hosts, host: string, next: Time): Hosts {
    hosts[host := (if host in hosts then hosts[host] else EMPTY.(scheduledAt := next)).(hasJob := true)]
  }

  function LoadStep(hosts: Hosts, host: string, next: Time, root: string, listings: map<string, seq<string>>): Hosts {
    var known := Configured(hosts, host, next);
    if host in listings then LoadHostLines(known, host, Dataset(root, host), listings[host]) else known
  }

  /** The schedule drawn for each host. */
  function Nexts(daemon: Daemon, now: Time, draws: seq<nat>): (nexts: seq<Time>)
    requires daemon.schedule.Valid()
    ensures |nexts| == |draws| && forall i :: 0 <= i < |draws| ==> nexts[i] == daemon.NextSchedule(now, draws[i])
  {
    seq(|draws|, i requires 0 <= i < |draws| => daemon.NextSchedule(now, draws[i]))
  }

  function LoadAll(hosts: Hosts, nexts: seq<Time>, root: string, names: seq<string>, listings: map<string, seq<string>>,
                   n: nat): Hosts
    requires n <= |names| == |nexts|
  {
    if n == 0 then hosts
    else LoadStep(LoadAll(hosts, nexts, root, names, listings, n - 1), names[n - 1], nexts[n - 1], root, listings)
  }

  /** The metrics a host starts with after a restart: a schedule, its job, and what its own listing holds. */
  function Restarted(next: Time, root: string, host: string, listings: map<string, seq<string>>): View {
    var blank := EMPTY.(scheduledAt := next, hasJob := true);
    if host in listings then LoadLines(blank, Dataset(root, host), listings[host]) else blank
  }

  lemma LoadNewHost(hosts: Hosts, host: string, next: Time, root: string, listings: map<string, seq<string>>)
    requires host !in hosts
    ensures LoadStep(hosts, host, next, root, listings) == hosts[host := Restarted(next, root, host, listings)]
  {
    var known := Configured(hosts, host, next);
    if host in listings {
      LoadKnownHost(known, host, Dataset(root, host), listings[host]);
    }
  }

  /** Loading into an empty state gives every configured host its own data, whatever the other hosts have. */
  lemma {:induction false} LoadAllHosts(nexts: seq<Time>, root: string, names: seq<string>,
                                        listings: map<string, seq<string>>, n: nat, h: string)
    requires n <= |names| == |nexts|
    requires Distinct(names)
    ensures h in LoadAll(map[], nexts, root, names, listings, n) <==> h in names[..n]
    ensures forall i :: 0 <= i < n && names[i] == h ==>
              h in LoadAll(map[], nexts, root, names, listings, n)
              && LoadAll(map[], nexts, root, names, listings, n)[h] == Restarted(nexts[i], root, h, listings)
  {
    if n > 0 {
      var before, host := LoadAll(map[], nexts, root, names, listings, n - 1), names[n - 1];
      LoadAllHosts(nexts, root, names, listings, n - 1, h);
      LoadAllHosts(nexts, root, names, listings, n - 1, host);
      assert names[..n] == names[..n - 1] + [host];
      assert host !in names[..n - 1];
      LoadNewHost(before, host, nexts[n - 1], root, listings);
    }
  }

  /** What ZFS lists for a host, under the root, a slash and its name: every property once, in some order, with text
      that holds no tab. */
  ghost predicate Listed(store: Store, root: string, h: string, listings: map<string, seq<string>>, order: seq<Prop>) {
    && h in listings && Plain(root + "/" + h) && PlainProps(PropsOf(store, h)) && AllOnce(order)
    && listings[h] == Listing(root + "/" + h, PropsOf(store, h), order)
  }

  /** Restart the daemon after any events: each configured host that agreed with its properties before them comes back
      with a new schedule, its times cut to seconds, its exact durations, and its status exactly if whole
      seconds resolve it; and it agrees with its properties again, ready for the next restart. */
  lemma RestartAll(hosts: Hosts, store: Store, events: seq<Event>, nexts: seq<Time>, root: string, names: seq<string>,
                   listings: map<string, seq<string>>, orders: seq<seq<Prop>>, i: nat)
    requires |names| == |nexts| == |orders| && Distinct(names) && i < |names|
    requires Agree(hosts, store, names[i]) && forall j :: 0 <= j < |events| ==> IsTime(events[j].at)
    requires PlainProps(PropsOf(store, names[i]))
    requires Listed(PersistAll(hosts, store, events), root, names[i], listings, orders[i])
    ensures var h, loaded := names[i], LoadAll(map[], nexts, root, names, listings, |names|);
            var before := MemoryOf(Replay(hosts, events), h);
            && (forall name :: name in loaded <==> name in names)
            && loaded[h].scheduledAt == nexts[i] && loaded[h].hasJob
            && (forall p: Prop :: !IsSize(p) ==> Get(loaded[h], p) == Get(Coarse(before), p))
            && (Status(loaded[h]) == Status(before) <==> Resolved(before))
            && Agree(loaded, PersistAll(hosts, store, events), h)
  {
    hide LoadLines, Listing, LoadAll, PersistAll, Replay, Status, Coarse, Resolved, Mirrors, Settings;
    var h, blank := names[i], EMPTY.(scheduledAt := nexts[i], hasJob := true);
    forall name ensures name in LoadAll(map[], nexts, root, names, listings, |names|) <==> name in names {
      LoadAllHosts(nexts, root, names, listings, |names|, name);
    }
    LoadAllHosts(nexts, root, names, listings, |names|, h);
    assert Blank(blank);
    RestartAnywhere(hosts, store, events, h, blank, root + "/" + h, orders[i]);
    LastLineWins(blank, root + "/" + h, listings[h], LastStart);
  }
}
