/** What a restart brings back: storing, listing and reloading the metrics of a host. */
module Restart {
  import opened Options
  import opened Schedule
  import opened Decimal
  import opened Metrics
  import opened Persistence

  /** `t.Unix()`: whole seconds, rounded down. */
  function Unix(t: Time): int {
    t / SECOND
  }

  /** The seconds of a `time.Time` fit 64 bits. */
  predicate IsTime(t: Time) {
    IsInt64(Unix(t))
  }

  function StoreStart(props: Props, t: Time): Props {
    props[LAST_START := FormatInt(Unix(t))]
  }

  function StoreResult(props: Props, success: bool, t: Time, duration: int): Props {
    var (date, dur) := if success then (S_DATE, S_DURATION) else (F_DATE, F_DURATION);
    props[date := FormatInt(Unix(t))][dur := FormatInt(Quo(duration, MILLISECOND))]
  }

  // ---------------------------------------------------------------------
  // Round trips of single values

  function Stored(p: Prop, props: Props): Option<int> {
    if PropName(p) in props then ParseProp(p, props[PropName(p)]) else None
  }

  /** What a fresh process reads for the property. */
  function Held(p: Prop, props: Props): Option<int> {
    match Stored(p, props)
    case Some(n) => Some(Scale(p, n))
    case None => Get(EMPTY, p)
  }

  lemma TruncatedIsWhole(d: int)
    ensures Quo(Truncate(d, MILLISECOND), MILLISECOND) == Quo(d, MILLISECOND)
    ensures Quo(d, MILLISECOND) * MILLISECOND == Truncate(d, MILLISECOND)
  {
  }

  /** Durations come back exactly: a truncated 64-bit duration survives division, printing, parsing and
      the wrapping multiplication. */
  lemma DurationRoundTrip(d: int)
    requires IsInt64(d)
    ensures var kept := Truncate(d, MILLISECOND);
            && ParseInt(FormatInt(Quo(kept, MILLISECOND))) == Some(Quo(kept, MILLISECOND))
            && Wrap64(Quo(kept, MILLISECOND) * MILLISECOND) == kept
  {
    TruncatedIsWhole(d);
    ParseFormat(Quo(d, MILLISECOND));
  }

  function Floor(t: Time): Time {
    Unix(t) * SECOND
  }

  function FloorResult(t: Option<Time>): Option<Time> {
    match t { case None => None case Some(v) => Some(Floor(v)) }
  }

  /** The metrics at the precision of the store. */
  function Coarse(m: View): View {
    m.(startedAt := Floor(m.startedAt), succeededAt := FloorResult(m.succeededAt), failedAt := FloorResult(m.failedAt))
  }

  /** A fresh process would read from the store what is in memory. */
  ghost predicate Mirrors(m: View, props: Props) {
    forall p: Prop :: !IsSize(p) ==> Held(p, props) == Get(Coarse(m), p)
  }

  lemma NamesDiffer(p: Prop, q: Prop)
    requires p != q
    ensures PropName(p) != PropName(q)
  {
    DecoderNames(p);
    DecoderNames(q);
  }

  lemma StartMirrored(m: View, props: Props, t: Time)
    requires Mirrors(m, props) && IsTime(t)
    ensures Mirrors(m.(startedAt := t), StoreStart(props, t))
  {
    ParseFormat(Unix(t));
    forall p: Prop | !IsSize(p) ensures Held(p, StoreStart(props, t)) == Get(Coarse(m.(startedAt := t)), p) {
      assert Held(p, props) == Get(Coarse(m), p);
      if p != LastStart {
        NamesDiffer(p, LastStart);
      }
    }
  }

  lemma ResultMirrored(m: View, props: Props, success: bool, t: Time)
    requires Mirrors(m, props) && IsTime(t)
    ensures Mirrors(Finished(m, success, t), StoreResult(props, success, t, Elapsed(m, t)))
  {
    var (date, dur) := if success then (SDate, SDuration) else (FDate, FDuration);
    ParseFormat(Unix(t));
    DurationRoundTrip(Sub(t, m.startedAt));
    NamesDiffer(date, dur);
    forall p: Prop | !IsSize(p)
      ensures Held(p, StoreResult(props, success, t, Elapsed(m, t))) == Get(Coarse(Finished(m, success, t)), p)
    {
      assert Held(p, props) == Get(Coarse(m), p);
      if p != date { NamesDiffer(p, date); }
      if p != dur { NamesDiffer(p, dur); }
    }
  }

  // ---------------------------------------------------------------------
  // Memory and store over a run

  type Store = map<string, Props>

  function PropsOf(store: Store, h: string): Props {
    if h in store then store[h] else map[]
  }

  function MemoryOf(hosts: Hosts, h: string): View {
    if h in hosts then hosts[h] else EMPTY
  }

  /** The `zfs set` that goes with an event, given that it succeeds. */
  function Persist(hosts: Hosts, store: Store, e: Event): Store {
    match e
    case Start(h, t) => store[h := StoreStart(PropsOf(store, h), t)]
    case Result(h, success, t) =>
      if h in hosts then store[h := StoreResult(PropsOf(store, h), success, t, Elapsed(hosts[h], t))] else store
  }

  function PersistAll(hosts: Hosts, store: Store, events: seq<Event>): Store {
    if events == [] then store
    else
      var before, e := events[..|events| - 1], events[|events| - 1];
      Persist(Replay(hosts, before), PersistAll(hosts, store, before), e)
  }

  /** What a fresh process would read for the host is what is in memory. */
  ghost predicate Agree(hosts: Hosts, store: Store, h: string) {
    Mirrors(MemoryOf(hosts, h), PropsOf(store, h))
  }

  lemma EventKeepsAgreement(hosts: Hosts, store: Store, e: Event, h: string)
    requires Agree(hosts, store, h) && IsTime(e.at)
    ensures Agree(Apply(hosts, e), Persist(hosts, store, e), h)
  {
    if h == e.host {
      match e
      case Start(_, t) => StartMirrored(MemoryOf(hosts, h), PropsOf(store, h), t);
      case Result(_, success, t) =>
        if h in hosts { ResultMirrored(hosts[h], PropsOf(store, h), success, t); }
    }
  }

  /** If every `zfs set` succeeds, then after any sequence of starts and results of any hosts the store still
      holds exactly the metrics in memory, at the store's precision. */
  lemma {:induction false} MemoryAndStoreAgree(hosts: Hosts, store: Store, events: seq<Event>, h: string)
    requires Agree(hosts, store, h) && forall i :: 0 <= i < |events| ==> IsTime(events[i].at)
    ensures Agree(Replay(hosts, events), PersistAll(hosts, store, events), h)
  {
    if events != [] {
      var before, e := events[..|events| - 1], events[|events| - 1];
      MemoryAndStoreAgree(hosts, store, before, h);
      EventKeepsAgreement(Replay(hosts, before), PersistAll(hosts, store, before), e, h);
    }
  }

  // ---------------------------------------------------------------------
  // Listing and reloading

  function Line(dataset: string, name: string, value: string): string {
    dataset + "\t" + name + "\t" + value
  }

  predicate Plain(s: string) {
    s != "" && '\t' !in s
  }

  lemma {:induction false} RunOf(s: string, rest: string)
    requires '\t' !in s && (rest != "" ==> rest[0] == '\t')
    ensures RunLength(s + rest) == |s|
  {
    if s != "" {
      RunOf(s[1..], rest);
      assert (s + rest)[1..] == s[1..] + rest;
    }
  }

  lemma FirstColumn(s: string, rest: string)
    requires Plain(s) && (rest != "" ==> rest[0] == '\t')
    ensures Columns(s + rest) == [s] + Columns(rest)
  {
    RunOf(s, rest);
    assert (s + rest)[..|s|] == s && (s + rest)[|s|..] == rest;
  }

  lemma LineColumns(dataset: string, name: string, value: string)
    requires Plain(dataset) && Plain(name) && Plain(value)
    ensures Columns(Line(dataset, name, value)) == [dataset, name, value]
  {
    LastColumn(value);
    NextColumn(name, value);
    NextColumn(dataset, name + "\t" + value);
    assert Line(dataset, name, value) == dataset + "\t" + (name + "\t" + value);
  }

  lemma LastColumn(value: string)
    requires Plain(value)
    ensures Columns(value) == [value]
  {
    assert value + "" == value;
    FirstColumn(value, "");
  }

  lemma NextColumn(s: string, rest: string)
    requires Plain(s)
    ensures Columns(s + "\t" + rest) == [s] + Columns(rest)
  {
    AfterTab(rest);
    FirstColumn(s, "\t" + rest);
    assert s + "\t" + rest == s + ("\t" + rest);
  }

  lemma AfterTab(rest: string)
    ensures Columns("\t" + rest) == Columns(rest)
  {
    assert ("\t" + rest)[1..] == rest;
  }

  /** The line printed for property `q`. */
  function Printed(dataset: string, props: Props, q: Prop): string {
    Line(dataset, PropName(q), if PropName(q) in props then props[PropName(q)] else "-")
  }

  /** What a line of the host's own dataset sets: dates count in seconds, durations in milliseconds. */
  lemma LineSets(m: View, dataset: string, text: string, n: int)
    requires Plain(dataset) && Plain(text) && text != "-" && ParseInt(text) == Some(n)
    ensures LoadLine(m, dataset, dataset + "\t" + "de.digineo.zackup:last_start" + "\t" + text) ==
            m.(startedAt := n * 1_000_000_000)
    ensures LoadLine(m, dataset, dataset + "\t" + "de.digineo.zackup:s_date" + "\t" + text) ==
            m.(succeededAt := Some(n * 1_000_000_000))
    ensures LoadLine(m, dataset, dataset + "\t" + "de.digineo.zackup:f_date" + "\t" + text) ==
            m.(failedAt := Some(n * 1_000_000_000))
    ensures IsInt64(n * 1_000_000) ==>
              LoadLine(m, dataset, dataset + "\t" + "de.digineo.zackup:s_duration" + "\t" + text) ==
              m.(successDuration := n * 1_000_000)
    ensures IsInt64(n * 1_000_000) ==>
              LoadLine(m, dataset, dataset + "\t" + "de.digineo.zackup:f_duration" + "\t" + text) ==
              m.(failureDuration := n * 1_000_000)
  {
    LoadPrinted(m, dataset, LastStart, text);
    LoadPrinted(m, dataset, SDate, text);
    LoadPrinted(m, dataset, FDate, text);
    LoadPrinted(m, dataset, SDuration, text);
    LoadPrinted(m, dataset, FDuration, text);
  }

  lemma LoadPrinted(m: View, dataset: string, p: Prop, text: string)
    requires Plain(dataset) && Plain(text) && text != "-"
    ensures LoadLine(m, dataset, Line(dataset, PropName(p), text)) == Decoded(m, p, text)
  {
    NamesPlain(p);
    DecoderNames(p);
    LineColumns(dataset, PropName(p), text);
  }

  /** Sizes are unsigned and count as they are. */
  lemma SizeLineSets(m: View, dataset: string, text: string, n: nat)
    requires Plain(dataset) && Plain(text) && text != "-" && ParseUint(text) == Some(n)
    ensures LoadLine(m, dataset, dataset + "\t" + "usedbysnapshots" + "\t" + text) == m.(usedBySnapshots := n)
    ensures LoadLine(m, dataset, dataset + "\t" + "usedbydataset" + "\t" + text) == m.(usedByDataset := n)
    ensures LoadLine(m, dataset, dataset + "\t" + "usedbychildren" + "\t" + text) == m.(usedByChildren := n)
    ensures LoadLine(m, dataset, dataset + "\t" + "usedbyrefreservation" + "\t" + text) ==
            m.(usedByRefReservation := n)
  {
    LoadPrinted(m, dataset, UsedBySnapshots, text);
    LoadPrinted(m, dataset, UsedByDataset, text);
    LoadPrinted(m, dataset, UsedByChildren, text);
    LoadPrinted(m, dataset, UsedByRefReservation, text);
  }

  /** A line of any other dataset, one without a value, one for any other property, and one that is not made of three
      columns set nothing. */
  lemma LineIgnored(m: View, dataset: string, other: string, name: string, text: string)
    requires Plain(other) && Plain(name) && Plain(text)
    requires other != dataset || text == "-" || name !in [
               "de.digineo.zackup:last_start", "de.digineo.zackup:s_date", "de.digineo.zackup:f_date",
               "de.digineo.zackup:s_duration", "de.digineo.zackup:f_duration",
               "usedbysnapshots", "usedbydataset", "usedbychildren", "usedbyrefreservation"]
    ensures LoadLine(m, dataset, other + "\t" + name + "\t" + text) == m
  {
    LineColumns(other, name, text);
  }

  lemma OddLineIgnored(m: View, dataset: string, line: string)
    requires |Columns(line)| != 3
    ensures LoadLine(m, dataset, line) == m
  {
  }

  /** Under which names the times are stored, and as which numbers. */
  lemma StoredAs(props: Props, success: bool, t: Time, duration: int)
    requires IsTime(t) && IsInt64(duration) && duration >= 0
    ensures var started := StoreStart(props, t);
            && "de.digineo.zackup:last_start" in started
            && ParseInt(started["de.digineo.zackup:last_start"]) == Some(t / 1_000_000_000)
    ensures var ended := StoreResult(props, success, t, duration);
            var date := if success then "de.digineo.zackup:s_date" else "de.digineo.zackup:f_date";
            var took := if success then "de.digineo.zackup:s_duration" else "de.digineo.zackup:f_duration";
            && date in ended && ParseInt(ended[date]) == Some(t / 1_000_000_000)
            && took in ended && ParseInt(ended[took]) == Some(duration / 1_000_000)
            && forall name :: name != date && name != took ==>
                 (name in ended <==> name in props) && (name in props ==> ended[name] == props[name])
  {
    ParseFormat(Unix(t));
    ParseFormat(Quo(duration, MILLISECOND));
    if success { NamesDiffer(SDate, SDuration); } else { NamesDiffer(FDate, FDuration); }
  }

  /** `zfs get -H` for some properties: a dash for what is not set. */
  function Listing(dataset: string, props: Props, order: seq<Prop>): seq<string> {
    if order == [] then []
    else Listing(dataset, props, order[..|order| - 1]) + [Printed(dataset, props, order[|order| - 1])]
  }

  predicate PlainProps(props: Props) {
    forall name :: name in props ==> Plain(props[name])
  }

  predicate AllOnce(order: seq<Prop>) {
    forall p: Prop :: multiset(order)[p] == 1
  }

  lemma NamesPlain(p: Prop)
    ensures Plain(PropName(p))
  {
  }

  lemma PrintedSetting(dataset: string, props: Props, q: Prop, p: Prop)
    requires Plain(dataset) && PlainProps(props)
    ensures Setting(dataset, p, Printed(dataset, props, q)) == if p == q then Stored(p, props) else None
  {
    var value := if PropName(q) in props then props[PropName(q)] else "-";
    NamesPlain(q);
    DecoderNames(q);
    LineColumns(dataset, PropName(q), value);
    DashIsNoNumber(q);
  }

  lemma LastOnce(front: seq<Prop>, q: Prop, p: Prop)
    ensures multiset(front + [q])[p] == multiset(front)[p] + if p == q then 1 else 0
    ensures multiset(front + [q])[p] <= 1 && p == q ==> p !in front
  {
  }

  lemma {:induction false} ListingSettings(dataset: string, props: Props, order: seq<Prop>, p: Prop)
    requires Plain(dataset) && PlainProps(props)
    requires multiset(order)[p] <= 1
    ensures Settings(dataset, p, Listing(dataset, props, order)) ==
            if p in order && Stored(p, props).Some? then [Stored(p, props).value] else []
  {
    if order != [] {
      var front, q := order[..|order| - 1], order[|order| - 1];
      LastOnce(front, q, p);
      assert order == front + [q];
      ListingSettings(dataset, props, front, p);
      PrintedSetting(dataset, props, q, p);
      var lines := Listing(dataset, props, front);
      assert Listing(dataset, props, order)[..|lines|] == lines;
    }
  }

  lemma DashIsNoNumber(p: Prop)
    ensures ParseProp(p, "-") == None
  {
    assert "-"[1..] == "";
    assert !AllDigits("-") by { assert "-"[0] == '-'; }
  }

  /** Metrics of a process that has just started, before it has read anything. */
  ghost predicate Blank(m: View) {
    forall p: Prop :: Get(m, p) == Get(EMPTY, p)
  }

  /** Loading what ZFS lists for a host, in whatever order, gives a fresh process the held values. */
  lemma LoadListing(m: View, dataset: string, props: Props, order: seq<Prop>, p: Prop)
    requires Plain(dataset) && PlainProps(props) && AllOnce(order)
    requires Blank(m)
    ensures Get(LoadLines(m, dataset, Listing(dataset, props, order)), p) == Held(p, props)
  {
    ListingSettings(dataset, props, order, p);
    LastLineWins(m, dataset, Listing(dataset, props, order), p);
    assert p in order;
  }

  // ---------------------------------------------------------------------
  // Status across a restart

  predicate EarlierSecond(result: Option<Time>, t: Time) {
    result.Some? ==> Unix(result.value) < Unix(t)
  }

  /** The start does not fall into the very second of Go's zero time. */
  predicate StartVisible(m: View) {
    Unix(m.startedAt) != Unix(ZERO)
  }

  /** The deciding moment is in a later whole second than everything it has to be told apart from. */
  predicate Resolved(m: View) {
    match Status(m)
    case Primed => true
    case Unknown => StartVisible(m)
    case Running => ShownRunning(m)
    case Success => StartVisible(m) && EarlierSecond(m.failedAt, m.succeededAt.value)
    case Failed => StartVisible(m) && EarlierSecond(m.succeededAt, m.failedAt.value)
  }

  lemma FloorOrder(s: Time, t: Time)
    ensures Floor(s) < Floor(t) <==> Unix(s) < Unix(t)
    ensures s <= t ==> Floor(s) <= Floor(t)
    ensures Floor(t) == ZERO <==> Unix(t) == Unix(ZERO)
  {
  }

  /** Exactly when whole seconds keep the status. */
  lemma CoarseStatus(m: View)
    ensures Status(Coarse(m)) == Status(m) <==> Resolved(m)
  {
    FloorOrder(m.startedAt, m.startedAt);
    if m.succeededAt.Some? {
      FloorOrder(m.startedAt, m.succeededAt.value);
      FloorOrder(m.succeededAt.value, m.startedAt);
    }
    if m.failedAt.Some? {
      FloorOrder(m.startedAt, m.failedAt.value);
      FloorOrder(m.failedAt.value, m.startedAt);
    }
    if m.succeededAt.Some? && m.failedAt.Some? {
      FloorOrder(m.succeededAt.value, m.failedAt.value);
      FloorOrder(m.failedAt.value, m.succeededAt.value);
    }
  }

  /** Whole seconds show the start, and tell it from every earlier result. */
  predicate ShownRunning(m: View) {
    StartVisible(m) && EarlierSecond(m.succeededAt, m.startedAt) && EarlierSecond(m.failedAt, m.startedAt)
  }

  /** Exactly when a host shows as running once its times have been cut to seconds. */
  lemma CoarseRunning(m: View)
    ensures Status(Coarse(m)) == Running <==> ShownRunning(m)
  {
    FloorOrder(m.startedAt, m.startedAt);
    if m.succeededAt.Some? {
      FloorOrder(m.succeededAt.value, m.startedAt);
    }
    if m.failedAt.Some? {
      FloorOrder(m.failedAt.value, m.startedAt);
    }
  }

  /** A host that is started, fails within the same second and is started again in that second shows as running, but
      as failed once its times have been cut to seconds. */
  lemma SameSecondLosesRunning(h: string)
    ensures var t := 10 * SECOND;
            var events := [Event.Start(h, t), Event.Result(h, false, t + 1), Event.Start(h, t + 2)];
            && Orderly(map[], events) && h in Replay(map[], events)
            && Status(Replay(map[], events)[h]) == Running
            && Status(Coarse(Replay(map[], events)[h])) == Failed
  {
    var t := 10 * SECOND;
    var events := [Event.Start(h, t), Event.Result(h, false, t + 1), Event.Start(h, t + 2)];
    assert events[..2][..1] == [events[0]] && events[..2] == [events[0], events[1]];
    assert [events[0]][..0] == [];
    var started := Apply(map[], events[0]);
    assert Replay(map[], []) == map[] && InFlight([]) == {};
    assert Replay(map[], [events[0]]) == started && InFlight([events[0]]) == {h};
    assert Orderly(map[], [events[0]]);
    var ended := Apply(started, events[1]);
    assert Replay(map[], events[..2]) == ended && InFlight(events[..2]) == {};
    assert Orderly(map[], events[..2]);
    assert Replay(map[], events) == Apply(ended, events[2]);
    assert Unix(t) == 10 && Unix(t + 1) == 10 && Unix(t + 2) == 10;
  }

  lemma PersistPlain(hosts: Hosts, store: Store, e: Event, h: string)
    requires PlainProps(PropsOf(store, h))
    ensures PlainProps(PropsOf(Persist(hosts, store, e), h))
  {
    if h == e.host {
      FormatIsPlain(Unix(e.at));
      if e.Result? && h in hosts {
        FormatIsPlain(Quo(Elapsed(hosts[h], e.at), MILLISECOND));
      }
    }
  }

  lemma {:induction false} PersistAllPlain(hosts: Hosts, store: Store, events: seq<Event>, h: string)
    requires PlainProps(PropsOf(store, h))
    ensures PlainProps(PropsOf(PersistAll(hosts, store, events), h))
  {
    if events != [] {
      var before := events[..|events| - 1];
      PersistAllPlain(hosts, store, before, h);
      PersistPlain(Replay(hosts, before), PersistAll(hosts, store, before), events[|events| - 1], h);
    }
  }

  /** A fresh process reads back a mirrored host: its times cut to seconds, its durations exactly, and its
      status exactly when whole seconds resolve it. */
  lemma Reload(m: View, fresh_: View, props: Props, dataset: string, order: seq<Prop>)
    requires Mirrors(m, props) && PlainProps(props) && Plain(dataset) && AllOnce(order) && Blank(fresh_)
    ensures var after := LoadLines(fresh_, dataset, Listing(dataset, props, order));
            && (forall p: Prop :: !IsSize(p) ==> Get(after, p) == Get(Coarse(m), p))
            && (Status(after) == Status(m) <==> Resolved(m))
  {
    var after := LoadLines(fresh_, dataset, Listing(dataset, props, order));
    forall p: Prop | !IsSize(p) ensures Get(after, p) == Get(Coarse(m), p) {
      LoadListing(fresh_, dataset, props, order, p);
    }
    CoarseStatus(m);
    assert Get(after, LastStart) == Get(Coarse(m), LastStart);
    assert Get(after, SDate) == Get(Coarse(m), SDate) && Get(after, FDate) == Get(Coarse(m), FDate);
  }

  /** A freshly loaded host agrees with its properties, whatever they are. */
  lemma LoadedMirrors(fresh_: View, props: Props, dataset: string, order: seq<Prop>)
    requires PlainProps(props) && Plain(dataset) && AllOnce(order) && Blank(fresh_)
    ensures Mirrors(LoadLines(fresh_, dataset, Listing(dataset, props, order)), props)
  {
    var after := LoadLines(fresh_, dataset, Listing(dataset, props, order));
    forall p: Prop | !IsSize(p) ensures Held(p, props) == Get(Coarse(after), p) {
      LoadListing(fresh_, dataset, props, order, p);
      HeldIsCoarse(after, props, p);
    }
  }

  lemma HeldIsCoarse(m: View, props: Props, p: Prop)
    requires Get(m, p) == Held(p, props)
    ensures Get(Coarse(m), p) == Get(m, p)
  {
    if Stored(p, props).Some? {
      assert Floor(Stored(p, props).value * SECOND) == Stored(p, props).value * SECOND;
    }
  }

  /** Interrupt the daemon anywhere and restart it: each host that agreed with its properties comes back with its
      times cut to seconds, its exact durations, and its status exactly when whole seconds resolve it. And it
      agrees with its properties again, so the same holds for the next restart. */
  lemma RestartAnywhere(hosts: Hosts, store: Store, events: seq<Event>, h: string, fresh_: View, dataset: string,
                        order: seq<Prop>)
    requires Agree(hosts, store, h) && forall i :: 0 <= i < |events| ==> IsTime(events[i].at)
    requires Plain(dataset) && AllOnce(order) && PlainProps(PropsOf(store, h)) && Blank(fresh_)
    ensures var before, props := MemoryOf(Replay(hosts, events), h), PropsOf(PersistAll(hosts, store, events), h);
            var after := LoadLines(fresh_, dataset, Listing(dataset, props, order));
            && (forall p: Prop :: !IsSize(p) ==> Get(after, p) == Get(Coarse(before), p))
            && (Status(after) == Status(before) <==> Resolved(before))
            && Mirrors(after, props) && PlainProps(props)
  {
    var before, props := MemoryOf(Replay(hosts, events), h), PropsOf(PersistAll(hosts, store, events), h);
    PersistAllPlain(hosts, store, events, h);
    MemoryAndStoreAgree(hosts, store, events, h);
    Reload(before, fresh_, props, dataset, order);
    LoadedMirrors(fresh_, props, dataset, order);
  }
}
