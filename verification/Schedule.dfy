/** When a host is due: the daily slot and the jitter around it. Times are nanoseconds since the epoch, UTC. */
module Schedule {

  type Time = int

  const SECOND := 1_000_000_000
  const DAY := 86_400 * SECOND
  const JITTER_STEP := 100_000_000   // 100 ms

  /** January 1 of the year 1, Go's zero time. */
  const ZERO: Time := -62_135_596_800 * SECOND

  /** The 1969 years before the epoch, with their leap days. */
  lemma ZeroIsYearOne()
    ensures ZERO == -(1969 * 365 + 1969 / 4 - 1969 / 100 + 1969 / 400) * 86_400_000_000_000
  {
  }

  /** Go's integer division: toward zero. */
  function Quo(a: int, b: int): int
    requires b > 0
  {
    if a >= 0 then a / b else -(-a / b)
  }

  /** `Duration.Truncate(step)`. */
  function Truncate(d: int, step: int): (r: int)
    requires step > 0
    ensures d >= 0 ==> 0 <= r <= d < r + step
    ensures d <= 0 ==> r - step < d <= r <= 0
  {
    Quo(d, step) * step
  }

  datatype DailySlot = DailySlot(h: int, m: int, s: int) {
    predicate Valid() {
      0 <= h < 24 && 0 <= m < 60 && 0 <= s < 60
    }

    function Offset(): (ns: int)
      requires Valid()
      ensures 0 <= ns < DAY
    {
      (h * 3600 + m * 60 + s) * SECOND
    }

    /** The slot of day `k`. */
    function At(k: int): Time
      requires Valid()
    {
      k * DAY + Offset()
    }

    /** Date and clock of `t`, compared field by field. */
    function Next(t: Time): Time
      requires Valid()
    {
      var day, clock := t / DAY, t % DAY / SECOND;
      var ch, cm, cs := clock / 3600, clock / 60 % 60, clock % 60;
      var past := ch > h || (ch == h && cm > m) || (ch == h && cm == m && cs >= s);
      (if past then day + 1 else day) * DAY + (h * 3600 + m * 60 + s) * SECOND
    }
  }

  lemma ClockOrder(slot: DailySlot, clock: int)
    requires slot.Valid() && 0 <= clock
    ensures var ch, cm, cs := clock / 3600, clock / 60 % 60, clock % 60;
            (ch > slot.h || (ch == slot.h && cm > slot.m) || (ch == slot.h && cm == slot.m && cs >= slot.s))
            <==> clock >= slot.h * 3600 + slot.m * 60 + slot.s
  {
    var ch, cm, cs := clock / 3600, clock / 60 % 60, clock % 60;
    assert clock / 60 == ch * 60 + cm;
    assert clock == ch * 3600 + cm * 60 + cs;
  }

  lemma WholeSeconds(ns: int, seconds: int)
    ensures ns / SECOND >= seconds <==> ns >= seconds * SECOND
  {
  }

  /** The field-by-field comparison asks whether today's slot has been reached. */
  lemma SlotReached(slot: DailySlot, t: Time)
    requires slot.Valid()
    ensures slot.Next(t) == slot.At(if t % DAY >= slot.Offset() then t / DAY + 1 else t / DAY)
  {
    ClockOrder(slot, t % DAY / SECOND);
    WholeSeconds(t % DAY, slot.h * 3600 + slot.m * 60 + slot.s);
  }

  /** The day whose slot Next(t) is: the first whose slot lies after `t`. */
  lemma NextIsNextSlot(slot: DailySlot, t: Time) returns (k: int)
    requires slot.Valid()
    ensures slot.Next(t) == slot.At(k)
    ensures slot.At(k - 1) <= t < slot.At(k)
  {
    SlotReached(slot, t);
    k := if t % DAY >= slot.Offset() then t / DAY + 1 else t / DAY;
    DayParts(t, k, slot.Offset());
  }

  lemma DayParts(t: Time, k: int, offset: int)
    requires 0 <= offset < DAY && k == if t % DAY >= offset then t / DAY + 1 else t / DAY
    ensures (k - 1) * DAY + offset <= t < k * DAY + offset
  {
    assert t == t / DAY * DAY + t % DAY;
  }

  lemma SlotOrder(slot: DailySlot, j: int, k: int)
    requires slot.Valid()
    ensures slot.At(k) - slot.At(j) == (k - j) * DAY
  {
  }

  /** Next(t) is the earliest slot after `t`: strictly later, and no slot lies in between. */
  lemma NextIsEarliest(slot: DailySlot, t: Time, k: int)
    requires slot.Valid()
    ensures t < slot.Next(t) <= t + DAY
    ensures t < slot.At(k) ==> slot.Next(t) <= slot.At(k)
    ensures slot.Next(t) == slot.At(k) <==> slot.At(k - 1) <= t < slot.At(k)
  {
    var n := NextIsNextSlot(slot, t);
    SlotOrder(slot, n, k);
    SlotOrder(slot, n - 1, n);
    SlotOrder(slot, k - 1, k);
  }

  /** The wall clock at `t`: hour, minute, second, and the nanoseconds since. */
  predicate Shows(t: Time, h: int, m: int, s: int, ns: int) {
    && t % 86_400_000_000_000 / 3_600_000_000_000 == h
    && t % 86_400_000_000_000 / 60_000_000_000 % 60 == m
    && t % 86_400_000_000_000 / 1_000_000_000 % 60 == s
    && t % 1_000_000_000 == ns
  }

  lemma AtShowsSlot(slot: DailySlot, k: int)
    requires slot.Valid()
    ensures slot.At(k) / 86_400_000_000_000 == k && Shows(slot.At(k), slot.h, slot.m, slot.s, 0)
  {
    hide Shows;
    var seconds := slot.h * 3600 + slot.m * 60 + slot.s;
    assert slot.At(k) == k * 86_400_000_000_000 + seconds * 1_000_000_000;
    ClockFields(slot.h, slot.m, slot.s);
    ShowsWithinDay(k, seconds, slot.h, slot.m, slot.s);
  }

  lemma ShowsWithinDay(k: int, seconds: int, h: int, m: int, s: int)
    requires 0 <= seconds < 86_400
    requires var ns := seconds * 1_000_000_000;
             ns / 3_600_000_000_000 == h && ns / 60_000_000_000 % 60 == m && ns / 1_000_000_000 % 60 == s
    ensures var t := k * 86_400_000_000_000 + seconds * 1_000_000_000;
            t / 86_400_000_000_000 == k && Shows(t, h, m, s, 0)
  {
    var t, ns := k * 86_400_000_000_000 + seconds * 1_000_000_000, seconds * 1_000_000_000;
    assert 0 <= ns < 86_400_000_000_000;
    DayAndRest(k, ns);
    assert t == (k * 86_400 + seconds) * 1_000_000_000;
  }

  lemma DayAndRest(k: int, ns: int)
    requires 0 <= ns < 86_400_000_000_000
    ensures var t := k * 86_400_000_000_000 + ns; t / 86_400_000_000_000 == k && t % 86_400_000_000_000 == ns
  {
  }

  lemma ClockFields(h: int, m: int, s: int)
    requires 0 <= h && 0 <= m < 60 && 0 <= s < 60
    ensures var ns := (h * 3600 + m * 60 + s) * 1_000_000_000;
            ns / 3_600_000_000_000 == h && ns / 60_000_000_000 % 60 == m && ns / 1_000_000_000 % 60 == s
  {
    var ns := (h * 3600 + m * 60 + s) * 1_000_000_000;
    assert ns == h * 3_600_000_000_000 + (m * 60 + s) * 1_000_000_000;
    assert ns == (h * 60 + m) * 60_000_000_000 + s * 1_000_000_000;
    assert ns / 60_000_000_000 == h * 60 + m;
    assert ns / 1_000_000_000 == (h * 60 + m) * 60 + s;
  }

  /** The clock of every next slot is the configured one, to the nanosecond. */
  lemma NextShowsSlot(slot: DailySlot, t: Time)
    requires slot.Valid()
    ensures Shows(slot.Next(t), slot.h, slot.m, slot.s, 0)
  {
    var k := NextIsNextSlot(slot, t);
    AtShowsSlot(slot, k);
  }

  // ---------------------------------------------------------------------
  // Jitter

  datatype Daemon = Daemon(schedule: DailySlot, jitter: int) {
    /** Half the jitter, by which the reference time is advanced. */
    function Advance(): (half: nat)
    {
      if Quo(jitter, 2) > 0 then Quo(jitter, 2) else 0
    }

    /** The offset from the slot for a random draw below the jitter. */
    function Offset(draw: nat): int {
      if jitter > 0 then Truncate(draw - Quo(jitter, 2), JITTER_STEP) else 0
    }

    function NextSchedule(ref: Time, draw: nat): Time
      requires schedule.Valid()
    {
      schedule.Next(ref + Advance()) + Offset(draw)
    }

    /** What `rand.Int63n(jitter)` may return; no draw is made without a positive jitter. */
    predicate CanDraw(draw: nat) {
      jitter > 0 ==> draw < jitter
    }
  }

  /** The draw, centred on zero and cut toward it to whole steps, so that 0 comes up more often than the rest. */
  lemma OffsetIsStepped(d: Daemon, draw: nat) returns (steps: int)
    requires d.jitter > 0
    ensures d.Offset(draw) == steps * 100_000_000
    ensures var exact := draw - d.jitter / 2;
            if exact >= 0 then 0 <= d.Offset(draw) <= exact < d.Offset(draw) + 100_000_000
            else d.Offset(draw) - 100_000_000 < exact <= d.Offset(draw) <= 0
  {
    steps := Quo(draw - Quo(d.jitter, 2), JITTER_STEP);
  }

  lemma OffsetBounds(d: Daemon, draw: nat)
    requires d.CanDraw(draw)
    ensures 0 <= d.Advance() + d.Offset(draw)
    ensures d.jitter > 0 ==> d.Offset(draw) < d.jitter - d.jitter / 2
    ensures d.jitter <= 0 ==> d.Offset(draw) == 0
  {
  }

  /** `ref` asks for the slot of day `k`: it lies between the openings of the windows of day k - 1 and day k. */
  predicate Nominal(d: Daemon, ref: Time, k: int)
    requires d.schedule.Valid()
  {
    d.schedule.At(k - 1) - d.Advance() <= ref < d.schedule.At(k) - d.Advance()
  }

  lemma OneSlot(d: Daemon, ref: Time, j: int, k: int)
    requires d.schedule.Valid() && Nominal(d, ref, j) && Nominal(d, ref, k)
    ensures j == k
  {
    SlotOrder(d.schedule, j - 1, k);
    SlotOrder(d.schedule, k - 1, j);
  }

  /** For every reference time and every jitter: the next schedule belongs to exactly one slot, the first whose
      window opens after `ref`; it is strictly after `ref`, less than a day and the jitter later, and
      within half a jitter of its slot. */
  lemma NextScheduleWindow(d: Daemon, ref: Time, draw: nat) returns (k: int)
    requires d.schedule.Valid() && d.CanDraw(draw)
    ensures Nominal(d, ref, k) && forall j :: Nominal(d, ref, j) ==> j == k
    ensures d.jitter > 0 ==> d.schedule.At(k - 1) - d.jitter / 2 <= ref < d.schedule.At(k) - d.jitter / 2
    ensures d.jitter <= 0 ==> d.schedule.At(k - 1) <= ref < d.schedule.At(k)
    ensures d.NextSchedule(ref, draw) - d.Offset(draw) == d.schedule.At(k)
    ensures d.schedule.At(k) - d.Advance() <= d.NextSchedule(ref, draw)
    ensures d.jitter > 0 ==> d.NextSchedule(ref, draw) < d.schedule.At(k) + d.jitter - d.jitter / 2
    ensures d.jitter <= 0 ==> d.NextSchedule(ref, draw) == d.schedule.At(k)
    ensures ref < d.NextSchedule(ref, draw)
    ensures d.jitter > 0 ==> d.NextSchedule(ref, draw) < ref + DAY + d.jitter
    ensures d.jitter <= 0 ==> d.NextSchedule(ref, draw) <= ref + DAY
  {
    OffsetBounds(d, draw);
    k := NextIsNextSlot(d.schedule, ref + d.Advance());
    NextIsEarliest(d.schedule, ref + d.Advance(), k);
    forall j | Nominal(d, ref, j) ensures j == k {
      OneSlot(d, ref, j, k);
    }
  }

  /** Exactly the references from the opening of one window to the opening of the next get the next slot. */
  lemma NoSlotSkipped(d: Daemon, ref: Time, draw: nat, k: int)
    requires d.schedule.Valid() && d.CanDraw(draw)
    ensures d.NextSchedule(ref, draw) - d.Offset(draw) == d.schedule.At(k) <==>
            d.schedule.At(k - 1) - d.Advance() <= ref < d.schedule.At(k) - d.Advance()
  {
    NextIsEarliest(d.schedule, ref + d.Advance(), k);
  }
}
