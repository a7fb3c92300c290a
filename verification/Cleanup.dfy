/** Local calendar of a fixed-offset zone, in whole seconds since 1970-01-01 00:00 UTC. */
module Calendar {
  const DAY := 86400
  const HOUR := 3600

  function DayOf(local: int): int { local / DAY }

  function SecondOfDay(local: int): int { local % DAY }

  function HourOf(local: int): int { SecondOfDay(local) / HOUR }

  /** 0 is Sunday; day 0 was a Thursday. */
  function Weekday(day: int): int { (day + 4) % 7 }

  lemma {:induction false} DayIsMonotone(a: int, b: int)
    requires a <= b
    ensures DayOf(a) <= DayOf(b)
  {
  }

  lemma {:induction false} Decompose(local: int, day: int, second: int)
    requires local == day * DAY + second && 0 <= second < DAY
    ensures DayOf(local) == day && SecondOfDay(local) == second
  {
  }
}

/**
  The clean-up gate (runCleanupChecks, backend/src/services/cleanup.service.ts) over runs of scheduler ticks.
  A tick happens at `now`; if it cleans, the time of the purge's end is recorded when the purge has finished.
 */
module CleanupSchedule {
  import opened Wrappers
  import opened Calendar

  datatype Limits = Limits(frequency: Option<string>, hour: Option<int>)

  /** `midnight` is how the date formatter prints hour 0 with hour12 off: 0, or 24 in some runtimes. */
  datatype Rule = Rule(frequency: string, hour: int, offset: int, midnight: int)

  /** Snapshot limits win over plan limits; no frequency means `none`, no hour means 2. */
  function RuleOf(snapshot: Option<Limits>, plan: Option<Limits>, offset: int, midnight: int): Rule
  {
    var l := if snapshot.Some? then snapshot.value else if plan.Some? then plan.value else Limits(None, None);
    Rule(if l.frequency.Some? && l.frequency.value != "" then l.frequency.value else "none",
         if l.hour.Some? then l.hour.value else 2, offset, midnight)
  }

  function LocalDay(r: Rule, t: int): int { DayOf(t + r.offset) }

  function LocalHour(r: Rule, t: int): int
  {
    if HourOf(t + r.offset) == 0 then r.midnight else HourOf(t + r.offset)
  }

  /** Right hour, and for weekly plans a Sunday. */
  predicate OnSchedule(r: Rule, now: int)
  {
    && r.frequency != "none"
    && LocalHour(r, now) == r.hour
    && (r.frequency == "weekly" ==> Weekday(LocalDay(r, now)) == 0)
  }

  predicate ShouldClean(r: Rule, now: int, last: Option<int>)
  {
    OnSchedule(r, now) && (last.None? || LocalDay(r, now) != LocalDay(r, last.value))
  }

  /**
    The decision spelled out on one set of limits: a frequency that is given and not empty or `none`, local time in the
    given hour (2 without one), a Sunday for weekly plans, and no clean-up on that local date yet.
   */
  predicate CleansUnder(l: Limits, offset: int, midnight: int, now: int, last: Option<int>)
  {
    var day, hour := (now + offset) / 86400, (now + offset) % 86400 / 3600;
    && l.frequency.Some? && l.frequency.value != "" && l.frequency.value != "none"
    && (if hour == 0 then midnight else hour) == (if l.hour.Some? then l.hour.value else 2)
    && (l.frequency.value == "weekly" ==> day % 7 == 3)
    && (last.Some? ==> (last.value + offset) / 86400 != day)
  }

  lemma {:induction false} GateReadsLimits(sub: Subscription, now: int)
    ensures ShouldClean(RuleFor(sub), now, sub.last) <==>
            match (sub.snapshot, sub.plan)
            case (Some(l), _) => CleansUnder(l, sub.offset, sub.midnight, now, sub.last)
            case (None, Some(l)) => CleansUnder(l, sub.offset, sub.midnight, now, sub.last)
            case (None, None) => false
  {
  }

  /** An active subscription with its user's zone; `last` is `last_cleanup_at`. */
  datatype Subscription = Subscription(snapshot: Option<Limits>, plan: Option<Limits>, offset: int, midnight: int,
                                       last: Option<int>)

  function RuleFor(sub: Subscription): Rule { RuleOf(sub.snapshot, sub.plan, sub.offset, sub.midnight) }

  predicate UnderLimits(sub: Subscription, l: Limits, now: int)
  {
    CleansUnder(l, sub.offset, sub.midnight, now, sub.last)
  }

  class SubscriptionTable {
    var rows: seq<Subscription>

    constructor (rows: seq<Subscription>)
      ensures this.rows == rows
    {
      this.rows := rows;
    }

    /** One tick over all active subscriptions; `finish[i]` is the time row i's purge would end. */
    method RunCleanupChecks(now: int, finish: seq<int>) returns (cleaned: set<nat>)
      requires |finish| == |rows|
      modifies this
      ensures |rows| == |old(rows)|
      ensures forall i: nat | i < |rows| :: i in cleaned <==> ShouldClean(RuleFor(old(rows)[i]), now, old(rows)[i].last)
      ensures forall i: nat | i < |rows| ::
                rows[i] == if i in cleaned then old(rows)[i].(last := Some(finish[i])) else old(rows)[i]
      ensures forall i: nat | i < |rows| && old(rows)[i].snapshot.Some? ::
                i in cleaned <==> UnderLimits(old(rows)[i], old(rows)[i].snapshot.value, now)
      ensures forall i: nat | i < |rows| && old(rows)[i].snapshot.None? && old(rows)[i].plan.Some? ::
                i in cleaned <==> UnderLimits(old(rows)[i], old(rows)[i].plan.value, now)
      ensures forall i: nat | i < |rows| && old(rows)[i].snapshot.None? && old(rows)[i].plan.None? :: i !in cleaned
    {
      cleaned := {};
      var k := 0;
      while k < |rows|
        invariant 0 <= k <= |rows| == |old(rows)|
        invariant forall i: nat | i in cleaned :: i < k
        invariant forall i: nat | i < k :: i in cleaned <==> ShouldClean(RuleFor(old(rows)[i]), now, old(rows)[i].last)
        invariant forall i: nat | i < k ::
                    rows[i] == if i in cleaned then old(rows)[i].(last := Some(finish[i])) else old(rows)[i]
        invariant forall i: nat | k <= i < |rows| :: rows[i] == old(rows)[i]
      {
        var sub := rows[k];
        var limits := Limits(None, None);
        if sub.snapshot.Some? { limits := sub.snapshot.value; } else if sub.plan.Some? { limits := sub.plan.value; }
        var frequency := "none";
        if limits.frequency.Some? && limits.frequency.value != "" { frequency := limits.frequency.value; }
        var rule := Rule(frequency, if limits.hour.Some? then limits.hour.value else 2, sub.offset, sub.midnight);
        if rule.frequency != "none" {
          var today := LocalDay(rule, now);
          var dayMatches := rule.frequency != "weekly" || Weekday(today) == 0;
          var done := sub.last.Some? && LocalDay(rule, sub.last.value) == today;
          if LocalHour(rule, now) == rule.hour && dayMatches && !done {
            cleaned := cleaned + {k};
            rows := rows[k := sub.(last := Some(finish[k]))];
          }
        }
        k := k + 1;
      }
      forall i: nat | i < |rows|
        ensures old(rows)[i].snapshot.Some? ==>
                  (i in cleaned <==> UnderLimits(old(rows)[i], old(rows)[i].snapshot.value, now))
        ensures old(rows)[i].snapshot.None? && old(rows)[i].plan.Some? ==>
                  (i in cleaned <==> UnderLimits(old(rows)[i], old(rows)[i].plan.value, now))
        ensures old(rows)[i].snapshot.None? && old(rows)[i].plan.None? ==> i !in cleaned
      {
        GateReadsLimits(old(rows)[i], now);
      }
    }
  }

  // ---- runs of one subscription ----

  /**
    A tick reads the row at `now`. If it cleans, its own time is recorded at `finish`, however much later that is;
    None means never (the process stopped or the UPDATE failed). Ticks do not wait for one another.
   */
  datatype Tick = Tick(now: int, finish: Option<int>)

  predicate DoneBy(t: Tick, now: int) { t.finish.Some? && t.finish.value <= now }

  function Later(a: Option<int>, b: int): int { if a.Some? && a.value > b then a.value else b }

  /** The newest time that the clean-ups of `ts` have recorded by `now`. */
  function Recorded(r: Rule, last: Option<int>, ts: seq<Tick>, now: int): Option<int>
    decreases |ts|, 0
  {
    if ts == [] then None
    else
      var p, t := ts[..|ts| - 1], ts[|ts| - 1];
      var before := Recorded(r, last, p, now);
      if DoneBy(t, now) && Fires(r, last, p, t.now) then Some(Later(before, t.finish.value)) else before
  }

  /** A tick at `now`, after the ticks `ts`, cleans: the gate is asked about what is recorded by then. */
  predicate Fires(r: Rule, last: Option<int>, ts: seq<Tick>, now: int)
    decreases |ts|, 1
  {
    var seen := Recorded(r, last, ts, now);
    ShouldClean(r, now, if seen.Some? then seen else last)
  }

  predicate Fired(r: Rule, last: Option<int>, ts: seq<Tick>, k: nat)
    requires k < |ts|
  {
    Fires(r, last, ts[..k], ts[k].now)
  }

  /** Time does not run backwards: ticks start in order, and nothing is recorded before it began. */
  ghost predicate Ordered(last: Option<int>, ts: seq<Tick>)
  {
    && (forall i | 0 <= i < |ts| && ts[i].finish.Some? :: ts[i].now <= ts[i].finish.value)
    && (forall i, j | 0 <= i < j < |ts| :: ts[i].now <= ts[j].now)
    && (last.Some? ==> forall i | 0 <= i < |ts| :: last.value <= ts[i].now)
  }

  /** Clean-up `i` is recorded by the time tick `k` starts. */
  predicate Counts(r: Rule, last: Option<int>, ts: seq<Tick>, i: nat, k: nat)
    requires i < k < |ts|
  {
    Fired(r, last, ts, i) && DoneBy(ts[i], ts[k].now)
  }

  lemma {:induction false} RecordedIsNewest(r: Rule, last: Option<int>, ts: seq<Tick>, now: int)
    ensures var seen := Recorded(r, last, ts, now);
      && (seen.Some? ==> exists i: nat | i < |ts| ::
            Fired(r, last, ts, i) && DoneBy(ts[i], now) && ts[i].finish == seen)
      && forall i: nat | i < |ts| && Fired(r, last, ts, i) && DoneBy(ts[i], now) ::
           seen.Some? && ts[i].finish.value <= seen.value
    decreases |ts|
  {
    if ts != [] {
      var p := ts[..|ts| - 1];
      RecordedIsNewest(r, last, p, now);
      assert forall i: nat | i < |p| :: ts[..i] == p[..i];
      assert forall i: nat | i < |p| :: Fired(r, last, ts, i) <==> Fired(r, last, p, i);
      var seen, before := Recorded(r, last, ts, now), Recorded(r, last, p, now);
      if seen.Some? {
        if seen == before {
          var i: nat :| i < |p| && Fired(r, last, p, i) && DoneBy(p[i], now) && p[i].finish == before;
          assert Fired(r, last, ts, i);
        } else {
          assert Fired(r, last, ts, |p|);
        }
      }
    }
  }

  /** Some clean-up is recorded on this local date by the time tick `k` starts. */
  ghost predicate DateTaken(r: Rule, last: Option<int>, ts: seq<Tick>, k: nat, day: int)
    requires k < |ts|
  {
    || (last.Some? && LocalDay(r, last.value) == day)
    || exists i: nat | i < k :: Counts(r, last, ts, i, k) && LocalDay(r, ts[i].finish.value) == day
  }

  lemma {:induction false} SameDayBetween(r: Rule, a: int, b: int, c: int)
    requires a <= b <= c && LocalDay(r, a) == LocalDay(r, c)
    ensures LocalDay(r, b) == LocalDay(r, c)
  {
    DayIsMonotone(a + r.offset, b + r.offset);
    DayIsMonotone(b + r.offset, c + r.offset);
  }

  /** What tick `k` reads from the row. */
  lemma {:induction false} SeenByTick(r: Rule, last: Option<int>, ts: seq<Tick>, k: nat)
    requires k < |ts|
    ensures var seen := Recorded(r, last, ts[..k], ts[k].now);
      && (seen.Some? ==> exists i: nat | i < k :: Counts(r, last, ts, i, k) && ts[i].finish == seen)
      && forall i: nat | i < k && Counts(r, last, ts, i, k) :: seen.Some? && ts[i].finish.value <= seen.value
  {
    var p, now := ts[..k], ts[k].now;
    RecordedIsNewest(r, last, p, now);
    assert forall i: nat | i < k :: p[..i] == ts[..i];
    assert forall i: nat | i < k :: Fired(r, last, p, i) <==> Fired(r, last, ts, i);
    var seen := Recorded(r, last, p, now);
    if seen.Some? {
      var i: nat :| i < k && Fired(r, last, p, i) && DoneBy(p[i], now) && p[i].finish == seen;
      assert Counts(r, last, ts, i, k);
    }
    forall i: nat | i < k && Counts(r, last, ts, i, k) ensures seen.Some? && ts[i].finish.value <= seen.value {
      assert Fired(r, last, p, i) && DoneBy(p[i], now);
    }
  }

  /**
    The gate over every run, however long the purges take: a tick cleans exactly when it is on schedule and no clean-up
    is yet recorded on its local date.
   */
  lemma {:induction false} FiredIff(r: Rule, last: Option<int>, ts: seq<Tick>, k: nat)
    requires Ordered(last, ts) && k < |ts|
    ensures Fired(r, last, ts, k) <==>
            OnSchedule(r, ts[k].now) && !DateTaken(r, last, ts, k, LocalDay(r, ts[k].now))
  {
    SeenByTick(r, last, ts, k);
    var now := ts[k].now;
    var seen := Recorded(r, last, ts[..k], now);
    if seen.Some? {
      var w: nat :| w < k && Counts(r, last, ts, w, k) && ts[w].finish == seen;
      if last.Some? && LocalDay(r, last.value) == LocalDay(r, now) {
        SameDayBetween(r, last.value, seen.value, now);
      }
      forall i: nat | i < k && Counts(r, last, ts, i, k) && LocalDay(r, ts[i].finish.value) == LocalDay(r, now)
        ensures LocalDay(r, seen.value) == LocalDay(r, now)
      {
        SameDayBetween(r, ts[i].finish.value, seen.value, now);
      }
    }
  }

  // ---- at most once per local date ----

  lemma {:induction false} SundaysAreAWeekApart(a: int, b: int)
    requires Weekday(a) == 0 && Weekday(b) == 0 && a < b
    ensures b - a >= 7
  {
  }

  /** How the formatter prints midnight leaves the hours 1 to 23 alone. */
  predicate MidnightOk(r: Rule) { r.midnight == 0 || r.midnight == 24 }

  lemma {:induction false} SameHourIsClose(r: Rule, a: int, b: int)
    requires MidnightOk(r) && LocalDay(r, a) == LocalDay(r, b) && LocalHour(r, a) == LocalHour(r, b)
    ensures b - a < HOUR
  {
    assert HourOf(a + r.offset) == HourOf(b + r.offset);
  }

  /** Two ticks less than an hour apart do not overlap: the purge of the first is recorded when the second starts. */
  ghost predicate OverlapsAreHourly(ts: seq<Tick>)
  {
    forall i, j | 0 <= i < j < |ts| :: ts[i].now + HOUR <= ts[j].now || DoneBy(ts[i], ts[j].now)
  }

  /**
    Ticks an hour apart, whatever the purges take, or ticks that wait for one another: at most one clean-up per local
    date, only at the rule's hour; weekly ones on Sundays, at least seven days apart.
   */
  lemma {:induction false} OncePerDate(r: Rule, last: Option<int>, ts: seq<Tick>, i: nat, j: nat)
    requires MidnightOk(r) && Ordered(last, ts) && OverlapsAreHourly(ts)
    requires i < j < |ts| && Fired(r, last, ts, i) && Fired(r, last, ts, j)
    ensures OnSchedule(r, ts[i].now) && OnSchedule(r, ts[j].now)
    ensures LocalDay(r, ts[i].now) < LocalDay(r, ts[j].now)
    ensures r.frequency == "weekly" ==> LocalDay(r, ts[j].now) - LocalDay(r, ts[i].now) >= 7
  {
    var a, b := ts[i], ts[j];
    DayIsMonotone(a.now + r.offset, b.now + r.offset);
    if LocalDay(r, a.now) == LocalDay(r, b.now) {
      SameHourIsClose(r, a.now, b.now);
      SameDayBetween(r, a.now, a.finish.value, b.now);
      FiredIff(r, last, ts, j);
      assert Counts(r, last, ts, i, j);
      assert false;
    }
    if r.frequency == "weekly" { SundaysAreAWeekApart(LocalDay(r, a.now), LocalDay(r, b.now)); }
  }

  /**
    Without that: of two ticks in the same clean-up hour, such as the one at start-up after a restart and the next one,
    both clean exactly when the second starts before the first is recorded.
   */
  lemma {:induction false} BothCleanIff(r: Rule, last: Option<int>, t: Tick, u: Tick)
    requires Ordered(last, [t, u]) && Fires(r, last, [], t.now) && OnSchedule(r, u.now)
    requires LocalDay(r, t.now) == LocalDay(r, u.now)
    ensures Fired(r, last, [t, u], 0)
    ensures Fired(r, last, [t, u], 1) <==> !DoneBy(t, u.now)
  {
    var ts := [t, u];
    assert ts[..0] == [] && ts[..1] == [t];
    FiredIff(r, last, ts, 0);
    FiredIff(r, last, ts, 1);
    if DoneBy(t, u.now) {
      SameDayBetween(r, t.now, t.finish.value, u.now);
      assert Counts(r, last, ts, 0, 1);
    }
  }

  /** 02:10 and 02:40 on one day, the first purge ending at 02:50: cleaned twice. */
  lemma {:induction false} OverlapCleansTwice(r: Rule)
    requires r == Rule("daily", 2, 0, 0)
    ensures var ts := [Tick(7800, Some(10200)), Tick(9600, Some(12000))];
      Ordered(None, ts) && Fired(r, None, ts, 0) && Fired(r, None, ts, 1)
  {
    BothCleanIff(r, None, Tick(7800, Some(10200)), Tick(9600, Some(12000)));
  }

  // ---- hourly ticks and full days ----

  /** Ticks exactly one hour apart, as the timer starts them; a purge may take any time. */
  ghost predicate Hourly(last: Option<int>, ts: seq<Tick>)
  {
    Ordered(last, ts) && forall i | 0 <= i < |ts| :: ts[i].now == ts[0].now + HOUR * i
  }

  lemma {:induction false} SlotIndex(start: int, target: int) returns (i: nat)
    requires start <= target
    ensures target <= start + HOUR * i < target + HOUR
  {
    i := (target - start + HOUR - 1) / HOUR;
  }

  lemma {:induction false} HourSlot(local: int, day: int, h: int)
    requires 0 <= h < 24 && day * DAY + h * HOUR <= local < day * DAY + h * HOUR + HOUR
    ensures DayOf(local) == day && HourOf(local) == h
  {
    Decompose(local, day, local - day * DAY);
  }

  /** The rule's hour is one the formatter ever prints. */
  predicate HourOccurs(r: Rule) { 1 <= r.hour <= 23 || r.hour == r.midnight }

  /** The hour of the day at which the formatter prints the rule's hour. */
  function SlotHour(r: Rule): int { if 1 <= r.hour <= 23 then r.hour else 0 }

  predicate InSlot(r: Rule, t: int, day: int)
  {
    day * DAY + SlotHour(r) * HOUR <= t + r.offset < day * DAY + SlotHour(r) * HOUR + HOUR
  }

  lemma {:induction false} SlotIsAtHour(r: Rule, t: int, day: int)
    requires HourOccurs(r) && MidnightOk(r) && InSlot(r, t, day)
    ensures LocalDay(r, t) == day && LocalHour(r, t) == r.hour
  {
    HourSlot(t + r.offset, day, SlotHour(r));
  }

  /** The ticks run from the start of the local day to its end. */
  ghost predicate Covers(r: Rule, ts: seq<Tick>, day: int)
  {
    ts != [] && ts[0].now + r.offset <= day * DAY && (day + 1) * DAY <= ts[|ts| - 1].now + r.offset
  }

  /** Ticks that cover a day have one in its clean-up hour. */
  lemma {:induction false} SlotHasTick(r: Rule, last: Option<int>, ts: seq<Tick>, day: int) returns (k: nat)
    requires Hourly(last, ts) && Covers(r, ts, day)
    ensures k < |ts| && InSlot(r, ts[k].now, day)
  {
    k := SlotIndex(ts[0].now + r.offset, day * DAY + SlotHour(r) * HOUR);
    assert ts[|ts| - 1].now == ts[0].now + HOUR * (|ts| - 1);
  }

  /** It is the only tick of that day that is on schedule. */
  lemma {:induction false} OnlySlotTick(r: Rule, last: Option<int>, ts: seq<Tick>, day: int, k: nat, i: nat)
    requires HourOccurs(r) && MidnightOk(r) && Hourly(last, ts)
    requires k < |ts| && InSlot(r, ts[k].now, day) && i < |ts|
    requires OnSchedule(r, ts[i].now) && LocalDay(r, ts[i].now) == day
    ensures i == k
  {
    SlotIsAtHour(r, ts[k].now, day);
    SameHourIsClose(r, ts[i].now, ts[k].now);
    SameHourIsClose(r, ts[k].now, ts[i].now);
    assert ts[i].now == ts[0].now + HOUR * i && ts[k].now == ts[0].now + HOUR * k;
  }

  /** A local day on which the rule cleans: every day, or every Sunday for a weekly rule. */
  predicate DueOn(r: Rule, day: int) { r.frequency != "none" && (r.frequency == "weekly" ==> Weekday(day) == 0) }

  /** A clean-up started on an earlier local day is recorded on `day` before its clean-up tick `k` starts. */
  ghost predicate SpillsOver(r: Rule, last: Option<int>, ts: seq<Tick>, k: nat, day: int)
    requires k < |ts|
  {
    exists i: nat | i < k ::
      Counts(r, last, ts, i, k) && LocalDay(r, ts[i].now) < day && LocalDay(r, ts[i].finish.value) == day
  }

  lemma {:induction false} TakenMeansSpill(r: Rule, last: Option<int>, ts: seq<Tick>, day: int, k: nat)
    requires HourOccurs(r) && MidnightOk(r) && Hourly(last, ts) && k < |ts| && InSlot(r, ts[k].now, day)
    requires last.Some? ==> LocalDay(r, last.value) < day
    ensures DateTaken(r, last, ts, k, day) <==> SpillsOver(r, last, ts, k, day)
  {
    if DateTaken(r, last, ts, k, day) {
      var i: nat :| i < k && Counts(r, last, ts, i, k) && LocalDay(r, ts[i].finish.value) == day;
      DayIsMonotone(ts[i].now + r.offset, ts[i].finish.value + r.offset);
      if LocalDay(r, ts[i].now) == day { OnlySlotTick(r, last, ts, day, k, i); }
    }
  }

  /**
    Hourly ticks, an hour that occurs, purges of any length: a covered day that is due is cleaned by the tick in its
    clean-up hour and by no other, and it is cleaned at all exactly when no clean-up of an earlier day has been
    recorded on it before that tick.
   */
  lemma {:induction false} DayIsCleanedIff(r: Rule, last: Option<int>, ts: seq<Tick>, day: int) returns (k: nat)
    requires DueOn(r, day) && HourOccurs(r) && MidnightOk(r) && Hourly(last, ts) && Covers(r, ts, day)
    requires last.Some? ==> LocalDay(r, last.value) < day
    ensures k < |ts| && InSlot(r, ts[k].now, day)
    ensures forall i: nat | i < |ts| && Fired(r, last, ts, i) && LocalDay(r, ts[i].now) == day :: i == k
    ensures Fired(r, last, ts, k) <==> !SpillsOver(r, last, ts, k, day)
  {
    k := SlotHasTick(r, last, ts, day);
    forall i: nat | i < |ts| && Fired(r, last, ts, i) && LocalDay(r, ts[i].now) == day ensures i == k {
      OnlySlotTick(r, last, ts, day, k, i);
    }
    SlotIsAtHour(r, ts[k].now, day);
    FiredIff(r, last, ts, k);
    TakenMeansSpill(r, last, ts, day, k);
  }

  /** Every purge that is recorded at all is recorded on the local day it started. */
  ghost predicate SameDayPurges(r: Rule, ts: seq<Tick>)
  {
    forall i | 0 <= i < |ts| && ts[i].finish.Some? :: LocalDay(r, ts[i].finish.value) == LocalDay(r, ts[i].now)
  }

  /** With purges that end on the day they started, every covered day that is due is cleaned exactly once. */
  lemma {:induction false} EveryFullDayIsCleanedOnce(r: Rule, last: Option<int>, ts: seq<Tick>, day: int)
    returns (k: nat)
    requires DueOn(r, day) && HourOccurs(r) && MidnightOk(r) && Hourly(last, ts) && Covers(r, ts, day)
    requires SameDayPurges(r, ts) && (last.Some? ==> LocalDay(r, last.value) < day)
    ensures k < |ts| && Fired(r, last, ts, k) && LocalDay(r, ts[k].now) == day && LocalHour(r, ts[k].now) == r.hour
    ensures forall i: nat | i < |ts| && Fired(r, last, ts, i) && LocalDay(r, ts[i].now) == day :: i == k
  {
    k := DayIsCleanedIff(r, last, ts, day);
    SlotIsAtHour(r, ts[k].now, day);
  }

  /** Hourly ticks from midnight on day 3, a Sunday, for 30 hours, every purge taking 10 minutes. */
  function SundayTicks(): seq<Tick> { seq(30, i => Tick(3 * DAY + HOUR * i, Some(3 * DAY + HOUR * i + 600))) }

  lemma {:induction false} SundayTicksFit(r: Rule)
    requires r.offset == 0
    ensures Hourly(None, SundayTicks()) && Covers(r, SundayTicks(), 3) && OverlapsAreHourly(SundayTicks())
    ensures SameDayPurges(r, SundayTicks())
  {
    var ts := SundayTicks();
    assert ts[0].now == 3 * DAY && ts[29].now == 3 * DAY + 29 * HOUR;
    forall i | 0 <= i < |ts| ensures LocalDay(r, ts[i].finish.value) == LocalDay(r, ts[i].now) { SameDaySoon(i); }
  }

  lemma {:induction false} SameDaySoon(i: int)
    requires 0 <= i < 30
    ensures DayOf(3 * DAY + HOUR * i + 600) == DayOf(3 * DAY + HOUR * i)
  {
    var day, second := if i < 24 then 3 else 4, if i < 24 then HOUR * i else HOUR * (i - 24);
    Decompose(3 * DAY + HOUR * i, day, second);
    Decompose(3 * DAY + HOUR * i + 600, day, second + 600);
  }

  /** All of these hypotheses hold together on a run: a daily and a weekly rule are cleaned on that Sunday. */
  lemma {:induction false} SundayIsCleaned(r: Rule) returns (k: nat)
    requires r == Rule("daily", 2, 0, 0) || r == Rule("weekly", 0, 0, 0) || r == Rule("weekly", 24, 0, 24)
    ensures k < |SundayTicks()| && Fired(r, None, SundayTicks(), k) && LocalDay(r, SundayTicks()[k].now) == 3
  {
    SundayTicksFit(r);
    k := EveryFullDayIsCleanedOnce(r, None, SundayTicks(), 3);
  }

  ghost predicate CleansInSomeRun(r: Rule) { exists ts: seq<Tick>, k: nat | k < |ts| :: Fired(r, None, ts, k) }

  /** The first Sunday slot of the calendar. */
  function SundaySlot(r: Rule): int { 3 * DAY + SlotHour(r) * HOUR - r.offset }

  lemma {:induction false} SundaySlotIsOnSchedule(r: Rule)
    requires r.frequency != "none" && HourOccurs(r)
    ensures OnSchedule(r, SundaySlot(r))
  {
    HourSlot(SundaySlot(r) + r.offset, 3, SlotHour(r));
  }

  /**
    A rule is ever cleaned exactly when it has a frequency and an hour the formatter prints; so never for hour 0 where
    midnight is printed as 24.
   */
  lemma {:induction false} CleansAtAllIff(r: Rule)
    ensures CleansInSomeRun(r) <==> r.frequency != "none" && HourOccurs(r)
  {
    if r.frequency != "none" && HourOccurs(r) {
      SundaySlotIsOnSchedule(r);
      var ts := [Tick(SundaySlot(r), None)];
      assert ts[..0] == [];
      assert Fired(r, None, ts, 0);
    }
  }

  /** Hour 0 where midnight is printed as 24, and hour 24 where it is printed as 0. */
  lemma {:induction false} HourZeroNeverCleans(r: Rule, offset: int)
    requires r == Rule("daily", 0, offset, 24) || r == Rule("daily", 24, offset, 0)
    ensures !CleansInSomeRun(r)
  {
    CleansAtAllIff(r);
  }

  /** Hourly ticks from 23:30 on day 0 for 26 hours, every purge taking 40 minutes. */
  function NightTicks(): seq<Tick> { seq(26, i => Tick(84600 + HOUR * i, Some(84600 + HOUR * i + 2400))) }

  /** Clean-up hour 23: the purge of day 0 is recorded at 00:10 on day 1, and day 1 is not cleaned at all. */
  lemma {:induction false} OvernightPurgeSkipsADay(r: Rule, i: nat)
    requires r == Rule("daily", 23, 0, 0) && i < 26
    ensures Hourly(None, NightTicks()) && Covers(r, NightTicks(), 1)
    ensures Fired(r, None, NightTicks(), 0)
    ensures LocalDay(r, NightTicks()[i].now) == 1 ==> !Fired(r, None, NightTicks(), i)
  {
    var ts := NightTicks();
    assert ts[0] == Tick(84600, Some(87000)) && ts[25].now == 174600;
    assert ts[..0] == [];
    var k := DayIsCleanedIff(r, None, ts, 1);
    assert ts[k].now == 84600 + HOUR * k;
    assert k == 24;
    assert Counts(r, None, ts, 0, k);
    assert SpillsOver(r, None, ts, k, 1);
  }
}

/** The predicted next reset (getNextDataResetTime, backend/src/routes/subscriptionRoutes.ts). */
module ResetTime {
  import opened Wrappers
  import opened Calendar
  import CleanupSchedule

  /** The clean-up hour sharp, local time; hour 24 is midnight. */
  predicate AtHour(t: int, hour: int, offset: int) { SecondOfDay(t + offset) == hour % 24 * HOUR }

  predicate AtSundayHour(t: int, hour: int, offset: int)
  {
    AtHour(t, hour, offset) && Weekday(DayOf(t + offset)) == 0
  }

  /** The first instant strictly after `now` at the clean-up hour. */
  ghost predicate IsNextDaily(t: int, now: int, hour: int, offset: int)
  {
    now < t && AtHour(t, hour, offset) && forall u | now < u < t :: !AtHour(u, hour, offset)
  }

  /** The first instant strictly after `now` at the clean-up hour of a Sunday. */
  ghost predicate IsNextSunday(t: int, now: int, hour: int, offset: int)
  {
    now < t && AtSundayHour(t, hour, offset) && forall u | now < u < t :: !AtSundayHour(u, hour, offset)
  }

  lemma {:induction false} SlotForm(t: int, hour: int, offset: int)
    requires AtHour(t, hour, offset)
    ensures t + offset == DayOf(t + offset) * DAY + hour % 24 * HOUR
  {
  }

  /** Where `setHours(hour)` lands: hours outside 0 to 23 roll into another day. */
  lemma {:induction false} Rolled(t: int, hour: int, offset: int, day: int)
    requires t + offset == day * DAY + hour * HOUR
    ensures DayOf(t + offset) == day + hour / 24 && AtHour(t, hour, offset)
  {
    Decompose(t + offset, day + hour / 24, hour % 24 * HOUR);
  }

  /** An instant at the hour is the next one exactly when it lies within a day of now. */
  lemma {:induction false} FirstDaily(t: int, now: int, hour: int, offset: int)
    requires AtHour(t, hour, offset)
    ensures IsNextDaily(t, now, hour, offset) <==> now < t <= now + DAY
  {
    SlotForm(t, hour, offset);
    if now < t <= now + DAY {
      forall u | now < u < t ensures !AtHour(u, hour, offset) {
        if AtHour(u, hour, offset) { SlotForm(u, hour, offset); assert false; }
      }
    } else if now < t {
      Decompose(t - DAY + offset, DayOf(t + offset) - 1, hour % 24 * HOUR);
      assert now < t - DAY < t && AtHour(t - DAY, hour, offset);
    }
  }

  /** Within a week of now it is the next Sunday slot exactly when its day is a Sunday. */
  lemma {:induction false} FirstSunday(t: int, now: int, hour: int, offset: int)
    requires AtHour(t, hour, offset) && now < t <= now + 7 * DAY
    ensures IsNextSunday(t, now, hour, offset) <==> Weekday(DayOf(t + offset)) == 0
  {
    SlotForm(t, hour, offset);
    var day := DayOf(t + offset);
    if Weekday(day) == 0 {
      forall u | now < u < t ensures !AtSundayHour(u, hour, offset) {
        if AtSundayHour(u, hour, offset) {
          SlotForm(u, hour, offset);
          CleanupSchedule.SundaysAreAWeekApart(DayOf(u + offset), day);
          assert false;
        }
      }
    }
  }

  /** The clean-up hour has come today; hour 24 never has. */
  predicate HourPassed(now: int, hour: int, offset: int) { SecondOfDay(now + offset) >= hour * HOUR }

  /**
    Daily: the next instant at the hour. Weekly: the scheduler's next Sunday slot if and only if the hour is not 24 and
    it is before the hour or already Sunday. At or after the hour it answers the same weekday a week later; for hour 24
    it answers a Monday. Any other hour rolls over as in `setHours`, and then the daily answer may lie in the past.
   */
  method GetNextDataResetTime(frequency: string, hour: int, offset: int, now: int) returns (next: Option<int>)
    ensures next.None? <==> frequency == "" || frequency == "none"
    ensures next.Some? ==> AtHour(next.value, hour, offset)
    ensures frequency == "daily" && 0 <= hour <= 24 ==> IsNextDaily(next.value, now, hour, offset)
    ensures frequency == "daily" ==> (IsNextDaily(next.value, now, hour, offset) <==> now < next.value <= now + DAY)
    ensures frequency == "weekly" && 0 <= hour <= 24 ==>
              && now < next.value <= now + 7 * DAY
              && (IsNextSunday(next.value, now, hour, offset) <==>
                  hour != 24 && (!HourPassed(now, hour, offset) || Weekday(DayOf(now + offset)) == 0))
    ensures frequency == "weekly" && 0 <= hour <= 24 && HourPassed(now, hour, offset) ==>
              DayOf(next.value + offset) == DayOf(now + offset) + 7
    ensures frequency == "weekly" && hour == 24 ==> Weekday(DayOf(next.value + offset)) == 1
  {
    if frequency == "" || frequency == "none" { return None; }
    var local := now + offset;
    var day := DayOf(local);
    var targetDay := day;
    if local >= targetDay * DAY + hour * HOUR {
      if frequency == "daily" { targetDay := targetDay + 1; }
      else if frequency == "weekly" { targetDay := targetDay + 7; }
    } else if frequency == "weekly" {
      var dow := Weekday(day);
      if dow != 0 { targetDay := targetDay + (7 - dow); }
    }
    var diff := targetDay * DAY + hour * HOUR - local;
    next := Some(now + diff);
    Rolled(next.value, hour, offset, targetDay);
    if frequency == "daily" { DailyTarget(next.value, now, hour, offset, day, targetDay); }
    if frequency == "weekly" && 0 <= hour <= 24 { WeeklyTarget(next.value, now, hour, offset, day, targetDay); }
  }

  lemma {:induction false} DailyTarget(t: int, now: int, hour: int, offset: int, day: int, target: int)
    requires day == DayOf(now + offset) && t + offset == target * DAY + hour * HOUR
    requires target == if now + offset >= day * DAY + hour * HOUR then day + 1 else day
    ensures IsNextDaily(t, now, hour, offset) <==> now < t <= now + DAY
    ensures 0 <= hour <= 24 ==> now < t <= now + DAY
  {
    Rolled(t, hour, offset, target);
    FirstDaily(t, now, hour, offset);
    assert now + offset == day * DAY + SecondOfDay(now + offset);
  }

  lemma {:induction false} WeekdayOfTarget(day: int, target: int)
    requires target == if Weekday(day) != 0 then day + (7 - Weekday(day)) else day
    ensures Weekday(target) == 0 && Weekday(target + 1) == 1 && day <= target <= day + 6
  {
  }

  /** A week later at or after the hour, otherwise the Sunday ahead or today. */
  lemma {:induction false} WeeklyTarget(t: int, now: int, hour: int, offset: int, day: int, target: int)
    requires 0 <= hour <= 24 && day == DayOf(now + offset) && t + offset == target * DAY + hour * HOUR
    requires target == if now + offset >= day * DAY + hour * HOUR then day + 7
                       else if Weekday(day) != 0 then day + (7 - Weekday(day)) else day
    ensures now < t <= now + 7 * DAY
    ensures IsNextSunday(t, now, hour, offset) <==> hour != 24 && (!HourPassed(now, hour, offset) || Weekday(day) == 0)
    ensures HourPassed(now, hour, offset) ==> DayOf(t + offset) == day + 7
    ensures hour == 24 ==> Weekday(DayOf(t + offset)) == 1
  {
    assert now + offset == day * DAY + SecondOfDay(now + offset);
    Rolled(t, hour, offset, target);
    if !HourPassed(now, hour, offset) { WeekdayOfTarget(day, target); }
    FirstSunday(t, now, hour, offset);
  }

  /** Thursday 10:00 with clean-up hour 2: the answer is the next Thursday, four days after the Sunday slot. */
  lemma {:induction false} WeeklyMissesSunday(t: int, now: int)
    requires now == 10 * HOUR && t == 7 * DAY + 2 * HOUR
    ensures !IsNextSunday(t, now, 2, 0) && IsNextSunday(3 * DAY + 2 * HOUR, now, 2, 0)
  {
    WeeklyTarget(t, now, 2, 0, 0, 7);
    Rolled(3 * DAY + 2 * HOUR, 2, 0, 3);
    FirstSunday(3 * DAY + 2 * HOUR, now, 2, 0);
  }

  /** Saturday noon with clean-up hour 24: the answer is Monday midnight, a day after the Sunday slot. */
  lemma {:induction false} HourTwentyFourMissesSunday(t: int, now: int)
    requires now == 2 * DAY + 12 * HOUR && t == 3 * DAY + 24 * HOUR
    ensures !IsNextSunday(t, now, 24, 0) && IsNextSunday(3 * DAY, now, 24, 0)
  {
    WeeklyTarget(t, now, 24, 0, 2, 3);
    Rolled(3 * DAY, 24, 0, 2);
    FirstSunday(3 * DAY, now, 24, 0);
  }

  /** Instants at the hour are instants at which the scheduler's own gate is open, if the formatter prints that hour. */
  lemma {:induction false} SlotIsOnSchedule(r: CleanupSchedule.Rule, t: int)
    requires 0 <= r.hour <= 24 && CleanupSchedule.HourOccurs(r) && r.frequency != "none"
    requires if r.frequency == "weekly" then AtSundayHour(t, r.hour, r.offset) else AtHour(t, r.hour, r.offset)
    ensures CleanupSchedule.OnSchedule(r, t)
  {
    CleanupSchedule.HourSlot(t + r.offset, DayOf(t + r.offset), r.hour % 24);
  }
}
