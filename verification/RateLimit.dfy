/**
  The worker-change limiter (mutationLimit, backend/src/routes/workerRoutes.ts): at most 30 changes per key in 60
  seconds, kept as a list of recent times per key that is pruned whenever the key asks again.
 */
module RateLimit {
  import opened Wrappers

  const WINDOW_MS := 60000
  const LIMIT := 30

  datatype Request = Request(key: string, now: int)

  /** `user?.username || req.ip || 'anon'` */
  function KeyOf(username: Option<string>, ip: Option<string>): string
  {
    if username.Some? && username.value != "" then username.value
    else if ip.Some? && ip.value != "" then ip.value
    else "anon"
  }

  /** `times.filter(t => now - t < 60_000)` */
  function Recent(times: seq<int>, now: int): seq<int>
  {
    if times == [] then [] else (if now - times[0] < WINDOW_MS then [times[0]] else []) + Recent(times[1..], now)
  }

  function ListOf(hits: map<string, seq<int>>, key: string): seq<int> { if key in hits then hits[key] else [] }

  predicate Admits(hits: map<string, seq<int>>, rq: Request) { |Recent(ListOf(hits, rq.key), rq.now)| < LIMIT }

  class Limiter {
    var hits: map<string, seq<int>>

    constructor ()
      ensures hits == map[]
    {
      hits := map[];
    }

    method MutationLimit(username: Option<string>, ip: Option<string>, now: int) returns (next: bool)
      modifies this
      ensures var rq := Request(KeyOf(username, ip), now);
        && next == Admits(old(hits), rq)
        && hits == if next then old(hits)[rq.key := Recent(ListOf(old(hits), rq.key), now) + [now]] else old(hits)
      ensures forall history :: hits == Step(State(old(hits), history), Request(KeyOf(username, ip), now)).hits
    {
      var key := "anon";
      if username.Some? && username.value != "" { key := username.value; }
      else if ip.Some? && ip.value != "" { key := ip.value; }
      var list := if key in hits then hits[key] else [];
      var recent := Recent(list, now);
      if |recent| >= LIMIT { return false; }
      recent := recent + [now];
      hits := hits[key := recent];
      return true;
    }
  }

  // ---- runs, with the full admission history as reference ----

  datatype State = State(hits: map<string, seq<int>>, history: seq<Request>)

  const EMPTY := State(map[], [])

  function Step(s: State, rq: Request): State
  {
    if !Admits(s.hits, rq) then s
    else State(s.hits[rq.key := Recent(ListOf(s.hits, rq.key), rq.now) + [rq.now]], s.history + [rq])
  }

  function Run(s: State, rqs: seq<Request>): State
    decreases |rqs|
  {
    if rqs == [] then s else Run(Step(s, rqs[0]), rqs[1..])
  }

  predicate ClockFrom(rqs: seq<Request>, clock: int)
  {
    rqs == [] || (clock <= rqs[0].now && ClockFrom(rqs[1..], rqs[0].now))
  }

  function LastClock(rqs: seq<Request>, clock: int): int
  {
    if rqs == [] then clock else LastClock(rqs[1..], rqs[0].now)
  }

  /** Every admission of a key, in order. */
  function TimesOf(history: seq<Request>, key: string): seq<int>
  {
    if history == [] then []
    else
      var last := history[|history| - 1];
      TimesOf(history[..|history| - 1], key) + (if last.key == key then [last.now] else [])
  }

  /** `kept` is `all` without some leading times that have already left the window. */
  ghost predicate PrunedFrom(kept: seq<int>, all: seq<int>, clock: int)
  {
    exists n :: 0 <= n <= |all| && kept == all[n..] && forall i | 0 <= i < n :: clock - all[i] >= WINDOW_MS
  }

  function InWindow(times: seq<int>, from: int): nat
  {
    if times == [] then 0 else (if from <= times[0] < from + WINDOW_MS then 1 else 0) + InWindow(times[1..], from)
  }

  /** The list of a key against all its admissions: pruned, none in the future, and no minute over the limit. */
  ghost predicate ListInv(kept: seq<int>, all: seq<int>, clock: int)
  {
    PrunedFrom(kept, all, clock) && (forall i | 0 <= i < |all| :: all[i] <= clock) && WindowsHold(all)
  }

  ghost predicate KeyInv(s: State, key: string, clock: int)
  {
    ListInv(ListOf(s.hits, key), TimesOf(s.history, key), clock)
  }

  ghost predicate WindowsHold(all: seq<int>) { forall from :: InWindow(all, from) <= LIMIT }

  ghost predicate Inv(s: State, clock: int) { forall key :: KeyInv(s, key, clock) }

  lemma {:induction false} RecentAppend(a: seq<int>, b: seq<int>, now: int)
    ensures Recent(a + b, now) == Recent(a, now) + Recent(b, now)
  {
    if a == [] { assert a + b == b; }
    else { assert (a + b)[1..] == a[1..] + b; RecentAppend(a[1..], b, now); }
  }

  lemma {:induction false} WindowAppend(a: seq<int>, b: seq<int>, from: int)
    ensures InWindow(a + b, from) == InWindow(a, from) + InWindow(b, from)
  {
    if a == [] { assert a + b == b; }
    else { assert (a + b)[1..] == a[1..] + b; WindowAppend(a[1..], b, from); }
  }

  lemma {:induction false} ExpiredAreDropped(times: seq<int>, now: int)
    requires forall i | 0 <= i < |times| :: now - times[i] >= WINDOW_MS
    ensures Recent(times, now) == []
  {
    if times != [] { ExpiredAreDropped(times[1..], now); }
  }

  /** The list left by pruning is exactly what the window keeps. */
  lemma {:induction false} RecentIsSuffix(times: seq<int>, now: int) returns (n: nat)
    requires forall i, j | 0 <= i < j < |times| :: times[i] <= times[j]
    ensures n <= |times| && Recent(times, now) == times[n..]
    ensures forall i | 0 <= i < n :: now - times[i] >= WINDOW_MS
  {
    if times == [] {
      n := 0;
    } else if now - times[0] < WINDOW_MS {
      n := 0;
      AllRecent(times, now);
    } else {
      var m := RecentIsSuffix(times[1..], now);
      n := m + 1;
      assert times[n..] == times[1..][m..];
      assert forall i | 1 <= i < n :: times[i] == times[1..][i - 1];
    }
  }

  lemma {:induction false} AllRecent(times: seq<int>, now: int)
    requires forall i | 0 <= i < |times| :: now - times[i] < WINDOW_MS
    ensures Recent(times, now) == times[0..]
  {
    if times != [] {
      AllRecent(times[1..], now);
      assert times == [times[0]] + times[1..];
    }
  }

  /** The pruned list and the full history agree on what is recent, now and at any later time. */
  lemma {:induction false} PrunedDecidesAsHistory(kept: seq<int>, all: seq<int>, clock: int, now: int)
    requires PrunedFrom(kept, all, clock) && clock <= now
    ensures Recent(kept, now) == Recent(all, now)
  {
    var n :| 0 <= n <= |all| && kept == all[n..] && forall i | 0 <= i < n :: clock - all[i] >= WINDOW_MS;
    assert all == all[..n] + all[n..];
    RecentAppend(all[..n], all[n..], now);
    ExpiredAreDropped(all[..n], now);
  }

  lemma {:induction false} WindowWithinRecent(times: seq<int>, from: int, now: int)
    requires from <= now < from + WINDOW_MS
    ensures InWindow(times, from) <= |Recent(times, now)|
  {
    if times != [] { WindowWithinRecent(times[1..], from, now); }
  }

  lemma {:induction false} TimesAppend(history: seq<Request>, rq: Request, key: string)
    ensures TimesOf(history + [rq], key) == TimesOf(history, key) + (if rq.key == key then [rq.now] else [])
  {
    assert (history + [rq])[..|history|] == history;
  }

  ghost predicate Ordered(s: State)
  {
    forall key :: var all := TimesOf(s.history, key); forall i, j | 0 <= i < j < |all| :: all[i] <= all[j]
  }

  lemma {:induction false} AdmissionKeepsWindows(all: seq<int>, now: int)
    requires WindowsHold(all) && |Recent(all, now)| < LIMIT
    ensures WindowsHold(all + [now])
  {
    forall from ensures InWindow(all + [now], from) <= LIMIT {
      WindowAppend(all, [now], from);
      assert InWindow([now], from) == (if from <= now < from + WINDOW_MS then 1 else 0) + InWindow([now][1..], from);
      if from <= now < from + WINDOW_MS { WindowWithinRecent(all, from, now); }
    }
  }

  lemma {:induction false} PruningAdmits(all: seq<int>, now: int)
    requires forall i, j | 0 <= i < j < |all| :: all[i] <= all[j]
    ensures PrunedFrom(Recent(all, now) + [now], all + [now], now)
  {
    var m := RecentIsSuffix(all, now);
    assert all[m..] + [now] == (all + [now])[m..];
  }

  lemma {:induction false} PrunedLater(kept: seq<int>, all: seq<int>, clock: int, now: int)
    requires PrunedFrom(kept, all, clock) && clock <= now
    ensures PrunedFrom(kept, all, now)
  {
    var n :| 0 <= n <= |all| && kept == all[n..] && forall i | 0 <= i < n :: clock - all[i] >= WINDOW_MS;
    assert forall i | 0 <= i < n :: now - all[i] >= WINDOW_MS;
  }

  lemma {:induction false} AdmissionKeepsList(kept: seq<int>, all: seq<int>, clock: int, now: int)
    requires ListInv(kept, all, clock) && clock <= now && |Recent(kept, now)| < LIMIT
    requires forall i, j | 0 <= i < j < |all| :: all[i] <= all[j]
    ensures ListInv(Recent(kept, now) + [now], all + [now], now)
  {
    PrunedDecidesAsHistory(kept, all, clock, now);
    PruningAdmits(all, now);
    AdmissionKeepsWindows(all, now);
  }

  lemma {:induction false} AdmissionKeepsKey(s: State, rq: Request, clock: int)
    requires KeyInv(s, rq.key, clock) && Ordered(s) && clock <= rq.now && Admits(s.hits, rq)
    ensures KeyInv(Step(s, rq), rq.key, rq.now)
  {
    TimesAppend(s.history, rq, rq.key);
    AdmissionKeepsList(ListOf(s.hits, rq.key), TimesOf(s.history, rq.key), clock, rq.now);
  }

  lemma {:induction false} OtherTimesKept(s: State, rq: Request, key: string)
    requires rq.key != key || !Admits(s.hits, rq)
    ensures TimesOf(Step(s, rq).history, key) == TimesOf(s.history, key)
    ensures ListOf(Step(s, rq).hits, key) == ListOf(s.hits, key)
  {
    if Admits(s.hits, rq) { TimesAppend(s.history, rq, key); }
  }

  lemma {:induction false} OthersKeepKey(s: State, rq: Request, clock: int, key: string)
    requires KeyInv(s, key, clock) && clock <= rq.now && (rq.key != key || !Admits(s.hits, rq))
    ensures KeyInv(Step(s, rq), key, rq.now)
  {
    OtherTimesKept(s, rq, key);
    PrunedLater(ListOf(s.hits, key), TimesOf(s.history, key), clock, rq.now);
  }

  lemma {:induction false} StepKeepsKey(s: State, rq: Request, clock: int, key: string)
    requires KeyInv(s, key, clock) && Ordered(s) && clock <= rq.now
    ensures KeyInv(Step(s, rq), key, rq.now)
  {
    if rq.key == key && Admits(s.hits, rq) { AdmissionKeepsKey(s, rq, clock); }
    else { OthersKeepKey(s, rq, clock, key); }
  }

  lemma {:induction false} InvOverRun(s: State, rqs: seq<Request>, clock: int)
    requires Inv(s, clock) && Ordered(s) && ClockFrom(rqs, clock)
    ensures Inv(Run(s, rqs), LastClock(rqs, clock)) && Ordered(Run(s, rqs))
    decreases |rqs|
  {
    if rqs != [] {
      var s' := Step(s, rqs[0]);
      forall key ensures KeyInv(s', key, rqs[0].now) { StepKeepsKey(s, rqs[0], clock, key); }
      forall key ensures var all := TimesOf(s'.history, key); forall i, j | 0 <= i < j < |all| :: all[i] <= all[j] {
        assert KeyInv(s, key, clock);
        if Admits(s.hits, rqs[0]) { TimesAppend(s.history, rqs[0], key); }
      }
      InvOverRun(s', rqs[1..], rqs[0].now);
    }
  }

  lemma {:induction false} EmptyInv(clock: int)
    ensures Inv(EMPTY, clock) && Ordered(EMPTY)
  {
    forall key ensures KeyInv(EMPTY, key, clock) {
      var all := TimesOf([], key);
      assert ListOf(EMPTY.hits, key) == all[0..] && PrunedFrom([], all, clock);
    }
  }

  /** In any run with a non-decreasing clock, every half-open minute holds at most 30 admissions of a key. */
  lemma {:induction false} AtMostThirtyPerWindow(rqs: seq<Request>, clock: int, key: string, from: int)
    requires ClockFrom(rqs, clock)
    ensures InWindow(TimesOf(Run(EMPTY, rqs).history, key), from) <= LIMIT
  {
    EmptyInv(clock);
    InvOverRun(EMPTY, rqs, clock);
    assert KeyInv(Run(EMPTY, rqs), key, LastClock(rqs, clock));
  }

  /** The next decision is the one that counting the whole history would take: a refusal means 30 real admissions. */
  lemma {:induction false} DecidesAsFullHistory(rqs: seq<Request>, clock: int, rq: Request)
    requires ClockFrom(rqs, clock) && LastClock(rqs, clock) <= rq.now
    ensures var s := Run(EMPTY, rqs);
            Admits(s.hits, rq) <==> |Recent(TimesOf(s.history, rq.key), rq.now)| < LIMIT
  {
    EmptyInv(clock);
    InvOverRun(EMPTY, rqs, clock);
    var s := Run(EMPTY, rqs);
    assert KeyInv(s, rq.key, LastClock(rqs, clock));
    PrunedDecidesAsHistory(ListOf(s.hits, rq.key), TimesOf(s.history, rq.key), LastClock(rqs, clock), rq.now);
  }

  // ---- the same, counted over the admissions themselves ----

  /** The admissions of a key in the minute before and including `now`, and in the minute from `from`. */
  function LastMinute(history: seq<Request>, key: string, now: int): set<nat>
  {
    set i: nat | i < |history| && history[i].key == key && now - history[i].now < 60000
  }

  function MinuteFrom(history: seq<Request>, key: string, from: int): set<nat>
  {
    set i: nat | i < |history| && history[i].key == key && from <= history[i].now < from + 60000
  }

  lemma {:induction false} OneMoreInSet(a: set<nat>, b: set<nat>, n: nat, more: bool)
    requires n !in a && forall i :: i in b <==> i in a || (more && i == n)
    ensures |b| == |a| + (if more then 1 else 0)
  {
    if more { assert b == a + {n}; } else { assert b == a; }
  }

  lemma {:induction false} LastMinuteGrows(p: seq<Request>, t: Request, key: string, now: int)
    ensures |LastMinute(p + [t], key, now)|
         == |LastMinute(p, key, now)| + (if t.key == key && now - t.now < 60000 then 1 else 0)
  {
    var more := t.key == key && now - t.now < 60000;
    assert forall i: nat | i < |p| :: (p + [t])[i] == p[i];
    OneMoreInSet(LastMinute(p, key, now), LastMinute(p + [t], key, now), |p|, more);
  }

  lemma {:induction false} MinuteFromGrows(p: seq<Request>, t: Request, key: string, from: int)
    ensures |MinuteFrom(p + [t], key, from)|
         == |MinuteFrom(p, key, from)| + (if t.key == key && from <= t.now < from + 60000 then 1 else 0)
  {
    var more := t.key == key && from <= t.now < from + 60000;
    assert forall i: nat | i < |p| :: (p + [t])[i] == p[i];
    OneMoreInSet(MinuteFrom(p, key, from), MinuteFrom(p + [t], key, from), |p|, more);
  }

  lemma {:induction false} RecentCounts(history: seq<Request>, key: string, now: int)
    ensures |Recent(TimesOf(history, key), now)| == |LastMinute(history, key, now)|
    decreases |history|
  {
    if history != [] {
      var p, t := history[..|history| - 1], history[|history| - 1];
      RecentCounts(p, key, now);
      assert history == p + [t];
      TimesAppend(p, t, key);
      RecentAppend(TimesOf(p, key), if t.key == key then [t.now] else [], now);
      assert [t.now][1..] == [];
      LastMinuteGrows(p, t, key, now);
    }
  }

  lemma {:induction false} WindowCounts(history: seq<Request>, key: string, from: int)
    ensures InWindow(TimesOf(history, key), from) == |MinuteFrom(history, key, from)|
    decreases |history|
  {
    if history != [] {
      var p, t := history[..|history| - 1], history[|history| - 1];
      WindowCounts(p, key, from);
      assert history == p + [t];
      TimesAppend(p, t, key);
      WindowAppend(TimesOf(p, key), if t.key == key then [t.now] else [], from);
      assert [t.now][1..] == [];
      MinuteFromGrows(p, t, key, from);
    }
  }

  /** At most 30 of the admissions of a key lie in any half-open minute. */
  lemma {:induction false} ThirtyPerMinute(rqs: seq<Request>, clock: int, key: string, from: int)
    requires ClockFrom(rqs, clock)
    ensures |MinuteFrom(Run(EMPTY, rqs).history, key, from)| <= 30
  {
    AtMostThirtyPerWindow(rqs, clock, key, from);
    WindowCounts(Run(EMPTY, rqs).history, key, from);
  }

  /** A request is admitted exactly when fewer than 30 were admitted for its key in the last minute. */
  lemma {:induction false} AdmitsByCount(rqs: seq<Request>, clock: int, rq: Request)
    requires ClockFrom(rqs, clock) && LastClock(rqs, clock) <= rq.now
    ensures Admits(Run(EMPTY, rqs).hits, rq) <==> |LastMinute(Run(EMPTY, rqs).history, rq.key, rq.now)| < 30
    ensures Step(Run(EMPTY, rqs), rq).history
         == Run(EMPTY, rqs).history + (if |LastMinute(Run(EMPTY, rqs).history, rq.key, rq.now)| < 30 then [rq] else [])
  {
    DecidesAsFullHistory(rqs, clock, rq);
    RecentCounts(Run(EMPTY, rqs).history, rq.key, rq.now);
  }

  // ---- keys do not affect each other ----

  function Only(rqs: seq<Request>, key: string): seq<Request>
  {
    if rqs == [] then [] else (if rqs[0].key == key then [rqs[0]] else []) + Only(rqs[1..], key)
  }

  /** Two limiters that agree on a key. */
  predicate AgreeOn(a: State, b: State, key: string)
  {
    ListOf(a.hits, key) == ListOf(b.hits, key) && TimesOf(a.history, key) == TimesOf(b.history, key)
  }

  lemma {:induction false} SameStep(a: State, b: State, rq: Request)
    requires AgreeOn(a, b, rq.key)
    ensures AgreeOn(Step(a, rq), Step(b, rq), rq.key)
  {
    if Admits(a.hits, rq) {
      TimesAppend(a.history, rq, rq.key);
      TimesAppend(b.history, rq, rq.key);
    }
  }

  lemma {:induction false} KeysAreIndependent(a: State, b: State, rqs: seq<Request>, key: string)
    requires AgreeOn(a, b, key)
    ensures TimesOf(Run(a, rqs).history, key) == TimesOf(Run(b, Only(rqs, key)).history, key)
    decreases |rqs|
  {
    if rqs != [] {
      var rq, rest := rqs[0], Only(rqs[1..], key);
      if rq.key == key {
        SameStep(a, b, rq);
        KeysAreIndependent(Step(a, rq), Step(b, rq), rqs[1..], key);
        assert ([rq] + rest)[1..] == rest;
      } else {
        OtherTimesKept(a, rq, key);
        KeysAreIndependent(Step(a, rq), b, rqs[1..], key);
        assert Only(rqs, key) == rest;
      }
    }
  }

  // ---- the clock hypothesis is needed ----

  lemma {:induction false} RepeatedTimes(n: nat, t: int, now: int, from: int)
    ensures var ts := seq(n, _ => t);
            && Recent(ts, now) == (if now - t < WINDOW_MS then ts else [])
            && InWindow(ts, from) == (if from <= t < from + WINDOW_MS then n else 0)
  {
    if n > 0 {
      var ts := seq(n, _ => t);
      assert ts[1..] == seq(n - 1, _ => t);
      assert ts == [t] + ts[1..];
      RepeatedTimes(n - 1, t, now, from);
    }
  }

  lemma {:induction false} RunConcat(s: State, a: seq<Request>, b: seq<Request>)
    ensures Run(s, a + b) == Run(Run(s, a), b)
    decreases |a|
  {
    if a == [] { assert a + b == b; }
    else { assert (a + b)[1..] == a[1..] + b; RunConcat(Step(s, a[0]), a[1..], b); }
  }

  lemma {:induction false} RunOne(s: State, rq: Request)
    ensures Run(s, [rq]) == Step(s, rq)
  {
    assert [rq][1..] == [];
  }

  function Burst(n: nat, key: string): seq<Request> { seq(n, _ => Request(key, 0)) }

  /** Up to the limit, every request of a burst at time 0 is admitted. */
  lemma {:induction false} BurstIsAdmitted(n: nat, key: string)
    requires 0 < n <= LIMIT
    ensures Run(EMPTY, Burst(n, key)) == State(map[key := seq(n, _ => 0)], Burst(n, key))
  {
    var rq, m := Request(key, 0), n - 1;
    var zeros := seq(m, _ => 0);
    assert Burst(n, key) == Burst(m, key) + [rq];
    RunConcat(EMPTY, Burst(m, key), [rq]);
    var s := Run(EMPTY, Burst(m, key));
    if m > 0 { BurstIsAdmitted(m, key); }
    RunOne(s, rq);
    assert ListOf(s.hits, key) == zeros && s.history == Burst(m, key);
    RepeatedTimes(m, 0, 0, 0);
    assert zeros + [0] == seq(n, _ => 0);
    assert s.hits[key := zeros + [0]] == map[key := zeros + [0]];
  }

  lemma {:induction false} LateEmptiesTheList(key: string, s: State, late: int)
    requires late >= WINDOW_MS && s == State(map[key := seq(30, _ => 0)], Burst(30, key))
    ensures Step(s, Request(key, late)) == State(map[key := [late]], s.history + [Request(key, late)])
  {
    RepeatedTimes(30, 0, late, 0);
    assert Recent(ListOf(s.hits, key), late) == [];
    assert [] + [late] == [late];
    assert s.hits[key := [late]] == map[key := [late]];
  }

  lemma {:induction false} OneListedAdmits(key: string, s: State, late: int, back: int)
    requires s.hits == map[key := [late]]
    ensures Step(s, Request(key, back)).history == s.history + [Request(key, back)]
  {
    assert ListOf(s.hits, key) == [late];
    assert Recent([late], back) == (if back - late < WINDOW_MS then [late] else []) + Recent([late][1..], back);
  }

  /** A late request at least a minute after the burst, which empties the list, then one with the clock set back. */
  lemma {:induction false} BackIntoTheBurst(key: string, late: int, back: int)
    requires late >= WINDOW_MS && 0 <= back < WINDOW_MS
    ensures var after := Run(EMPTY, Burst(30, key) + [Request(key, late)] + [Request(key, back)]);
      InWindow(TimesOf(after.history, key), 0) == 31
  {
    var a, b := Request(key, late), Request(key, back);
    RunConcat(EMPTY, Burst(30, key) + [a], [b]);
    RunConcat(EMPTY, Burst(30, key), [a]);
    BurstIsAdmitted(30, key);
    var full := Run(EMPTY, Burst(30, key));
    RunOne(full, a);
    LateEmptiesTheList(key, full, late);
    var s1 := Step(full, a);
    RunOne(s1, b);
    OneListedAdmits(key, s1, late, back);
    WindowAfterBurst(key, full.history, late, back);
  }

  lemma {:induction false} WindowAfterBurst(key: string, history: seq<Request>, late: int, back: int)
    requires history == Burst(30, key) && late >= WINDOW_MS && 0 <= back < WINDOW_MS
    ensures InWindow(TimesOf(history + [Request(key, late)] + [Request(key, back)], key), 0) == 31
  {
    var zeros := seq(30, _ => 0);
    RepeatedHistory(30, key);
    TimesAppend(history, Request(key, late), key);
    TimesAppend(history + [Request(key, late)], Request(key, back), key);
    RepeatedTimes(30, 0, 0, 0);
    WindowAppend(zeros, [late], 0);
    WindowAppend(zeros + [late], [back], 0);
    assert [late][1..] == [] && [back][1..] == [];
  }

  /** No request is stamped more than `d` before the one it follows. */
  ghost predicate SetBackAtMost(rqs: seq<Request>, d: nat)
  {
    forall i | 0 < i < |rqs| :: rqs[i - 1].now - d <= rqs[i].now
  }

  lemma {:induction false} NeverSetBack(rqs: seq<Request>, clock: int)
    requires SetBackAtMost(rqs, 0) && (rqs != [] ==> clock <= rqs[0].now)
    ensures ClockFrom(rqs, clock)
  {
    if rqs != [] {
      var t := rqs[1..];
      forall i | 0 < i < |t| ensures t[i - 1].now - 0 <= t[i].now { assert t[i - 1] == rqs[i] && t[i] == rqs[i + 1]; }
      NeverSetBack(t, rqs[0].now);
    }
  }

  ghost predicate LimitHolds(d: nat)
  {
    forall rqs: seq<Request>, key: string, from: int | SetBackAtMost(rqs, d) ::
      InWindow(TimesOf(Run(EMPTY, rqs).history, key), from) <= LIMIT
  }

  /** However little or much the clock can be set back, a run from an empty limiter gets 31 admissions into a minute. */
  lemma {:induction false} ClockSetBackBreaksTheLimit(d: nat, key: string) returns (rqs: seq<Request>)
    requires d > 0
    ensures SetBackAtMost(rqs, d) && InWindow(TimesOf(Run(EMPTY, rqs).history, key), 0) == 31
  {
    var late := if d <= WINDOW_MS then WINDOW_MS else d;
    rqs := Burst(30, key) + [Request(key, late)] + [Request(key, late - d)];
    BackIntoTheBurst(key, late, late - d);
  }

  /** The limit holds on every run exactly when the clock is never set back. */
  lemma {:induction false} LimitHoldsIff(d: nat)
    ensures LimitHolds(d) <==> d == 0
  {
    if d == 0 {
      forall rqs: seq<Request>, key: string, from: int | SetBackAtMost(rqs, 0)
        ensures InWindow(TimesOf(Run(EMPTY, rqs).history, key), from) <= LIMIT
      {
        var clock := if rqs == [] then 0 else rqs[0].now;
        NeverSetBack(rqs, clock);
        AtMostThirtyPerWindow(rqs, clock, key, from);
      }
    } else {
      var rqs := ClockSetBackBreaksTheLimit(d, "");
    }
  }

  lemma {:induction false} RepeatedHistory(n: nat, key: string)
    ensures TimesOf(seq(n, _ => Request(key, 0)), key) == seq(n, _ => 0)
  {
    if n > 0 {
      var h := seq(n, _ => Request(key, 0));
      assert h[..n - 1] == seq(n - 1, _ => Request(key, 0));
      RepeatedHistory(n - 1, key);
      assert seq(n - 1, _ => 0) + [0] == seq(n, _ => 0);
    }
  }
}
