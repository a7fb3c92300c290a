/**
  The read-through cache (backend/src/config/cache.ts) with its real steps: a `cached` call is a get, a produce and a
  set, an invalidation is a KEYS followed by a DEL, and these interleave across calls and processes ("pods") with
  catalog mutations, the clock, evictions and the loss of Redis.
 */
module Cache {
  import opened Identifiers

  type Key = string
  type CallId = nat
  type Pod = nat
  type SweepId = nat

  /** A JSON value; a cached `null` reads as a miss. */
  datatype Val = Null | Data(x: int)

  datatype Entry = Entry(val: Val, expires: int)

  type Store = map<Key, Entry>

  predicate Live(e: Entry, clock: int) { clock < e.expires }

  // ---- tenant keys and the KEYS pattern ----

  /** Redis glob matching with `*`, `?` and `\`. */
  predicate Glob(p: string, s: string)
    decreases |p| + |s|
  {
    if p == "" then s == ""
    else if p[0] == '*' then Glob(p[1..], s) || (s != "" && Glob(p, s[1..]))
    else if p[0] == '\\' && |p| >= 2 then s != "" && s[0] == p[1] && Glob(p[2..], s[1..])
    else s != "" && (p[0] == '?' || p[0] == s[0]) && Glob(p[1..], s[1..])
  }

  /** `?` stands for one character and `*` for any run of them. */
  lemma {:induction false} GlobWildcards(p: string, s: string)
    ensures Glob(['?'] + p, s) <==> s != "" && Glob(p, s[1..])
    ensures Glob(['*'] + p, s) <==> exists k | 0 <= k <= |s| :: Glob(p, s[k..])
    decreases |s|
  {
    assert (['?'] + p)[1..] == p && (['*'] + p)[1..] == p && s[0..] == s;
    if s != "" {
      GlobWildcards(p, s[1..]);
      assert forall k | 0 <= k <= |s| - 1 :: s[1..][k..] == s[k + 1..];
      if Glob(['*'] + p, s[1..]) {
        var k :| 0 <= k <= |s| - 1 && Glob(p, s[1..][k..]);
        assert Glob(p, s[k + 1..]);
      }
      if k :| 0 <= k <= |s| && Glob(p, s[k..]) {
        if k > 0 { assert s[1..][k - 1..] == s[k..]; }
      }
    }
  }

  function Prefix(t: string): string { "meta:" + t + ":" }

  function Pattern(t: string): string { Prefix(t) + "*" }

  predicate TenantKey(t: string, k: Key) { Prefix(t) <= k }

  lemma {:induction false} StarMatchesAll(s: string)
    ensures Glob("*", s)
  {
    if s != "" { StarMatchesAll(s[1..]); }
  }

  lemma {:induction false} LiteralGlobIsPrefix(b: string, s: string)
    requires forall i | 0 <= i < |b| :: b[i] != '*' && b[i] != '?' && b[i] != '\\'
    ensures Glob(b + "*", s) <==> b <= s
  {
    var p := b + "*";
    if b == "" {
      assert p == "*";
      StarMatchesAll(s);
    } else {
      assert p[1..] == b[1..] + "*";
      if s != "" { LiteralGlobIsPrefix(b[1..], s[1..]); }
    }
  }

  /** For a tenant id of letters, digits and underscores the pattern selects exactly the tenant's keys. */
  lemma {:induction false} PatternIsTenantKeys(t: string, k: Key)
    requires AllWord(t)
    ensures Glob(Pattern(t), k) <==> TenantKey(t, k)
  {
    LiteralGlobIsPrefix(Prefix(t), k);
  }

  /** The keys of a tenant are `meta:<id>:` followed by anything, as the metadata routes build them. */
  lemma {:induction false} KeysOfTenant(t: string, k: Key)
    ensures TenantKey(t, k) <==> exists rest: string :: k == "meta:" + t + ":" + rest
  {
    var p := "meta:" + t + ":";
    if TenantKey(t, k) { assert k == p + k[|p|..]; }
  }

  /** No key belongs to two such tenants. */
  lemma {:induction false} TenantKeysDisjoint(t: string, u: string, k: Key)
    requires AllWord(t) && AllWord(u) && TenantKey(t, k) && TenantKey(u, k)
    ensures t == u
  {
    var a, b := Prefix(t), Prefix(u);
    var n := if |t| <= |u| then |t| else |u|;
    assert forall i | 0 <= i < n :: t[i] == a[5 + i] == k[5 + i] == b[5 + i] == u[i];
    assert k[5 + |t|] == a[5 + |t|] == ':' && k[5 + |u|] == b[5 + |u|] == ':';
    assert |t| == |u|;
  }

  // ---- the three operations on the store ----

  /** cacheGet; `ok` is false when Redis errors. A miss, a disabled cache, an error and a cached null all read Null. */
  function Lookup(store: Store, enabled: bool, k: Key, clock: int, ok: bool): Val
  {
    if enabled && ok && k in store && Live(store[k], clock) then store[k].val else Null
  }

  function Put(store: Store, enabled: bool, k: Key, v: Val, ttl: nat, clock: int, ok: bool): Store
  {
    if enabled && ok then store[k := Entry(v, clock + ttl)] else store
  }

  function Matching(store: Store, pattern: string): set<Key> { set k | k in store && Glob(pattern, k) }

  class RedisCache {
    var store: Store
    var enabled: bool

    constructor ()
      ensures store == map[] && !enabled
    {
      store, enabled := map[], false;
    }

    method CacheGet(key: Key, clock: int, ok: bool) returns (v: Val)
      ensures v == Lookup(store, enabled, key, clock, ok)
    {
      if !enabled { return Null; }
      if !ok || key !in store || clock >= store[key].expires { return Null; }
      return store[key].val;
    }

    method CacheSet(key: Key, v: Val, ttl: nat, clock: int, ok: bool)
      modifies this`store
      ensures store == Put(old(store), enabled, key, v, ttl, clock, ok)
    {
      if !enabled { return; }
      if ok { store := store[key := Entry(v, clock + ttl)]; }
    }

    /** Undisturbed: exactly the keys of a well-formed tenant go, and every other tenant's keys stay. */
    method InvalidateTenant(t: string, ok: bool)
      requires AllWord(t)
      modifies this`store
      ensures enabled && ok ==> store == map k | k in old(store) && !("meta:" + t + ":" <= k) :: old(store)[k]
      ensures !(enabled && ok) ==> store == old(store)
    {
      if !enabled || !ok { return; }
      var keys := set k | k in store && Glob("meta:" + t + ":*", k);
      assert "meta:" + t + ":*" == Pattern(t);
      forall k | k in store ensures k in keys <==> TenantKey(t, k) { PatternIsTenantKeys(t, k); }
      store := store - keys;
    }

    /** An undisturbed `cached` call whose producer answers `produced`. */
    method Cached(key: Key, ttl: nat, produced: Val, start: int, end: int, getOk: bool, setOk: bool) returns (v: Val)
      modifies this`store
      ensures var hit := Lookup(old(store), enabled, key, start, getOk);
              && v == (if hit != Null then hit else produced)
              && store == (if hit != Null then old(store) else Put(old(store), enabled, key, produced, ttl, end, setOk))
    {
      var hit := CacheGet(key, start, getOk);
      if hit != Null { return hit; }
      CacheSet(key, produced, ttl, end, setOk);
      return produced;
    }
  }

  // ---- interleaved runs ----

  datatype Call =
    | Started(pod: Pod, key: Key, ttl: nat)
    | Producing(pod: Pod, key: Key, ttl: nat)
    | Storing(pod: Pod, key: Key, ttl: nat, val: Val)
    | Returned(pod: Pod, key: Key, val: Val)

  /** A process's link to Redis: `enabled` is false while connecting, true once connected, and false again for good. */
  datatype Link = Connecting | Up | Lost

  datatype State = State(clock: int, truth: map<Key, Val>, store: Store, links: map<Pod, Link>,
                         calls: map<CallId, Call>, sweeps: map<SweepId, set<Key>>)

  function LinkOf(s: State, pod: Pod): Link { if pod in s.links then s.links[pod] else Connecting }

  /** The `enabled` flag of a process. */
  predicate IsUp(s: State, pod: Pod) { LinkOf(s, pod) == Up }

  function Truth(s: State, k: Key): Val { if k in s.truth then s.truth[k] else Null }

  datatype Event =
    | Tick(d: nat)
    | Mutate(t: string, upd: map<Key, Val>)
    | Begin(c: CallId, pod: Pod, key: Key, ttl: nat)
    | Get(c: CallId, ok: bool)
    | Produce(c: CallId)
    | Set(c: CallId, ok: bool)
    | SweepKeys(id: SweepId, pod: Pod, t: string)
    | SweepDel(id: SweepId)
    | MutateAndInvalidate(pod: Pod, t: string, upd: map<Key, Val>)
    | Evict(k: Key)
    | Connect(pod: Pod)
    | Lose(pod: Pod)

  /** Catalog rows are read under the tenant's own keys only. */
  predicate UpdatesTenant(t: string, upd: map<Key, Val>) { forall k | k in upd :: TenantKey(t, k) }

  predicate Enabled(s: State, e: Event)
  {
    match e
    case Mutate(t, upd) => AllWord(t) && UpdatesTenant(t, upd)
    case MutateAndInvalidate(_, t, upd) => AllWord(t) && UpdatesTenant(t, upd)
    case Begin(c, _, _, _) => c !in s.calls
    case Get(c, _) => c in s.calls && s.calls[c].Started?
    case Produce(c) => c in s.calls && s.calls[c].Producing?
    case Set(c, _) => c in s.calls && s.calls[c].Storing?
    case SweepKeys(id, _, t) => id !in s.sweeps && AllWord(t)
    case SweepDel(id) => id in s.sweeps
    case Connect(pod) => LinkOf(s, pod) == Connecting
    case _ => true
  }

  function Step(s: State, e: Event): State
    requires Enabled(s, e)
  {
    match e
    case Tick(d) => s.(clock := s.clock + d)
    case Mutate(_, upd) => s.(truth := s.truth + upd)
    case Begin(c, pod, key, ttl) => s.(calls := s.calls[c := Started(pod, key, ttl)])
    case Get(c, ok) =>
      var q := s.calls[c];
      var v := Lookup(s.store, IsUp(s, q.pod), q.key, s.clock, ok);
      s.(calls := s.calls[c := if v != Null then Returned(q.pod, q.key, v) else Producing(q.pod, q.key, q.ttl)])
    case Produce(c) =>
      var q := s.calls[c];
      s.(calls := s.calls[c := Storing(q.pod, q.key, q.ttl, Truth(s, q.key))])
    case Set(c, ok) =>
      var q := s.calls[c];
      s.(store := Put(s.store, IsUp(s, q.pod), q.key, q.val, q.ttl, s.clock, ok),
         calls := s.calls[c := Returned(q.pod, q.key, q.val)])
    case SweepKeys(id, pod, t) =>
      s.(sweeps := s.sweeps[id := if IsUp(s, pod) then Matching(s.store, Pattern(t)) else {}])
    case SweepDel(id) => s.(store := s.store - s.sweeps[id], sweeps := s.sweeps - {id})
    case MutateAndInvalidate(pod, t, upd) =>
      s.(truth := s.truth + upd, store := if IsUp(s, pod) then s.store - Matching(s.store, Pattern(t)) else s.store)
    case Evict(k) => s.(store := s.store - {k})
    case Connect(pod) => s.(links := s.links[pod := Up])
    case Lose(pod) => s.(links := s.links[pod := Lost])
  }

  /** The combined event is a mutation immediately followed by its tenant's KEYS and DEL. */
  lemma {:induction false} InvalidationImmediatelyAfter(s: State, pod: Pod, t: string, upd: map<Key, Val>, id: SweepId)
    requires AllWord(t) && UpdatesTenant(t, upd) && id !in s.sweeps
    ensures var s1 := Step(s, Mutate(t, upd));
            Step(Step(s1, SweepKeys(id, pod, t)), SweepDel(id)) == Step(s, MutateAndInvalidate(pod, t, upd))
  {
    var s1 := Step(s, Mutate(t, upd));
    var s3 := Step(Step(s1, SweepKeys(id, pod, t)), SweepDel(id));
    assert s3.sweeps == s.sweeps;
    assert s.store - {} == s.store;
  }

  datatype Run = Run(states: seq<State>, events: seq<Event>)

  predicate IsRun(r: Run)
  {
    && |r.states| == |r.events| + 1
    && r.states[0].store == map[] && r.states[0].calls == map[]
    && r.states[0].links == map[] && r.states[0].sweeps == map[]
    && forall n | 0 <= n < |r.events| ::
         Enabled(r.states[n], r.events[n]) && r.states[n + 1] == Step(r.states[n], r.events[n])
  }

  // ---- every stored value has a fill behind it ----

  /** Event `i` is call `c` producing for `key`, and `v` is what the catalog said at that moment. */
  predicate Produced(r: Run, i: nat, c: CallId, key: Key, ttl: nat, v: Val)
    requires IsRun(r)
  {
    && i < |r.events| && r.events[i] == Produce(c)
    && c in r.states[i].calls && r.states[i].calls[c].Producing?
    && r.states[i].calls[c].key == key && r.states[i].calls[c].ttl == ttl
    && v == Truth(r.states[i], key)
  }

  /** Call `c` produced `v` at event `i` and set it at event `j`. */
  predicate Filled(r: Run, i: nat, j: nat, c: CallId, key: Key, ttl: nat, v: Val)
    requires IsRun(r)
  {
    i < j < |r.events| && Produced(r, i, c, key, ttl, v) && r.events[j].Set? && r.events[j].c == c
  }

  ghost predicate PendingKnown(r: Run, n: nat, c: CallId)
    requires IsRun(r) && n < |r.states|
  {
    c in r.states[n].calls && r.states[n].calls[c].Storing? ==>
      var q := r.states[n].calls[c];
      exists i :: 0 <= i < n && Produced(r, i, c, q.key, q.ttl, q.val)
  }

  lemma {:induction false} PendingHasProducer(r: Run, n: nat, c: CallId)
    requires IsRun(r) && n < |r.states|
    ensures PendingKnown(r, n, c)
  {
    if n > 0 {
      PendingHasProducer(r, n - 1, c);
      var e, s, s' := r.events[n - 1], r.states[n - 1], r.states[n];
      assert s' == Step(s, e);
      if c in s'.calls && s'.calls[c].Storing? {
        var q := s'.calls[c];
        if e == Produce(c) { assert Produced(r, n - 1, c, q.key, q.ttl, q.val); }
        else {
          assert s.calls[c] == q;
          var i :| 0 <= i < n - 1 && Produced(r, i, c, q.key, q.ttl, q.val);
          assert 0 <= i < n && Produced(r, i, c, q.key, q.ttl, q.val);
        }
      }
    }
  }

  ghost predicate EntryKnown(r: Run, n: nat, k: Key)
    requires IsRun(r) && n < |r.states|
  {
    k in r.states[n].store ==>
      var e := r.states[n].store[k];
      exists i: nat, j: nat, c: CallId, ttl: nat ::
        j < n && Filled(r, i, j, c, k, ttl, e.val) && e.expires == r.states[j].clock + ttl
  }

  /** Event `e` stores a value under `k`. */
  predicate Stores(s: State, e: Event, k: Key)
    requires Enabled(s, e)
  {
    e.Set? && s.calls[e.c].key == k && IsUp(s, s.calls[e.c].pod) && e.ok
  }

  lemma {:induction false} OnlySetsStore(s: State, e: Event, k: Key)
    requires Enabled(s, e) && k in Step(s, e).store && !Stores(s, e, k)
    ensures k in s.store && Step(s, e).store[k] == s.store[k]
  {
  }

  lemma {:induction false} EntryHasFill(r: Run, n: nat, k: Key)
    requires IsRun(r) && n < |r.states|
    ensures EntryKnown(r, n, k)
  {
    if n > 0 && k in r.states[n].store {
      var e, s := r.events[n - 1], r.states[n - 1];
      assert r.states[n] == Step(s, e);
      if Stores(s, e, k) { SetIsFill(r, n - 1, k); }
      else {
        OnlySetsStore(s, e, k);
        EntryHasFill(r, n - 1, k);
        FillStays(r, n - 1, k, s.store[k]);
      }
    }
  }

  /** The store at event `n` is the end of a fill. */
  lemma {:induction false} SetIsFill(r: Run, n: nat, k: Key)
    requires IsRun(r) && n < |r.events| && Stores(r.states[n], r.events[n], k)
    ensures EntryKnown(r, n + 1, k)
  {
    var c := r.events[n].c;
    var q := r.states[n].calls[c];
    assert r.states[n + 1] == Step(r.states[n], r.events[n]);
    PendingHasProducer(r, n, c);
    var i :| 0 <= i < n && Produced(r, i, c, q.key, q.ttl, q.val);
    assert Filled(r, i, n, c, k, q.ttl, q.val);
  }

  lemma {:induction false} FillStays(r: Run, n: nat, k: Key, e: Entry)
    requires IsRun(r) && n < |r.events| && EntryKnown(r, n, k) && k in r.states[n].store && r.states[n].store[k] == e
    requires k in r.states[n + 1].store && r.states[n + 1].store[k] == e
    ensures EntryKnown(r, n + 1, k)
  {
    var i: nat, j: nat, c: CallId, ttl: nat :|
      j < n && Filled(r, i, j, c, k, ttl, e.val) && e.expires == r.states[j].clock + ttl;
    assert j < n + 1 && Filled(r, i, j, c, k, ttl, e.val);
  }

  // ---- freshness ----

  /** Event `n` makes call `c` return `v` for `key`. */
  predicate Returns(r: Run, n: nat, c: CallId, key: Key, v: Val)
    requires IsRun(r)
  {
    && n < |r.events|
    && c in r.states[n].calls && !r.states[n].calls[c].Returned?
    && c in r.states[n + 1].calls && r.states[n + 1].calls[c].Returned?
    && r.states[n + 1].calls[c].key == key && r.states[n + 1].calls[c].val == v
  }

  lemma {:induction false} ReturnsAreGetOrSet(r: Run, n: nat, c: CallId, key: Key, v: Val)
    requires IsRun(r) && Returns(r, n, c, key, v)
    ensures r.events[n].Get? || r.events[n].Set?
    ensures r.events[n].c == c && r.states[n].calls[c].key == key
    ensures r.events[n].Set? ==> r.states[n].calls[c].Storing? && r.states[n].calls[c].val == v
    ensures r.events[n].Get? ==> IsUp(r.states[n], r.states[n].calls[c].pod) && key in r.states[n].store
                                 && Live(r.states[n].store[key], r.states[n].clock) && r.states[n].store[key].val == v
  {
    assert r.states[n + 1] == Step(r.states[n], r.events[n]);
  }

  /**
    Freshness under every interleaving: a returned value was the catalog's true answer at the produce instant `i` of
    some fill that set it at instant `j`, and it is never older than that fill's TTL plus its produce-to-set delay,
    even when a slow fill overwrites a newer invalidation.
   */
  lemma {:induction false} ReturnedValueIsFresh(r: Run, n: nat, c: CallId, key: Key, v: Val)
    returns (i: nat, j: nat, filler: CallId, ttl: nat)
    requires IsRun(r) && Returns(r, n, c, key, v)
    ensures j <= n && Filled(r, i, j, filler, key, ttl, v)
    ensures j < n ==> r.states[n].clock < r.states[j].clock + ttl
    ensures r.states[n].clock - r.states[i].clock <= ttl + (r.states[j].clock - r.states[i].clock)
  {
    ReturnsAreGetOrSet(r, n, c, key, v);
    if r.events[n].Set? {
      var q := r.states[n].calls[c];
      PendingHasProducer(r, n, c);
      i :| 0 <= i < n && Produced(r, i, c, key, q.ttl, v);
      j, filler, ttl := n, c, q.ttl;
    } else {
      EntryHasFill(r, n, key);
      var e := r.states[n].store[key];
      i, j, filler, ttl :| j < n && Filled(r, i, j, filler, key, ttl, e.val) && e.expires == r.states[j].clock + ttl;
    }
  }

  // ---- a pod that lost Redis ----

  lemma {:induction false} LostStaysLost(r: Run, m: nat, n: nat, pod: Pod)
    requires IsRun(r) && m <= n < |r.states| && LinkOf(r.states[m], pod) == Lost
    ensures LinkOf(r.states[n], pod) == Lost
    decreases n - m
  {
    if m < n {
      LinkMovesOn(r, m, pod);
      LostStaysLost(r, m + 1, n, pod);
    }
  }

  /** After an error on a process, every call there answers what its own producer read, never a stored entry. */
  lemma {:induction false} NoStoredEntryAfterLoss(r: Run, m: nat, n: nat, c: CallId, key: Key, v: Val) returns (i: nat)
    requires IsRun(r) && m <= n && Returns(r, n, c, key, v) && LinkOf(r.states[m], r.states[n].calls[c].pod) == Lost
    ensures i < n && r.events[i] == Produce(c) && v == Truth(r.states[i], key)
  {
    LostStaysLost(r, m, n, r.states[n].calls[c].pod);
    i := DownAnswersFresh(r, n, c, key, v);
  }

  /** The same wherever `enabled` is false, so also for a process that is still connecting. */
  lemma {:induction false} DownAnswersFresh(r: Run, n: nat, c: CallId, key: Key, v: Val) returns (i: nat)
    requires IsRun(r) && Returns(r, n, c, key, v) && !IsUp(r.states[n], r.states[n].calls[c].pod)
    ensures i < n && r.events[i] == Produce(c) && v == Truth(r.states[i], key)
  {
    ReturnsAreGetOrSet(r, n, c, key, v);
    PendingHasProducer(r, n, c);
    var q := r.states[n].calls[c];
    i :| 0 <= i < n && Produced(r, i, c, q.key, q.ttl, q.val);
  }

  /** Up to its loss a process was connecting first: `enabled` turns true at most once. */
  lemma {:induction false} UpMeansConnected(r: Run, n: nat, pod: Pod) returns (m: nat)
    requires IsRun(r) && n < |r.states| && IsUp(r.states[n], pod)
    ensures m < n && r.events[m] == Connect(pod)
    ensures forall i | m < i <= n :: IsUp(r.states[i], pod)
    ensures forall i | 0 <= i <= m :: LinkOf(r.states[i], pod) == Connecting
  {
    assert n > 0;
    LinkMovesOn(r, n - 1, pod);
    if IsUp(r.states[n - 1], pod) { m := UpMeansConnected(r, n - 1, pod); }
    else {
      m := n - 1;
      ConnectingSoFar(r, m, pod);
    }
  }

  lemma {:induction false} ConnectingSoFar(r: Run, n: nat, pod: Pod)
    requires IsRun(r) && n < |r.states| && LinkOf(r.states[n], pod) == Connecting
    ensures forall i | 0 <= i <= n :: LinkOf(r.states[i], pod) == Connecting
  {
    if n > 0 {
      LinkMovesOn(r, n - 1, pod);
      ConnectingSoFar(r, n - 1, pod);
    }
  }

  /** No step leads back to connecting, and only a connect leads to a link that is up. */
  lemma {:induction false} LinkMovesOn(r: Run, n: nat, pod: Pod)
    requires IsRun(r) && n < |r.events|
    ensures var a, b := LinkOf(r.states[n], pod), LinkOf(r.states[n + 1], pod);
      && (b == Connecting ==> a == Connecting)
      && (b == Up && a != Up ==> r.events[n] == Connect(pod) && a == Connecting)
      && (a == Lost ==> b == Lost)
  {
    assert r.states[n + 1] == Step(r.states[n], r.events[n]);
  }

  // ---- transparency ----

  predicate Transparent(s: State)
  {
    forall k | k in s.store && Live(s.store[k], s.clock) :: s.store[k].val == Truth(s, k)
  }

  /** An update that leaves the store alone contradicts no live entry. */
  predicate AgreesWithStore(s: State, upd: map<Key, Val>)
  {
    forall k | k in upd && k in s.store && Live(s.store[k], s.clock) :: s.store[k].val == upd[k]
  }

  /**
    What keeps the cache true: a set that reaches the store (for some time) stores the current answer, and a mutation
    that no invalidation accompanies, or whose process has no Redis, contradicts no live entry.
   */
  predicate Harmless(s: State, e: Event)
    requires Enabled(s, e)
  {
    match e
    case Set(c, ok) =>
      var q := s.calls[c];
      IsUp(s, q.pod) && ok && q.ttl > 0 ==> q.val == Truth(s, q.key)
    case Mutate(_, upd) => AgreesWithStore(s, upd)
    case MutateAndInvalidate(pod, _, upd) => IsUp(s, pod) || AgreesWithStore(s, upd)
    case _ => true
  }

  lemma {:induction false} MutationHarmlessIff(s: State, s': State, upd: map<Key, Val>)
    requires Transparent(s) && s' == s.(truth := s.truth + upd)
    ensures Transparent(s') <==> AgreesWithStore(s, upd)
  {
    if Transparent(s') {
      forall k | k in upd && k in s.store && Live(s.store[k], s.clock) ensures s.store[k].val == upd[k] {
        assert s'.store[k].val == Truth(s', k);
      }
    }
  }

  lemma {:induction false} InvalidationKeepsTransparent(s: State, pod: Pod, t: string, upd: map<Key, Val>)
    requires Transparent(s) && AllWord(t) && UpdatesTenant(t, upd) && IsUp(s, pod)
    ensures Transparent(Step(s, MutateAndInvalidate(pod, t, upd)))
  {
    var s' := Step(s, MutateAndInvalidate(pod, t, upd));
    forall k | k in s'.store && Live(s'.store[k], s'.clock) ensures s'.store[k].val == Truth(s', k) {
      PatternIsTenantKeys(t, k);
      assert k !in upd;
    }
  }

  lemma {:induction false} SetHarmlessIff(s: State, c: CallId, ok: bool)
    requires Transparent(s) && Enabled(s, Set(c, ok))
    ensures Transparent(Step(s, Set(c, ok))) <==> Harmless(s, Set(c, ok))
  {
    var q, s' := s.calls[c], Step(s, Set(c, ok));
    if IsUp(s, q.pod) && ok && q.ttl > 0 { assert s'.store[q.key] == Entry(q.val, s.clock + q.ttl); }
  }

  /** A step from a transparent state keeps it transparent exactly when it is harmless. */
  lemma {:induction false} StepTransparentIff(s: State, e: Event)
    requires Transparent(s) && Enabled(s, e)
    ensures Transparent(Step(s, e)) <==> Harmless(s, e)
  {
    match e
    case Set(c, ok) => SetHarmlessIff(s, c, ok);
    case Mutate(_, upd) => MutationHarmlessIff(s, Step(s, e), upd);
    case MutateAndInvalidate(pod, t, upd) =>
      if IsUp(s, pod) { InvalidationKeepsTransparent(s, pod, t, upd); }
      else { MutationHarmlessIff(s, Step(s, e), upd); }
    case _ =>
  }

  ghost predicate HarmlessUpTo(r: Run, n: nat)
    requires IsRun(r) && n < |r.states|
  {
    forall m | 0 <= m < n :: Harmless(r.states[m], r.events[m])
  }

  lemma {:induction false} TransparentUpToIff(r: Run, n: nat)
    requires IsRun(r) && n < |r.states|
    ensures (forall m | 0 <= m <= n :: Transparent(r.states[m])) <==> HarmlessUpTo(r, n)
  {
    if n > 0 {
      TransparentUpToIff(r, n - 1);
      assert r.states[n] == Step(r.states[n - 1], r.events[n - 1]);
      if Transparent(r.states[n - 1]) { StepTransparentIff(r.states[n - 1], r.events[n - 1]); }
    }
  }

  /**
    In every run, whatever is invalidated when and on whichever process: the cache is transparent in every state
    exactly when every step is harmless.
   */
  lemma {:induction false} TransparentIff(r: Run)
    requires IsRun(r)
    ensures (forall n | 0 <= n < |r.states| :: Transparent(r.states[n])) <==> HarmlessUpTo(r, |r.events|)
  {
    TransparentUpToIff(r, |r.events|);
  }

  /** Every mutation is followed at once by its tenant's invalidation, on a process that has Redis. */
  predicate Disciplined(r: Run)
    requires IsRun(r)
  {
    forall n | 0 <= n < |r.events| ::
      !r.events[n].Mutate? && (r.events[n].MutateAndInvalidate? ==> IsUp(r.states[n], r.events[n].pod))
  }

  /** The set at event `n` reaches the store for some time. */
  predicate Effective(r: Run, n: nat)
    requires IsRun(r) && n < |r.events|
  {
    r.events[n].Set? &&
    var q := r.states[n].calls[r.events[n].c];
    IsUp(r.states[n], q.pod) && r.events[n].ok && q.ttl > 0
  }

  /** The call has this value for this key in hand, or has returned. */
  predicate HoldsOrReturned(q: Call, key: Key, v: Val) { q.Returned? || (q.Storing? && q.key == key && q.val == v) }

  lemma {:induction false} ProduceStores(r: Run, i: nat, c: CallId)
    requires IsRun(r) && i < |r.events| && r.events[i] == Produce(c)
    ensures c in r.states[i].calls && c in r.states[i + 1].calls
    ensures var key := r.states[i].calls[c].key; HoldsOrReturned(r.states[i + 1].calls[c], key, Truth(r.states[i], key))
  {
    assert r.states[i + 1] == Step(r.states[i], r.events[i]);
  }

  lemma {:induction false} StorerMovesOn(r: Run, n: nat, c: CallId, key: Key, v: Val)
    requires IsRun(r) && n < |r.events| && c in r.states[n].calls && HoldsOrReturned(r.states[n].calls[c], key, v)
    ensures c in r.states[n + 1].calls && HoldsOrReturned(r.states[n + 1].calls[c], key, v)
  {
    assert r.states[n + 1] == Step(r.states[n], r.events[n]);
  }

  lemma {:induction false} StorerKeepsValue(r: Run, m: nat, n: nat, c: CallId, key: Key, v: Val)
    requires IsRun(r) && m <= n < |r.states| && c in r.states[m].calls && HoldsOrReturned(r.states[m].calls[c], key, v)
    ensures c in r.states[n].calls && HoldsOrReturned(r.states[n].calls[c], key, v)
    decreases n - m
  {
    if m < n {
      StorerMovesOn(r, m, c, key, v);
      StorerKeepsValue(r, m + 1, n, c, key, v);
    }
  }

  /** What call `c` produced at event `i` is what it still holds at state `n`, if it has not returned by then. */
  lemma {:induction false} HoldsProduced(r: Run, i: nat, n: nat, c: CallId)
    requires IsRun(r) && i < n < |r.states| && i < |r.events| && r.events[i] == Produce(c)
    ensures c in r.states[i].calls && c in r.states[n].calls
    ensures var key := r.states[i].calls[c].key; HoldsOrReturned(r.states[n].calls[c], key, Truth(r.states[i], key))
  {
    ProduceStores(r, i, c);
    var key := r.states[i].calls[c].key;
    StorerKeepsValue(r, i + 1, n, c, key, Truth(r.states[i], key));
  }

  /** The answer under the key of the set at event `n` changed after its call produced, at event `i`. */
  predicate ChangedInside(r: Run, i: nat, n: nat)
    requires IsRun(r) && i < n < |r.events| && r.events[n].Set?
  {
    var key := r.states[n].calls[r.events[n].c].key;
    r.events[i] == Produce(r.events[n].c) && Truth(r.states[i], key) != Truth(r.states[n], key)
  }

  ghost predicate NoChangeInsideFills(r: Run)
    requires IsRun(r)
  {
    forall i: nat, n: nat | i < n < |r.events| && Effective(r, n) :: !ChangedInside(r, i, n)
  }

  lemma {:induction false} SetHarmlessByHistory(r: Run, n: nat)
    requires IsRun(r) && n < |r.events| && Effective(r, n)
    ensures Harmless(r.states[n], r.events[n]) <==> forall i: nat | i < n :: !ChangedInside(r, i, n)
  {
    var c := r.events[n].c;
    var q := r.states[n].calls[c];
    PendingHasProducer(r, n, c);
    var j :| 0 <= j < n && Produced(r, j, c, q.key, q.ttl, q.val);
    assert ChangedInside(r, j, n) <==> q.val != Truth(r.states[n], q.key);
    forall i: nat | i < n && ChangedInside(r, i, n) ensures q.val != Truth(r.states[n], q.key) {
      HoldsProduced(r, i, n, c);
    }
  }

  /**
    With every mutation invalidated at once on a process that has Redis: transparent in every state exactly when no
    answer changes between the produce and the effective set of one call.
   */
  lemma {:induction false} TransparentIffNoChangeInside(r: Run)
    requires IsRun(r) && Disciplined(r)
    ensures (forall n | 0 <= n < |r.states| :: Transparent(r.states[n])) <==> NoChangeInsideFills(r)
  {
    TransparentIff(r);
    forall n: nat | n < |r.events|
      ensures Harmless(r.states[n], r.events[n])
         <==> !Effective(r, n) || forall i: nat | i < n :: !ChangedInside(r, i, n)
    {
      if Effective(r, n) { SetHarmlessByHistory(r, n); }
    }
  }

  /** No mutation of the key's tenant falls between a call's produce and its set. */
  predicate NoMutationInsideFills(r: Run)
    requires IsRun(r)
  {
    forall i, m, n | 0 <= i < m < n < |r.events| && r.events[i].Produce? && r.events[n].Set?
                     && r.events[n].c == r.events[i].c && r.events[m].MutateAndInvalidate? ::
      !TenantKey(r.events[m].t, r.states[n].calls[r.events[n].c].key)
  }

  lemma {:induction false} TruthUnchanged(r: Run, i: nat, n: nat, k: Key)
    requires IsRun(r) && i <= n < |r.states|
    requires forall m | i <= m < n ::
               !r.events[m].Mutate? && (r.events[m].MutateAndInvalidate? ==> !TenantKey(r.events[m].t, k))
    ensures Truth(r.states[i], k) == Truth(r.states[n], k)
    decreases n - i
  {
    if i < n {
      assert r.states[i + 1] == Step(r.states[i], r.events[i]);
      TruthUnchanged(r, i + 1, n, k);
    }
  }

  /** Disciplined, and no mutation inside a fill: every live entry equals the current truth in every state. */
  lemma {:induction false} QuietFillsAreTransparent(r: Run, n: nat)
    requires IsRun(r) && Disciplined(r) && NoMutationInsideFills(r) && n < |r.states|
    ensures Transparent(r.states[n])
  {
    forall m | 0 <= m < |r.events| ensures Harmless(r.states[m], r.events[m]) {
      if r.events[m].Set? {
        var c := r.events[m].c;
        var q := r.states[m].calls[c];
        PendingHasProducer(r, m, c);
        var i :| 0 <= i < m && Produced(r, i, c, q.key, q.ttl, q.val);
        assert r.events[i] == Produce(c);
        TruthUnchanged(r, i, m, q.key);
      }
    }
    TransparentUpToIff(r, |r.events|);
  }

  // ---- the hypotheses are needed: two runs that serve an outdated value ----

  function Last(r: Run): State
    requires r.states != []
  {
    r.states[|r.states| - 1]
  }

  function Then(r: Run, e: Event): Run
    requires IsRun(r) && Enabled(Last(r), e)
  {
    Run(r.states + [Step(Last(r), e)], r.events + [e])
  }

  lemma {:induction false} ThenIsRun(r: Run, e: Event)
    requires IsRun(r) && Enabled(Last(r), e)
    ensures IsRun(Then(r, e)) && Last(Then(r, e)) == Step(Last(r), e)
    ensures Disciplined(r) && !e.Mutate? && (e.MutateAndInvalidate? ==> IsUp(Last(r), e.pod)) ==>
              Disciplined(Then(r, e))
  {
    var r' := Then(r, e);
    forall n | 0 <= n < |r'.events|
      ensures Enabled(r'.states[n], r'.events[n]) && r'.states[n + 1] == Step(r'.states[n], r'.events[n])
    {
      assert r'.states[n] == r.states[n];
      if n < |r.events| { assert r'.states[n + 1] == r.states[n + 1] && r'.events[n] == r.events[n]; }
    }
  }

  /** Process 0 connects, misses on `k` and produces the current answer `v`. */
  lemma {:induction false} MissAndProduce(k: Key, v: Val, ttl: nat) returns (r: Run)
    ensures IsRun(r) && Disciplined(r)
    ensures Last(r) == State(0, map[k := v], map[], map[0 := Up], map[0 := Storing(0, k, ttl, v)], map[])
  {
    r := ConnectAndBegin(k, v, ttl);
    ThenIsRun(r, Get(0, true));
    r := Then(r, Get(0, true));
    assert Last(r).calls == map[0 := Producing(0, k, ttl)];
    ThenIsRun(r, Produce(0));
    r := Then(r, Produce(0));
    assert Last(r).calls == map[0 := Storing(0, k, ttl, v)];
  }

  lemma {:induction false} ConnectAndBegin(k: Key, v: Val, ttl: nat) returns (r: Run)
    ensures IsRun(r) && Disciplined(r)
    ensures Last(r) == State(0, map[k := v], map[], map[0 := Up], map[0 := Started(0, k, ttl)], map[])
  {
    r := Run([State(0, map[k := v], map[], map[], map[], map[])], []);
    ThenIsRun(r, Connect(0));
    r := Then(r, Connect(0));
    assert Last(r).links == map[0 := Up];
    ThenIsRun(r, Begin(0, 0, k, ttl));
    r := Then(r, Begin(0, 0, k, ttl));
    assert Last(r).calls == map[0 := Started(0, k, ttl)];
  }

  /** Another call of process 0 reads `k` and returns what is stored. */
  lemma {:induction false} ServesStored(r: Run, k: Key, v: Val, ttl: nat) returns (r': Run)
    requires IsRun(r) && 1 !in Last(r).calls && IsUp(Last(r), 0) && v != Null
    requires k in Last(r).store && Live(Last(r).store[k], Last(r).clock) && Last(r).store[k].val == v
    ensures IsRun(r') && (Disciplined(r) ==> Disciplined(r'))
    ensures Last(r').truth == Last(r).truth && Last(r').store == Last(r).store
    ensures Last(r').clock == Last(r).clock
    ensures 1 in Last(r').calls && Last(r').calls[1] == Returned(0, k, v)
  {
    ThenIsRun(r, Begin(1, 0, k, ttl));
    r' := Then(r, Begin(1, 0, k, ttl));
    ThenIsRun(r', Get(1, true));
    r' := Then(r', Get(1, true));
  }

  /** A call returned `v` for `k` although the catalog says something else, and a live entry still holds it. */
  predicate ServedStale(s: State, k: Key, v: Val)
  {
    1 in s.calls && s.calls[1] == Returned(0, k, v) && Truth(s, k) != v && !Transparent(s)
  }

  /** A slow fill: produce, then mutate and invalidate, then set. The old value is served again although invalidated. */
  lemma {:induction false} SlowFillStoresStale(t: string, k: Key, v: Val, w: Val, ttl: nat) returns (r: Run)
    requires AllWord(t) && TenantKey(t, k) && v != w && v != Null && ttl > 0
    ensures IsRun(r) && Disciplined(r) && ServedStale(Last(r), k, v)
  {
    r := MissAndProduce(k, v, ttl);
    var e := MutateAndInvalidate(0, t, map[k := w]);
    ThenIsRun(r, e);
    r := Then(r, e);
    assert Truth(Last(r), k) == w;
    ThenIsRun(r, Set(0, true));
    r := Then(r, Set(0, true));
    assert Last(r).store[k] == Entry(v, ttl);
    r := ServesStored(r, k, v, ttl);
    assert Truth(Last(r), k) == w;
  }

  /** A mutation on a process without Redis invalidates nothing: another one serves the old value until it expires. */
  lemma {:induction false} DisabledPodLeavesStale(t: string, k: Key, v: Val, w: Val, ttl: nat) returns (r: Run)
    requires AllWord(t) && TenantKey(t, k) && v != w && v != Null && ttl > 0
    ensures IsRun(r) && ServedStale(Last(r), k, v)
  {
    r := MissAndProduce(k, v, ttl);
    ThenIsRun(r, Set(0, true));
    r := Then(r, Set(0, true));
    assert Last(r).store[k] == Entry(v, ttl);
    var e := MutateAndInvalidate(1, t, map[k := w]);
    ThenIsRun(r, e);
    r := Then(r, e);
    assert Truth(Last(r), k) == w;
    r := ServesStored(r, k, v, ttl);
    assert Truth(Last(r), k) == w;
  }
}
