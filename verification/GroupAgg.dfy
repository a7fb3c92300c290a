/** The lexicographic order on key texts that groupAgg sorts by. */
module TextOrder {
  predicate Below(a: string, b: string)
  {
    b != "" && (a == "" || a[0] < b[0] || (a[0] == b[0] && Below(a[1..], b[1..])))
  }

  lemma {:induction false} Trichotomy(a: string, b: string)
    ensures a == b || Below(a, b) || Below(b, a)
    ensures !(Below(a, b) && Below(b, a)) && !Below(a, a)
  {
    if a != "" {
      Trichotomy(a[1..], a[1..]);
      if b != "" {
        Trichotomy(a[1..], b[1..]);
        if a[0] == b[0] { assert a == [a[0]] + a[1..] && b == [b[0]] + b[1..]; }
      }
    }
  }

  lemma {:induction false} Transitive(a: string, b: string, c: string)
    requires Below(a, b) && Below(b, c)
    ensures Below(a, c)
  {
    if a != "" && a[0] == b[0] == c[0] { Transitive(a[1..], b[1..], c[1..]); }
  }

  /** Below at the first differing character, or as a proper beginning. */
  ghost predicate Precedes(a: string, b: string)
  {
    exists n | 0 <= n <= |a| && n < |b| :: a[..n] == b[..n] && (n == |a| || a[n] < b[n])
  }

  lemma {:induction false} BelowIsPrecedes(a: string, b: string)
    ensures Below(a, b) <==> Precedes(a, b)
  {
    if b != "" {
      if a == "" { assert a[..0] == b[..0]; }
      else {
        BelowIsPrecedes(a[1..], b[1..]);
        if a[0] < b[0] { assert a[..0] == b[..0]; }
        if a[0] == b[0] && Precedes(a[1..], b[1..]) {
          var n :| 0 <= n <= |a| - 1 && n < |b| - 1 && a[1..][..n] == b[1..][..n]
                   && (n == |a| - 1 || a[1..][n] < b[1..][n]);
          assert a[..n + 1] == [a[0]] + a[1..][..n] && b[..n + 1] == [b[0]] + b[1..][..n];
        }
        if n :| 0 <= n <= |a| && n < |b| && a[..n] == b[..n] && (n == |a| || a[n] < b[n]) { LaterDifference(a, b, n); }
      }
    }
  }

  lemma {:induction false} LaterDifference(a: string, b: string, n: nat)
    requires a != "" && b != "" && n <= |a| && n < |b| && a[..n] == b[..n] && (n == |a| || a[n] < b[n])
    ensures a[0] < b[0] || (a[0] == b[0] && Precedes(a[1..], b[1..]))
  {
    if n > 0 {
      assert a[0] == a[..n][0] == b[..n][0] == b[0];
      assert a[1..][..n - 1] == a[..n][1..] == b[..n][1..] == b[1..][..n - 1];
    }
  }

  /** The order at the first differing character, whatever follows, and of a text before its extensions. */
  lemma {:induction false} FirstDifference(p: string, c: char, x: string, d: char, y: string)
    ensures c < d ==> Below(p + [c] + x, p + [d] + y)
    ensures x != "" ==> Below(p, p + x)
  {
    if c < d {
      var a, b := p + [c] + x, p + [d] + y;
      assert a[..|p|] == p == b[..|p|] && a[|p|] == c && b[|p|] == d;
      BelowIsPrecedes(a, b);
    }
    if x != "" {
      assert p[..|p|] == p == (p + x)[..|p|];
      BelowIsPrecedes(p, p + x);
    }
  }
}

/** Grouped aggregation of the test oracle (groupAgg, bulk-test/oracle.js), over exact real numbers. */
module GroupAgg {
  import opened Wrappers
  import opened TextOrder

  datatype Row = Row(text: map<string, string>, num: map<string, real>)

  /** The aggregate function a request names; any other name gives NaN. */
  datatype Fn = COUNT | SUM | MIN | MAX | AVG | OTHER(name: string)

  datatype Agg = Agg(fn: Fn, col: string, alias: string)

  datatype Value = Num(r: real) | NaN

  datatype OutRow = OutRow(key: string, values: map<string, Value>)

  predicate ReadsColumn(fn: Fn) { fn == SUM || fn == MIN || fn == MAX || fn == AVG }

  /** Every row has the group column as text and, as a number, every column an aggregate reads. */
  predicate WellTyped(rows: seq<Row>, gcol: string, aggs: seq<Agg>)
  {
    forall i | 0 <= i < |rows| ::
      gcol in rows[i].text && forall j | 0 <= j < |aggs| && ReadsColumn(aggs[j].fn) :: aggs[j].col in rows[i].num
  }

  // ---- reference: filter, then aggregate ----

  function Group(rows: seq<Row>, gcol: string, k: string): (r: seq<Row>)
    ensures forall i | 0 <= i < |r| :: r[i] in rows
  {
    if rows == [] then []
    else (if gcol in rows[0].text && rows[0].text[gcol] == k then [rows[0]] else []) + Group(rows[1..], gcol, k)
  }

  function Column(rs: seq<Row>, col: string): seq<real>
  {
    seq(|rs|, i requires 0 <= i < |rs| => if col in rs[i].num then rs[i].num[col] else 0.0)
  }

  function SumOf(vs: seq<real>): real
  {
    if vs == [] then 0.0 else vs[0] + SumOf(vs[1..])
  }

  function Min(a: real, b: real): real { if a <= b then a else b }

  function Max(a: real, b: real): real { if a >= b then a else b }

  function MinOf(vs: seq<real>): real
    requires vs != []
  {
    if |vs| == 1 then vs[0] else Min(vs[0], MinOf(vs[1..]))
  }

  function MaxOf(vs: seq<real>): real
    requires vs != []
  {
    if |vs| == 1 then vs[0] else Max(vs[0], MaxOf(vs[1..]))
  }

  /** `Math.min` and `Math.max` of the values: members of the list with nothing below or above them. */
  lemma {:induction false} ExtremesBound(vs: seq<real>, v: real)
    requires v in vs
    ensures MinOf(vs) in vs && MaxOf(vs) in vs && MinOf(vs) <= v <= MaxOf(vs)
  {
    if |vs| > 1 {
      assert vs == [vs[0]] + vs[1..];
      ExtremesBound(vs[1..], if v in vs[1..] then v else vs[1]);
    }
  }

  function Aggregate(a: Agg, rs: seq<Row>): Value
    requires rs != []
  {
    var vs := Column(rs, a.col);
    if a.fn == COUNT then Num(|rs| as real)
    else if a.fn == SUM then Num(SumOf(vs))
    else if a.fn == MIN then Num(MinOf(vs))
    else if a.fn == MAX then Num(MaxOf(vs))
    else if a.fn == AVG then Num(SumOf(vs) / |rs| as real)
    else NaN
  }

  /** The aggregate a result column shows: the last one with that alias. */
  function AggFor(aggs: seq<Agg>, alias: string): Option<Agg>
  {
    if aggs == [] then None
    else if aggs[|aggs| - 1].alias == alias then Some(aggs[|aggs| - 1])
    else AggFor(aggs[..|aggs| - 1], alias)
  }

  predicate ShowsAggregates(values: map<string, Value>, aggs: seq<Agg>, rs: seq<Row>)
    requires rs != []
  {
    && (forall s | s in values :: AggFor(aggs, s).Some? && values[s] == Aggregate(AggFor(aggs, s).value, rs))
    && (forall j | 0 <= j < |aggs| :: aggs[j].alias in values)
  }

  predicate StrictlySorted(out: seq<OutRow>) { forall i, j | 0 <= i < j < |out| :: Below(out[i].key, out[j].key) }

  /** Each key differs from the next ones by a smaller character first, or is a beginning of them. */
  ghost predicate InTextOrder(out: seq<OutRow>) { forall i, j | 0 <= i < j < |out| :: Precedes(out[i].key, out[j].key) }

  lemma {:induction false} SortedIsTextOrder(out: seq<OutRow>)
    requires StrictlySorted(out)
    ensures InTextOrder(out)
  {
    forall i, j | 0 <= i < j < |out| ensures Precedes(out[i].key, out[j].key) {
      BelowIsPrecedes(out[i].key, out[j].key);
    }
  }

  function Keys(rows: seq<Row>, gcol: string): set<string>
  {
    set i | 0 <= i < |rows| && gcol in rows[i].text :: rows[i].text[gcol]
  }

  function OutKeys(out: seq<OutRow>): set<string> { set i | 0 <= i < |out| :: out[i].key }

  /** One row per key, sorted by key, each showing its aggregates over exactly the rows of that key. */
  predicate IsGrouping(out: seq<OutRow>, rows: seq<Row>, gcol: string, aggs: seq<Agg>)
  {
    && StrictlySorted(out)
    && OutKeys(out) == Keys(rows, gcol)
    && forall i | 0 <= i < |out| ::
         Group(rows, gcol, out[i].key) != [] && ShowsAggregates(out[i].values, aggs, Group(rows, gcol, out[i].key))
  }

  lemma {:induction false} GroupAppend(a: seq<Row>, b: seq<Row>, gcol: string, k: string)
    ensures Group(a + b, gcol, k) == Group(a, gcol, k) + Group(b, gcol, k)
  {
    if a == [] { assert a + b == b; }
    else { assert (a + b)[1..] == a[1..] + b; GroupAppend(a[1..], b, gcol, k); }
  }

  lemma {:induction false} GroupNonEmpty(rows: seq<Row>, gcol: string, k: string)
    ensures Group(rows, gcol, k) != [] <==> k in Keys(rows, gcol)
  {
    if rows != [] {
      GroupNonEmpty(rows[1..], gcol, k);
      var tail := rows[1..];
      if k in Keys(tail, gcol) {
        var i :| 0 <= i < |tail| && gcol in tail[i].text && tail[i].text[gcol] == k;
        assert rows[i + 1] == tail[i];
      }
      if k in Keys(rows, gcol) {
        var i :| 0 <= i < |rows| && gcol in rows[i].text && rows[i].text[gcol] == k;
        if i > 0 { assert tail[i - 1] == rows[i]; }
      }
    }
  }

  // ---- the reference determines the result ----

  predicate SortedKeys(ks: seq<string>) { forall i, j | 0 <= i < j < |ks| :: Below(ks[i], ks[j]) }

  lemma {:induction false} SmallestFirst(a: seq<string>, b: seq<string>)
    requires SortedKeys(a) && SortedKeys(b) && a != [] && b != []
    requires forall x :: x in a <==> x in b
    ensures a[0] == b[0]
  {
    assert a[0] in b && b[0] in a;
    var i :| 0 <= i < |b| && b[i] == a[0];
    var j :| 0 <= j < |a| && a[j] == b[0];
    Trichotomy(a[0], b[0]);
  }

  lemma {:induction false} HeadAndTail(a: seq<string>)
    requires SortedKeys(a) && a != []
    ensures forall x :: x in a[1..] <==> x in a && x != a[0]
  {
    Trichotomy(a[0], a[0]);
    assert a == [a[0]] + a[1..];
    assert forall i | 0 <= i < |a[1..]| :: a[1..][i] == a[i + 1];
  }

  lemma {:induction false} HasMember(b: seq<string>)
    requires b != []
    ensures exists x :: x in b
  {
    assert b[0] in b;
  }

  lemma {:induction false} SortedKeysUnique(a: seq<string>, b: seq<string>)
    requires SortedKeys(a) && SortedKeys(b)
    requires forall x :: x in a <==> x in b
    ensures a == b
    decreases |a|
  {
    if a == [] {
      if b != [] { HasMember(b); }
    }
    else {
      assert a[0] in b;
      SmallestFirst(a, b);
      HeadAndTail(a);
      HeadAndTail(b);
      SortedKeysUnique(a[1..], b[1..]);
    }
  }

  function KeySeq(out: seq<OutRow>): seq<string> { seq(|out|, i requires 0 <= i < |out| => out[i].key) }

  lemma {:induction false} KeySeqMembers(out: seq<OutRow>)
    ensures forall k :: k in KeySeq(out) <==> k in OutKeys(out)
  {
    forall k | k in OutKeys(out) ensures k in KeySeq(out) {
      var i :| 0 <= i < |out| && out[i].key == k;
      assert KeySeq(out)[i] == k;
    }
  }

  lemma {:induction false} AggForSome(aggs: seq<Agg>, alias: string)
    ensures AggFor(aggs, alias).Some? <==> exists j :: 0 <= j < |aggs| && aggs[j].alias == alias
  {
    if aggs != [] {
      var p := aggs[..|aggs| - 1];
      AggForSome(p, alias);
      if exists j :: 0 <= j < |aggs| && aggs[j].alias == alias {
        var j :| 0 <= j < |aggs| && aggs[j].alias == alias;
        if j < |p| { assert p[j].alias == alias; }
      }
    }
  }

  lemma {:induction false} ShownValuesUnique(u: map<string, Value>, v: map<string, Value>, aggs: seq<Agg>, rs: seq<Row>)
    requires rs != [] && ShowsAggregates(u, aggs, rs) && ShowsAggregates(v, aggs, rs)
    ensures u == v
  {
    forall s ensures s in u <==> s in v { AggForSome(aggs, s); }
  }

  /** Two groupings of the same rows are the same list. */
  lemma {:induction false} GroupingIsUnique(x: seq<OutRow>, y: seq<OutRow>, rows: seq<Row>, gcol: string,
        aggs: seq<Agg>)
    requires IsGrouping(x, rows, gcol, aggs) && IsGrouping(y, rows, gcol, aggs)
    ensures x == y
  {
    KeySeqMembers(x);
    KeySeqMembers(y);
    SortedKeysUnique(KeySeq(x), KeySeq(y));
    assert |x| == |KeySeq(x)| == |y|;
    forall i | 0 <= i < |x| ensures x[i] == y[i] {
      assert KeySeq(x)[i] == KeySeq(y)[i];
      ShownValuesUnique(x[i].values, y[i].values, aggs, Group(rows, gcol, x[i].key));
    }
  }

  // ---- the algorithm ----

  /** Array.prototype.sort with the key comparator. */
  function Insert(o: OutRow, out: seq<OutRow>): (r: seq<OutRow>)
    ensures multiset(r) == multiset(out) + multiset{o}
  {
    if out == [] then [o]
    else if Below(out[0].key, o.key) then
      assert out == [out[0]] + out[1..];
      [out[0]] + Insert(o, out[1..])
    else [o] + out
  }

  function SortByKey(out: seq<OutRow>): (r: seq<OutRow>)
    ensures multiset(r) == multiset(out)
  {
    if out == [] then []
    else
      assert out == [out[0]] + out[1..];
      Insert(out[0], SortByKey(out[1..]))
  }

  lemma {:induction false} ConsSorted(o: OutRow, t: seq<OutRow>)
    requires StrictlySorted(t) && forall x | x in t :: Below(o.key, x.key)
    ensures StrictlySorted([o] + t)
  {
    var all := [o] + t;
    forall i, j | 0 <= i < j < |all| ensures Below(all[i].key, all[j].key) {
      assert all[j] == t[j - 1] && all[j] in t;
      if i > 0 { assert all[i] == t[i - 1]; }
    }
  }

  lemma {:induction false} TailSorted(out: seq<OutRow>)
    requires StrictlySorted(out) && out != []
    ensures StrictlySorted(out[1..]) && forall x | x in out[1..] :: Below(out[0].key, x.key)
  {
    assert forall i | 0 <= i < |out[1..]| :: out[1..][i] == out[i + 1];
  }

  lemma {:induction false} InsertMember(o: OutRow, out: seq<OutRow>, x: OutRow)
    requires x in Insert(o, out)
    ensures x == o || x in out
  {
    assert x in multiset(Insert(o, out));
  }

  lemma {:induction false} InsertSorts(o: OutRow, out: seq<OutRow>)
    requires StrictlySorted(out) && forall x | x in out :: x.key != o.key
    ensures StrictlySorted(Insert(o, out))
    decreases |out|
  {
    if out == [] {
      ConsSorted(o, []);
    } else {
      TailSorted(out);
      Trichotomy(out[0].key, o.key);
      assert out == [out[0]] + out[1..];
      if Below(out[0].key, o.key) {
        InsertSorts(o, out[1..]);
        var r := Insert(o, out[1..]);
        forall x | x in r ensures Below(out[0].key, x.key) { InsertMember(o, out[1..], x); }
        ConsSorted(out[0], r);
      } else {
        forall x | x in out ensures Below(o.key, x.key) {
          if x in out[1..] { Transitive(o.key, out[0].key, x.key); }
        }
        ConsSorted(o, out);
      }
    }
  }

  lemma {:induction false} SortSorts(out: seq<OutRow>)
    requires forall i, j | 0 <= i < j < |out| :: out[i].key != out[j].key
    ensures StrictlySorted(SortByKey(out))
    ensures InTextOrder(SortByKey(out))
  {
    if out != [] {
      SortSorts(out[1..]);
      var t := SortByKey(out[1..]);
      forall x | x in t ensures x.key != out[0].key {
        assert x in multiset(t);
        assert x in out[1..];
      }
      InsertSorts(out[0], t);
    }
    SortedIsTextOrder(SortByKey(out));
  }

  /** The Map holds each key's rows. */
  ghost predicate BucketsOk(m: map<string, seq<Row>>, rows: seq<Row>, gcol: string)
  {
    m.Keys == Keys(rows, gcol) && forall k | k in m :: m[k] == Group(rows, gcol, k) != []
  }

  /** `order` lists the keys of the Map, each once. */
  ghost predicate OrderOk(m: map<string, seq<Row>>, order: seq<string>)
  {
    (forall i, j | 0 <= i < j < |order| :: order[i] != order[j]) && forall k :: k in order <==> k in m
  }

  /** `m` with a row pushed onto its bucket, which is empty at first. */
  function Pushed(m: map<string, seq<Row>>, k: string, r: Row): map<string, seq<Row>>
  {
    m[k := (if k in m then m[k] else []) + [r]]
  }

  function Listed(m: map<string, seq<Row>>, order: seq<string>, k: string): seq<string>
  {
    if k in m then order else order + [k]
  }

  /** `if (!m.has(k)) m.set(k, []); m.get(k).push(r);` on a Map whose keys stay in insertion order. */
  method Push(before: map<string, seq<Row>>, keys: seq<string>, k: string, r: Row)
    returns (m: map<string, seq<Row>>, order: seq<string>)
    ensures m == Pushed(before, k, r) && order == Listed(before, keys, k)
  {
    m, order := before, keys;
    if k !in m { m, order := m[k := []], order + [k]; }
    m := m[k := m[k] + [r]];
  }

  /** `for (const r of rows)`: buckets in a Map. */
  method Bucket(rows: seq<Row>, gcol: string) returns (m: map<string, seq<Row>>, order: seq<string>)
    requires forall i | 0 <= i < |rows| :: gcol in rows[i].text
    ensures BucketsOk(m, rows, gcol) && OrderOk(m, order)
  {
    m, order := map[], [];
    var i := 0;
    while i < |rows|
      invariant 0 <= i <= |rows|
      invariant BucketsOk(m, rows[..i], gcol) && OrderOk(m, order)
    {
      var r := rows[i];
      BucketAdd(m, rows, gcol, i);
      OrderAdd(m, order, r.text[gcol], r);
      m, order := Push(m, order, r.text[gcol], r);
      i := i + 1;
    }
    assert rows[..|rows|] == rows;
  }

  lemma {:induction false} GroupStep(rows: seq<Row>, gcol: string, i: nat, k: string)
    requires i < |rows| && gcol in rows[i].text
    ensures Group(rows[..i + 1], gcol, k)
         == Group(rows[..i], gcol, k) + (if rows[i].text[gcol] == k then [rows[i]] else [])
  {
    assert rows[..i + 1] == rows[..i] + [rows[i]];
    GroupAppend(rows[..i], [rows[i]], gcol, k);
    assert [rows[i]][1..] == [];
  }

  lemma {:induction false} KeysStep(rows: seq<Row>, gcol: string, i: nat)
    requires i < |rows| && gcol in rows[i].text
    ensures Keys(rows[..i + 1], gcol) == Keys(rows[..i], gcol) + {rows[i].text[gcol]}
  {
    forall k ensures k in Keys(rows[..i + 1], gcol) <==> k in Keys(rows[..i], gcol) + {rows[i].text[gcol]} {
      GroupStep(rows, gcol, i, k);
      GroupNonEmpty(rows[..i], gcol, k);
      GroupNonEmpty(rows[..i + 1], gcol, k);
    }
  }

  lemma {:induction false} PushedBucket(m: map<string, seq<Row>>, rows: seq<Row>, gcol: string, i: nat, k: string)
    requires i < |rows| && gcol in rows[i].text && m.Keys == Keys(rows[..i], gcol)
    requires k in m ==> m[k] == Group(rows[..i], gcol, k) != []
    requires k in Pushed(m, rows[i].text[gcol], rows[i])
    ensures Pushed(m, rows[i].text[gcol], rows[i])[k] == Group(rows[..i + 1], gcol, k) != []
  {
    GroupStep(rows, gcol, i, k);
    GroupNonEmpty(rows[..i], gcol, k);
  }

  lemma {:induction false} OrderAdd(m: map<string, seq<Row>>, order: seq<string>, k: string, r: Row)
    requires OrderOk(m, order)
    ensures OrderOk(Pushed(m, k, r), Listed(m, order, k))
  {
    var o := Listed(m, order, k);
    if k !in m {
      forall i, j | 0 <= i < j < |o| ensures o[i] != o[j] { assert o[i] in order; }
    }
    forall x ensures x in o <==> x in m || x == k {}
  }

  lemma {:induction false} BucketAdd(m: map<string, seq<Row>>, rows: seq<Row>, gcol: string, i: nat)
    requires i < |rows| && gcol in rows[i].text && BucketsOk(m, rows[..i], gcol)
    ensures BucketsOk(Pushed(m, rows[i].text[gcol], rows[i]), rows[..i + 1], gcol)
  {
    var m' := Pushed(m, rows[i].text[gcol], rows[i]);
    KeysStep(rows, gcol, i);
    forall x | x in m' ensures m'[x] == Group(rows[..i + 1], gcol, x) != [] { PushedBucket(m, rows, gcol, i, x); }
  }

  lemma {:induction false} OneMoreValue(vs: seq<real>, k: nat)
    requires k < |vs|
    ensures SumOf(vs[..k + 1]) == SumOf(vs[..k]) + vs[k]
    ensures k > 0 ==> MinOf(vs[..k + 1]) == Min(MinOf(vs[..k]), vs[k])
    ensures k > 0 ==> MaxOf(vs[..k + 1]) == Max(MaxOf(vs[..k]), vs[k])
  {
    assert vs[..k + 1] == vs[..k] + [vs[k]];
    SumAppend(vs[..k], [vs[k]]);
    assert [vs[k]][1..] == [];
    if k > 0 { ExtremesAppend(vs[..k], [vs[k]]); }
  }

  /** `vs.reduce((x, y) => x + y, 0)` */
  method Sum(vs: seq<real>) returns (total: real)
    ensures total == SumOf(vs)
  {
    total := 0.0;
    for k := 0 to |vs|
      invariant total == SumOf(vs[..k])
    {
      OneMoreValue(vs, k);
      total := total + vs[k];
    }
    assert vs[..|vs|] == vs;
  }

  /** `Math.min(...vs)` and `Math.max(...vs)` */
  method Extremes(vs: seq<real>) returns (low: real, high: real)
    requires vs != []
    ensures low == MinOf(vs) && high == MaxOf(vs)
  {
    low, high := vs[0], vs[0];
    for k := 1 to |vs|
      invariant low == MinOf(vs[..k]) && high == MaxOf(vs[..k])
    {
      OneMoreValue(vs, k);
      if vs[k] < low { low := vs[k]; }
      if vs[k] > high { high := vs[k]; }
    }
    assert vs[..|vs|] == vs;
  }

  method AggregateOne(a: Agg, rs: seq<Row>) returns (value: Value)
    requires rs != []
    ensures value == Aggregate(a, rs)
  {
    var vs := Column(rs, a.col);
    var total := Sum(vs);
    var low, high := Extremes(vs);
    match a.fn
    case COUNT => value := Num(|rs| as real);
    case SUM => value := Num(total);
    case MIN => value := Num(low);
    case MAX => value := Num(high);
    case AVG => value := Num(total / |rs| as real);
    case OTHER(_) => value := NaN;
  }

  method AggregateAll(aggs: seq<Agg>, rs: seq<Row>) returns (values: map<string, Value>)
    requires rs != []
    ensures ShowsAggregates(values, aggs, rs)
  {
    values := map[];
    var j := 0;
    while j < |aggs|
      invariant 0 <= j <= |aggs|
      invariant ShowsAggregates(values, aggs[..j], rs)
    {
      var a := aggs[j];
      assert aggs[..j + 1][..j] == aggs[..j];
      var value := AggregateOne(a, rs);
      values := values[a.alias := value];
      j := j + 1;
    }
    assert aggs[..|aggs|] == aggs;
  }

  /** Row i of `out` shows the bucket of the i-th key. */
  predicate Built(out: seq<OutRow>, order: seq<string>, m: map<string, seq<Row>>, aggs: seq<Agg>)
  {
    |out| <= |order| && forall i | 0 <= i < |out| ::
      out[i].key == order[i] && order[i] in m && m[order[i]] != [] && ShowsAggregates(out[i].values, aggs, m[order[i]])
  }

  /** `for (const [k, rs] of m)`: one row per key, in the order of the Map. */
  method BuildRows(order: seq<string>, m: map<string, seq<Row>>, aggs: seq<Agg>) returns (out: seq<OutRow>)
    requires forall i | 0 <= i < |order| :: order[i] in m && m[order[i]] != []
    ensures |out| == |order| && Built(out, order, m, aggs)
  {
    out := [];
    var j := 0;
    while j < |order|
      invariant 0 <= j <= |order| && |out| == j
      invariant Built(out, order, m, aggs)
    {
      var k := order[j];
      var values := AggregateAll(aggs, m[k]);
      out := out + [OutRow(k, values)];
      j := j + 1;
    }
  }

  method Compute(rows: seq<Row>, gcol: string, aggs: seq<Agg>) returns (out: seq<OutRow>)
    requires WellTyped(rows, gcol, aggs)
    ensures IsGrouping(out, rows, gcol, aggs)
    ensures InTextOrder(out)
  {
    var m, order := Bucket(rows, gcol);
    assert forall i | 0 <= i < |order| :: order[i] in order;
    out := BuildRows(order, m, aggs);
    SortedRowsAreGrouping(out, order, m, rows, gcol, aggs);
    out := SortByKey(out);
    SortedIsTextOrder(out);
  }

  lemma {:induction false} SortedRowsAreGrouping(out: seq<OutRow>, order: seq<string>, m: map<string, seq<Row>>,
        rows: seq<Row>, gcol: string, aggs: seq<Agg>)
    requires Built(out, order, m, aggs) && |out| == |order|
    requires forall i, j | 0 <= i < j < |order| :: order[i] != order[j]
    requires forall k :: k in order <==> k in m
    requires m.Keys == Keys(rows, gcol) && forall k | k in m :: m[k] == Group(rows, gcol, k)
    ensures IsGrouping(SortByKey(out), rows, gcol, aggs)
  {
    var sorted := SortByKey(out);
    SortSorts(out);
    SortKeepsRows(out, sorted);
    BuiltKeys(out, order, m, aggs);
    forall i | 0 <= i < |sorted|
      ensures Group(rows, gcol, sorted[i].key) != []
      ensures ShowsAggregates(sorted[i].values, aggs, Group(rows, gcol, sorted[i].key))
    {
      BuiltRow(out, order, m, aggs, sorted[i]);
    }
  }

  lemma {:induction false} BuiltKeys(out: seq<OutRow>, order: seq<string>, m: map<string, seq<Row>>, aggs: seq<Agg>)
    requires Built(out, order, m, aggs) && |out| == |order| && forall k :: k in order <==> k in m
    ensures OutKeys(out) == m.Keys
  {
    forall k | k in m ensures k in OutKeys(out) {
      assert k in order;
      var i :| 0 <= i < |order| && order[i] == k;
      assert out[i].key == k;
    }
  }

  lemma {:induction false} BuiltRow(out: seq<OutRow>, order: seq<string>, m: map<string, seq<Row>>, aggs: seq<Agg>,
        o: OutRow)
    requires Built(out, order, m, aggs) && o in out
    ensures o.key in m && m[o.key] != [] && ShowsAggregates(o.values, aggs, m[o.key])
  {
    var j :| 0 <= j < |out| && out[j] == o;
  }

  lemma {:induction false} SortKeepsRows(a: seq<OutRow>, b: seq<OutRow>)
    requires multiset(a) == multiset(b)
    ensures OutKeys(a) == OutKeys(b) && forall i | 0 <= i < |b| :: b[i] in a
  {
    forall i | 0 <= i < |b| ensures b[i] in a { assert b[i] in multiset(b); }
    forall i | 0 <= i < |a| ensures a[i] in b { assert a[i] in multiset(a); }
  }

  // ---- aggregates of a concatenation ----

  lemma {:induction false} ColumnAppend(x: seq<Row>, y: seq<Row>, col: string)
    ensures Column(x + y, col) == Column(x, col) + Column(y, col)
  {
  }

  lemma {:induction false} SumAppend(a: seq<real>, b: seq<real>)
    ensures SumOf(a + b) == SumOf(a) + SumOf(b)
  {
    if a == [] { assert a + b == b; }
    else { assert (a + b)[1..] == a[1..] + b; SumAppend(a[1..], b); }
  }

  lemma {:induction false} ExtremesAppend(a: seq<real>, b: seq<real>)
    requires a != [] && b != []
    ensures MinOf(a + b) == Min(MinOf(a), MinOf(b)) && MaxOf(a + b) == Max(MaxOf(a), MaxOf(b))
  {
    assert (a + b)[1..] == a[1..] + b;
    if |a| == 1 { assert (a + b)[1..] == b; }
    else { ExtremesAppend(a[1..], b); }
  }

  /** How two partial aggregates of the same function combine; AVG has no such combination. */
  function MergeValue(fn: Fn, a: Value, b: Value): Value
  {
    if a.NaN? || b.NaN? then NaN
    else if fn == MIN then Num(Min(a.r, b.r))
    else if fn == MAX then Num(Max(a.r, b.r))
    else Num(a.r + b.r)
  }

  lemma {:induction false} AggregateAppend(a: Agg, x: seq<Row>, y: seq<Row>)
    requires x != [] && y != [] && a.fn != AVG
    ensures Aggregate(a, x + y) == MergeValue(a.fn, Aggregate(a, x), Aggregate(a, y))
  {
    ColumnAppend(x, y, a.col);
    SumAppend(Column(x, a.col), Column(y, a.col));
    ExtremesAppend(Column(x, a.col), Column(y, a.col));
  }

  // ---- key-wise merge of two results ----

  /** A shown column with this function (and, but for COUNT, over this column). */
  predicate IsCompanion(a: Agg, fn: Fn, col: string) { a.fn == fn && (fn == COUNT || a.col == col) }

  function Companion(aggs: seq<Agg>, n: nat, fn: Fn, col: string): (r: Option<string>)
    requires n <= |aggs|
    ensures r.Some? ==> AggFor(aggs, r.value).Some? && IsCompanion(AggFor(aggs, r.value).value, fn, col)
  {
    if n == 0 then None
    else if IsCompanion(aggs[n - 1], fn, col) && AggFor(aggs, aggs[n - 1].alias) == Some(aggs[n - 1]) then
      Some(aggs[n - 1].alias)
    else Companion(aggs, n - 1, fn, col)
  }

  /** An average needs a SUM of its column and a COUNT beside it to be merged; every other column merges by itself. */
  predicate Recovers(aggs: seq<Agg>, alias: string)
  {
    var a := AggFor(aggs, alias);
    a.Some? && (a.value.fn == AVG ==>
      Companion(aggs, |aggs|, SUM, a.value.col).Some? && Companion(aggs, |aggs|, COUNT, a.value.col).Some?)
  }

  predicate AllRecover(aggs: seq<Agg>) { forall j | 0 <= j < |aggs| :: Recovers(aggs, aggs[j].alias) }

  function Quotient(sum: Value, count: Value): Value
  {
    if sum.Num? && count.Num? && count.r != 0.0 then Num(sum.r / count.r) else NaN
  }

  function MergeCompanion(aggs: seq<Agg>, fn: Fn, col: string, a: map<string, Value>, b: map<string, Value>): Value
  {
    var c := Companion(aggs, |aggs|, fn, col);
    if c.Some? && c.value in a && c.value in b then MergeValue(fn, a[c.value], b[c.value]) else NaN
  }

  function MergeColumn(aggs: seq<Agg>, s: string, a: map<string, Value>, b: map<string, Value>): Value
    requires s in a && s in b
  {
    match AggFor(aggs, s)
    case None => NaN
    case Some(g) =>
      if g.fn != AVG then MergeValue(g.fn, a[s], b[s])
      else Quotient(MergeCompanion(aggs, SUM, g.col, a, b), MergeCompanion(aggs, COUNT, g.col, a, b))
  }

  function MergeRow(aggs: seq<Agg>, a: map<string, Value>, b: map<string, Value>): map<string, Value>
  {
    map s | s in a && s in b :: MergeColumn(aggs, s, a, b)
  }

  /** Merges two key-sorted results; rows with a common key are combined column by column. */
  function MergeOut(x: seq<OutRow>, y: seq<OutRow>, aggs: seq<Agg>): seq<OutRow>
    decreases |x| + |y|
  {
    if x == [] then y
    else if y == [] then x
    else if x[0].key == y[0].key then
      [OutRow(x[0].key, MergeRow(aggs, x[0].values, y[0].values))] + MergeOut(x[1..], y[1..], aggs)
    else if Below(x[0].key, y[0].key) then [x[0]] + MergeOut(x[1..], y, aggs)
    else [y[0]] + MergeOut(x, y[1..], aggs)
  }

  /** ShowsAggregates, but for averages that cannot be recovered. */
  predicate ShowsRecoverable(values: map<string, Value>, aggs: seq<Agg>, rs: seq<Row>)
    requires rs != []
  {
    && (forall s | s in values :: AggFor(aggs, s).Some?
          && (Recovers(aggs, s) ==> values[s] == Aggregate(AggFor(aggs, s).value, rs)))
    && (forall j | 0 <= j < |aggs| :: aggs[j].alias in values)
  }

  lemma {:induction false} AggForIsListed(aggs: seq<Agg>, alias: string)
    requires AggFor(aggs, alias).Some?
    ensures AggFor(aggs, alias).value in aggs && AggFor(aggs, alias).value.alias == alias
  {
    if aggs[|aggs| - 1].alias != alias { AggForIsListed(aggs[..|aggs| - 1], alias); }
  }

  lemma {:induction false} ShownAlias(values: map<string, Value>, aggs: seq<Agg>, rs: seq<Row>, alias: string)
    requires rs != [] && ShowsRecoverable(values, aggs, rs) && AggFor(aggs, alias).Some?
    ensures alias in values
  {
    AggForIsListed(aggs, alias);
  }

  /** A companion column of two results merges to its aggregate over all their rows. */
  lemma {:induction false} CompanionMerges(aggs: seq<Agg>, fn: Fn, col: string, a: map<string, Value>,
        b: map<string, Value>, x: seq<Row>, y: seq<Row>)
    requires x != [] && y != [] && ShowsRecoverable(a, aggs, x) && ShowsRecoverable(b, aggs, y)
    requires fn != AVG && Companion(aggs, |aggs|, fn, col).Some?
    ensures var g := AggFor(aggs, Companion(aggs, |aggs|, fn, col).value).value;
      IsCompanion(g, fn, col) && MergeCompanion(aggs, fn, col, a, b) == Aggregate(g, x + y)
  {
    var c := Companion(aggs, |aggs|, fn, col).value;
    ShownAlias(a, aggs, x, c);
    ShownAlias(b, aggs, y, c);
    AggregateAppend(AggFor(aggs, c).value, x, y);
  }

  lemma {:induction false} AverageMerges(aggs: seq<Agg>, g: Agg, a: map<string, Value>, b: map<string, Value>,
        x: seq<Row>, y: seq<Row>)
    requires x != [] && y != [] && ShowsRecoverable(a, aggs, x) && ShowsRecoverable(b, aggs, y) && g.fn == AVG
    requires Companion(aggs, |aggs|, SUM, g.col).Some? && Companion(aggs, |aggs|, COUNT, g.col).Some?
    ensures Quotient(MergeCompanion(aggs, SUM, g.col, a, b), MergeCompanion(aggs, COUNT, g.col, a, b))
         == Aggregate(g, x + y)
  {
    CompanionMerges(aggs, SUM, g.col, a, b, x, y);
    CompanionMerges(aggs, COUNT, g.col, a, b, x, y);
  }

  lemma {:induction false} ColumnMerges(aggs: seq<Agg>, s: string, a: map<string, Value>, b: map<string, Value>,
        x: seq<Row>, y: seq<Row>)
    requires x != [] && y != [] && ShowsRecoverable(a, aggs, x) && ShowsRecoverable(b, aggs, y)
    requires s in a && s in b && Recovers(aggs, s)
    ensures MergeColumn(aggs, s, a, b) == Aggregate(AggFor(aggs, s).value, x + y)
  {
    var g := AggFor(aggs, s).value;
    if g.fn == AVG { AverageMerges(aggs, g, a, b, x, y); } else { AggregateAppend(g, x, y); }
  }

  lemma {:induction false} MergeRowShows(aggs: seq<Agg>, a: map<string, Value>, b: map<string, Value>, x: seq<Row>,
        y: seq<Row>)
    requires x != [] && y != [] && ShowsRecoverable(a, aggs, x) && ShowsRecoverable(b, aggs, y)
    ensures ShowsRecoverable(MergeRow(aggs, a, b), aggs, x + y)
  {
    forall s | s in a && s in b && Recovers(aggs, s)
      ensures MergeRow(aggs, a, b)[s] == Aggregate(AggFor(aggs, s).value, x + y)
    {
      ColumnMerges(aggs, s, a, b, x, y);
    }
  }

  predicate RowShows(o: OutRow, rows: seq<Row>, gcol: string, aggs: seq<Agg>)
  {
    Group(rows, gcol, o.key) != [] && ShowsRecoverable(o.values, aggs, Group(rows, gcol, o.key))
  }

  /** A result, or the part of it from some key on. */
  predicate PartOf(x: seq<OutRow>, rows: seq<Row>, gcol: string, aggs: seq<Agg>)
  {
    StrictlySorted(x) && forall i | 0 <= i < |x| :: RowShows(x[i], rows, gcol, aggs)
  }

  /** `y` has every key of `x` that its rows `ry` have. */
  predicate Covers(y: seq<OutRow>, ry: seq<Row>, x: seq<OutRow>, gcol: string)
  {
    forall i | 0 <= i < |x| :: Group(ry, gcol, x[i].key) != [] ==> x[i].key in OutKeys(y)
  }

  lemma {:induction false} OutKeysCons(o: OutRow, t: seq<OutRow>)
    ensures OutKeys([o] + t) == {o.key} + OutKeys(t)
  {
    var all := [o] + t;
    assert all[0] == o;
    forall k | k in OutKeys(t) ensures k in OutKeys(all) {
      var i :| 0 <= i < |t| && t[i].key == k;
      assert all[i + 1].key == k;
    }
    forall k | k in OutKeys(all) ensures k in {o.key} + OutKeys(t) {
      var i :| 0 <= i < |all| && all[i].key == k;
      if i > 0 { assert t[i - 1].key == k; }
    }
  }

  lemma {:induction false} TailPart(x: seq<OutRow>, rows: seq<Row>, gcol: string, aggs: seq<Agg>)
    requires PartOf(x, rows, gcol, aggs) && x != []
    ensures PartOf(x[1..], rows, gcol, aggs)
    ensures OutKeys(x) == {x[0].key} + OutKeys(x[1..])
    ensures forall k | k in OutKeys(x[1..]) :: Below(x[0].key, k)
  {
    var t := x[1..];
    assert forall i | 0 <= i < |t| :: t[i] == x[i + 1];
    assert x == [x[0]] + t;
    OutKeysCons(x[0], t);
  }

  /** Prepending a row below all keys of a part. */
  lemma {:induction false} ConsPart(o: OutRow, t: seq<OutRow>, rows: seq<Row>, gcol: string, aggs: seq<Agg>)
    requires PartOf(t, rows, gcol, aggs) && RowShows(o, rows, gcol, aggs)
    requires forall k | k in OutKeys(t) :: Below(o.key, k)
    ensures PartOf([o] + t, rows, gcol, aggs) && OutKeys([o] + t) == {o.key} + OutKeys(t)
  {
    OutKeysCons(o, t);
    assert forall i | 0 <= i < |t| :: t[i].key in OutKeys(t);
  }

  lemma {:induction false} RowShowsInConcat(o: OutRow, rx: seq<Row>, ry: seq<Row>, gcol: string, aggs: seq<Agg>)
    ensures RowShows(o, rx, gcol, aggs) && Group(ry, gcol, o.key) == [] ==> RowShows(o, rx + ry, gcol, aggs)
    ensures RowShows(o, ry, gcol, aggs) && Group(rx, gcol, o.key) == [] ==> RowShows(o, rx + ry, gcol, aggs)
  {
    GroupAppend(rx, ry, gcol, o.key);
    assert Group(rx, gcol, o.key) + [] == Group(rx, gcol, o.key);
    assert [] + Group(ry, gcol, o.key) == Group(ry, gcol, o.key);
  }

  lemma {:induction false} PartInConcat(x: seq<OutRow>, rx: seq<Row>, ry: seq<Row>, gcol: string, aggs: seq<Agg>)
    requires forall i | 0 <= i < |x| :: (RowShows(x[i], rx, gcol, aggs) && Group(ry, gcol, x[i].key) == [])
                                        || (RowShows(x[i], ry, gcol, aggs) && Group(rx, gcol, x[i].key) == [])
    requires StrictlySorted(x)
    ensures PartOf(x, rx + ry, gcol, aggs)
  {
    forall i | 0 <= i < |x| ensures RowShows(x[i], rx + ry, gcol, aggs) { RowShowsInConcat(x[i], rx, ry, gcol, aggs); }
  }

  lemma {:induction false} CoversTail(y: seq<OutRow>, ry: seq<Row>, x: seq<OutRow>, gcol: string)
    requires Covers(y, ry, x, gcol) && x != []
    ensures Covers(y, ry, x[1..], gcol)
  {
    assert forall i | 0 <= i < |x[1..]| :: x[1..][i] == x[i + 1];
  }

  /** Dropping the first row of `y` loses no key of `x` when all of those are above it. */
  lemma {:induction false} CoveredByTail(y: seq<OutRow>, ry: seq<Row>, x: seq<OutRow>, gcol: string)
    requires Covers(y, ry, x, gcol) && y != [] && forall k | k in OutKeys(x) :: Below(y[0].key, k)
    ensures Covers(y[1..], ry, x, gcol)
  {
    assert y == [y[0]] + y[1..];
    OutKeysCons(y[0], y[1..]);
    Trichotomy(y[0].key, y[0].key);
    assert forall i | 0 <= i < |x| :: x[i].key in OutKeys(x);
  }

  lemma {:induction false} MergeIsPart(x: seq<OutRow>, y: seq<OutRow>, rx: seq<Row>, ry: seq<Row>, gcol: string,
        aggs: seq<Agg>)
    requires PartOf(x, rx, gcol, aggs) && PartOf(y, ry, gcol, aggs)
    requires Covers(y, ry, x, gcol) && Covers(x, rx, y, gcol)
    ensures PartOf(MergeOut(x, y, aggs), rx + ry, gcol, aggs)
    ensures OutKeys(MergeOut(x, y, aggs)) == OutKeys(x) + OutKeys(y)
    decreases |x| + |y|
  {
    if x == [] {
      PartInConcat(y, rx, ry, gcol, aggs);
    } else if y == [] {
      PartInConcat(x, rx, ry, gcol, aggs);
    } else {
      TailPart(x, rx, gcol, aggs);
      TailPart(y, ry, gcol, aggs);
      Trichotomy(x[0].key, y[0].key);
      if x[0].key == y[0].key { MergeEqualHeads(x, y, rx, ry, gcol, aggs); }
      else if Below(x[0].key, y[0].key) { MergeLeftHead(x, y, rx, ry, gcol, aggs); }
      else { MergeRightHead(x, y, rx, ry, gcol, aggs); }
    }
  }

  lemma {:induction false} MergeEqualHeads(x: seq<OutRow>, y: seq<OutRow>, rx: seq<Row>, ry: seq<Row>, gcol: string,
        aggs: seq<Agg>)
    requires PartOf(x, rx, gcol, aggs) && PartOf(y, ry, gcol, aggs)
    requires Covers(y, ry, x, gcol) && Covers(x, rx, y, gcol)
    requires x != [] && y != [] && x[0].key == y[0].key
    ensures PartOf(MergeOut(x, y, aggs), rx + ry, gcol, aggs)
    ensures OutKeys(MergeOut(x, y, aggs)) == OutKeys(x) + OutKeys(y)
    decreases |x| + |y|, 0
  {
    TailPart(x, rx, gcol, aggs);
    TailPart(y, ry, gcol, aggs);
    CoversTail(y, ry, x, gcol);
    CoversTail(x, rx, y, gcol);
    CoveredByTail(y, ry, x[1..], gcol);
    CoveredByTail(x, rx, y[1..], gcol);
    MergeIsPart(x[1..], y[1..], rx, ry, gcol, aggs);
    var o := OutRow(x[0].key, MergeRow(aggs, x[0].values, y[0].values));
    GroupAppend(rx, ry, gcol, o.key);
    MergeRowShows(aggs, x[0].values, y[0].values, Group(rx, gcol, o.key), Group(ry, gcol, o.key));
    ConsPart(o, MergeOut(x[1..], y[1..], aggs), rx + ry, gcol, aggs);
  }

  lemma {:induction false} MergeLeftHead(x: seq<OutRow>, y: seq<OutRow>, rx: seq<Row>, ry: seq<Row>, gcol: string,
        aggs: seq<Agg>)
    requires PartOf(x, rx, gcol, aggs) && PartOf(y, ry, gcol, aggs)
    requires Covers(y, ry, x, gcol) && Covers(x, rx, y, gcol)
    requires x != [] && y != [] && x[0].key != y[0].key && Below(x[0].key, y[0].key)
    ensures PartOf(MergeOut(x, y, aggs), rx + ry, gcol, aggs)
    ensures OutKeys(MergeOut(x, y, aggs)) == OutKeys(x) + OutKeys(y)
    decreases |x| + |y|, 0
  {
    TailPart(x, rx, gcol, aggs);
    AllAbove(x[0].key, y, ry, gcol, aggs);
    CoversTail(y, ry, x, gcol);
    CoveredByTail(x, rx, y, gcol);
    MergeIsPart(x[1..], y, rx, ry, gcol, aggs);
    Trichotomy(x[0].key, x[0].key);
    assert x[0].key !in OutKeys(y);
    RowShowsInConcat(x[0], rx, ry, gcol, aggs);
    ConsPart(x[0], MergeOut(x[1..], y, aggs), rx + ry, gcol, aggs);
  }

  lemma {:induction false} MergeRightHead(x: seq<OutRow>, y: seq<OutRow>, rx: seq<Row>, ry: seq<Row>, gcol: string,
        aggs: seq<Agg>)
    requires PartOf(x, rx, gcol, aggs) && PartOf(y, ry, gcol, aggs)
    requires Covers(y, ry, x, gcol) && Covers(x, rx, y, gcol)
    requires x != [] && y != [] && x[0].key != y[0].key && Below(y[0].key, x[0].key) && !Below(x[0].key, y[0].key)
    ensures PartOf(MergeOut(x, y, aggs), rx + ry, gcol, aggs)
    ensures OutKeys(MergeOut(x, y, aggs)) == OutKeys(x) + OutKeys(y)
    decreases |x| + |y|, 0
  {
    TailPart(y, ry, gcol, aggs);
    AllAbove(y[0].key, x, rx, gcol, aggs);
    CoversTail(x, rx, y, gcol);
    CoveredByTail(y, ry, x, gcol);
    MergeIsPart(x, y[1..], rx, ry, gcol, aggs);
    Trichotomy(y[0].key, y[0].key);
    assert y[0].key !in OutKeys(x);
    RowShowsInConcat(y[0], rx, ry, gcol, aggs);
    ConsPart(y[0], MergeOut(x, y[1..], aggs), rx + ry, gcol, aggs);
  }

  lemma {:induction false} AllAbove(k: string, y: seq<OutRow>, ry: seq<Row>, gcol: string, aggs: seq<Agg>)
    requires PartOf(y, ry, gcol, aggs) && y != [] && Below(k, y[0].key)
    ensures forall j | j in OutKeys(y) :: Below(k, j)
  {
    TailPart(y, ry, gcol, aggs);
    forall j | j in OutKeys(y[1..]) ensures Below(k, j) { Transitive(k, y[0].key, j); }
  }

  lemma {:induction false} GroupingIsPart(x: seq<OutRow>, rows: seq<Row>, gcol: string, aggs: seq<Agg>)
    requires IsGrouping(x, rows, gcol, aggs)
    ensures PartOf(x, rows, gcol, aggs)
  {
  }

  lemma {:induction false} KeysOfConcat(rx: seq<Row>, ry: seq<Row>, gcol: string)
    ensures Keys(rx + ry, gcol) == Keys(rx, gcol) + Keys(ry, gcol)
  {
    forall k ensures k in Keys(rx + ry, gcol) <==> k in Keys(rx, gcol) + Keys(ry, gcol) {
      GroupAppend(rx, ry, gcol, k);
      GroupNonEmpty(rx, gcol, k);
      GroupNonEmpty(ry, gcol, k);
      GroupNonEmpty(rx + ry, gcol, k);
    }
  }

  /** The merge of two groupings has the keys of the concatenation and shows every recoverable column over it. */
  lemma {:induction false} MergeIsGroupingPart(x: seq<OutRow>, y: seq<OutRow>, rx: seq<Row>, ry: seq<Row>,
        gcol: string, aggs: seq<Agg>)
    requires IsGrouping(x, rx, gcol, aggs) && IsGrouping(y, ry, gcol, aggs)
    ensures var m := MergeOut(x, y, aggs); PartOf(m, rx + ry, gcol, aggs) && OutKeys(m) == Keys(rx + ry, gcol)
  {
    forall i | 0 <= i < |x| ensures Group(ry, gcol, x[i].key) != [] ==> x[i].key in OutKeys(y) {
      GroupNonEmpty(ry, gcol, x[i].key);
    }
    forall i | 0 <= i < |y| ensures Group(rx, gcol, y[i].key) != [] ==> y[i].key in OutKeys(x) {
      GroupNonEmpty(rx, gcol, y[i].key);
    }
    GroupingIsPart(x, rx, gcol, aggs);
    GroupingIsPart(y, ry, gcol, aggs);
    MergeIsPart(x, y, rx, ry, gcol, aggs);
    KeysOfConcat(rx, ry, gcol);
  }

  lemma {:induction false} SameKeys(x: seq<OutRow>, y: seq<OutRow>)
    requires StrictlySorted(x) && StrictlySorted(y) && OutKeys(x) == OutKeys(y)
    ensures |x| == |y| && forall i | 0 <= i < |x| :: x[i].key == y[i].key
  {
    KeySeqMembers(x);
    KeySeqMembers(y);
    SortedKeysUnique(KeySeq(x), KeySeq(y));
    assert |x| == |KeySeq(x)| == |y|;
    forall i | 0 <= i < |x| ensures x[i].key == y[i].key { assert KeySeq(x)[i] == KeySeq(y)[i]; }
  }

  /** Two rows show the same aliases, and the same values wherever averages can be recovered. */
  predicate AgreeWhereRecoverable(u: map<string, Value>, v: map<string, Value>, aggs: seq<Agg>)
  {
    u.Keys == v.Keys && forall s | s in u && Recovers(aggs, s) :: u[s] == v[s]
  }

  lemma {:induction false} ShownValuesAgree(u: map<string, Value>, v: map<string, Value>, aggs: seq<Agg>, rs: seq<Row>)
    requires rs != [] && ShowsAggregates(u, aggs, rs) && ShowsRecoverable(v, aggs, rs)
    ensures AgreeWhereRecoverable(u, v, aggs)
  {
    forall s ensures s in u <==> s in v { AggForSome(aggs, s); }
  }

  /**
    Grouping the concatenation of two row lists is the key-wise merge of grouping each: the same keys, and the same
    value in every column but an average with no sum or count beside it.
   */
  lemma {:induction false} GroupingDistributes(x: seq<OutRow>, y: seq<OutRow>, z: seq<OutRow>, rx: seq<Row>,
        ry: seq<Row>, gcol: string, aggs: seq<Agg>)
    requires IsGrouping(x, rx, gcol, aggs) && IsGrouping(y, ry, gcol, aggs) && IsGrouping(z, rx + ry, gcol, aggs)
    ensures var m := MergeOut(x, y, aggs);
      && |z| == |m|
      && (forall i | 0 <= i < |z| :: z[i].key == m[i].key && AgreeWhereRecoverable(z[i].values, m[i].values, aggs))
      && (AllRecover(aggs) ==> z == m)
  {
    var m := MergeOut(x, y, aggs);
    MergeIsGroupingPart(x, y, rx, ry, gcol, aggs);
    SameKeys(z, m);
    forall i | 0 <= i < |z|
      ensures AgreeWhereRecoverable(z[i].values, m[i].values, aggs)
      ensures AllRecover(aggs) ==> z[i].values == m[i].values
    {
      assert RowShows(m[i], rx + ry, gcol, aggs);
      var rs := Group(rx + ry, gcol, z[i].key);
      ShownValuesAgree(z[i].values, m[i].values, aggs, rs);
      if AllRecover(aggs) { AllColumnsRecover(z[i].values, aggs, rs); }
    }
  }

  lemma {:induction false} AllColumnsRecover(u: map<string, Value>, aggs: seq<Agg>, rs: seq<Row>)
    requires rs != [] && ShowsAggregates(u, aggs, rs) && AllRecover(aggs)
    ensures forall s | s in u :: Recovers(aggs, s)
  {
    forall s | s in u ensures Recovers(aggs, s) { AggForIsListed(aggs, s); }
  }

  /** Column `a` of one row is column `s` divided by column `n` of another. */
  predicate HoldsAverage(avg: map<string, Value>, parts: map<string, Value>, a: string, s: string, n: string)
  {
    a in avg && s in parts && n in parts && avg[a].Num? && avg[a] == Quotient(parts[s], parts[n])
  }

  /** `a` shows the average of `col`, `s` its sum and `n` the count, whatever else the two lists hold. */
  predicate NamesAverage(aggs: seq<Agg>, parts: seq<Agg>, col: string, a: string, s: string, n: string)
  {
    && AggFor(aggs, a) == Some(Agg(AVG, col, a)) && AggFor(parts, s) == Some(Agg(SUM, col, s))
    && AggFor(parts, n).Some? && AggFor(parts, n).value.fn == COUNT
  }

  lemma {:induction false} AverageOfRow(avg: map<string, Value>, parts: map<string, Value>, aggs: seq<Agg>,
        list: seq<Agg>, col: string, a: string, s: string, n: string, rs: seq<Row>)
    requires rs != [] && NamesAverage(aggs, list, col, a, s, n)
    requires ShowsAggregates(avg, aggs, rs) && ShowsRecoverable(parts, list, rs)
    ensures HoldsAverage(avg, parts, a, s, n)
  {
    AggForIsListed(aggs, a);
    ShownAlias(parts, list, rs, s);
    ShownAlias(parts, list, rs, n);
  }

  /** The averages of the concatenation are the quotients of the merged sums and counts, row by row. */
  lemma {:induction false} AveragesFromMerge(x: seq<OutRow>, y: seq<OutRow>, z: seq<OutRow>, rx: seq<Row>,
        ry: seq<Row>, gcol: string, aggs: seq<Agg>, parts: seq<Agg>, col: string, a: string, s: string, n: string)
    requires NamesAverage(aggs, parts, col, a, s, n) && IsGrouping(z, rx + ry, gcol, aggs)
    requires IsGrouping(x, rx, gcol, parts) && IsGrouping(y, ry, gcol, parts)
    ensures var m := MergeOut(x, y, parts);
      |m| == |z| && forall i | 0 <= i < |z| :: m[i].key == z[i].key && HoldsAverage(z[i].values, m[i].values, a, s, n)
  {
    var m := MergeOut(x, y, parts);
    MergeIsGroupingPart(x, y, rx, ry, gcol, parts);
    SameKeys(z, m);
    forall i | 0 <= i < |z| ensures HoldsAverage(z[i].values, m[i].values, a, s, n) {
      assert RowShows(m[i], rx + ry, gcol, parts);
      AverageOfRow(z[i].values, m[i].values, aggs, parts, col, a, s, n, Group(rx + ry, gcol, z[i].key));
    }
  }

  lemma {:induction false} AverageOfZeros(col: string, alias: string, n: nat, last: real)
    requires n == 1 || n == 2
    ensures var zero, x := Row(map[], map[col := 0.0]), Row(map[], map[col := last]);
      var g, zeros := Agg(AVG, col, alias), seq(n, _ => zero);
      && Aggregate(g, zeros) == Num(0.0) && Aggregate(g, [x]) == Num(last)
      && Aggregate(g, zeros + [x]) == Num(last / (n + 1) as real)
  {
    var zero, x := Row(map[], map[col := 0.0]), Row(map[], map[col := last]);
    var zeros := seq(n, _ => zero);
    ColumnAppend(zeros, [x], col);
    SumAppend(Column(zeros, col), Column([x], col));
    SumOfZeros(Column(zeros, col));
    assert Column([x], col) == [last] && [last][1..] == [];
    assert SumOf([last]) == last;
  }

  lemma {:induction false} SumOfZeros(vs: seq<real>)
    requires forall i | 0 <= i < |vs| :: vs[i] == 0.0
    ensures SumOf(vs) == 0.0
  {
    if vs != [] { SumOfZeros(vs[1..]); }
  }

  /** No rule merges averages alone: for every candidate two groups are merged wrongly. */
  lemma {:induction false} AveragesAloneDoNotMerge(f: (real, real) -> real, col: string, alias: string)
    returns (u: seq<Row>, v: seq<Row>)
    ensures u != [] && v != []
    ensures var g := Agg(AVG, col, alias);
      && Aggregate(g, u).Num? && Aggregate(g, v).Num?
      && Aggregate(g, u + v) != Num(f(Aggregate(g, u).r, Aggregate(g, v).r))
  {
    AverageOfZeros(col, alias, 1, 6.0);
    AverageOfZeros(col, alias, 2, 6.0);
    var zero := Row(map[], map[col := 0.0]);
    v := [Row(map[], map[col := 6.0])];
    u := if f(0.0, 6.0) == 3.0 then seq(2, _ => zero) else seq(1, _ => zero);
  }

  // ---- groups add up to the input ----

  function CountOver(ks: seq<string>, rows: seq<Row>, gcol: string): nat
  {
    if ks == [] then 0 else |Group(rows, gcol, ks[0])| + CountOver(ks[1..], rows, gcol)
  }

  function SumOver(ks: seq<string>, rows: seq<Row>, gcol: string, col: string): real
  {
    if ks == [] then 0.0 else SumOf(Column(Group(rows, gcol, ks[0]), col)) + SumOver(ks[1..], rows, gcol, col)
  }

  /** Adding one row raises the totals once per occurrence of its key. */
  lemma {:induction false} OneRowMore(ks: seq<string>, rows: seq<Row>, gcol: string, col: string)
    requires rows != [] && gcol in rows[0].text && forall i, j | 0 <= i < j < |ks| :: ks[i] != ks[j]
    ensures var here := rows[0].text[gcol] in ks;
            && CountOver(ks, rows, gcol) == CountOver(ks, rows[1..], gcol) + (if here then 1 else 0)
            && SumOver(ks, rows, gcol, col)
            == SumOver(ks, rows[1..], gcol, col) + (if here then Column(rows, col)[0] else 0.0)
    decreases |ks|
  {
    if ks != [] {
      OneRowMore(ks[1..], rows, gcol, col);
      assert ks == [ks[0]] + ks[1..];
      RowInGroup(rows, gcol, ks[0], col);
      if rows[0].text[gcol] == ks[0] { assert ks[0] !in ks[1..]; }
    }
  }

  /** The first row counts in the group of its key and in no other. */
  lemma {:induction false} RowInGroup(rows: seq<Row>, gcol: string, k: string, col: string)
    requires rows != [] && gcol in rows[0].text
    ensures var g, t, here := Group(rows, gcol, k), Group(rows[1..], gcol, k), rows[0].text[gcol] == k;
            && |g| == |t| + (if here then 1 else 0)
            && SumOf(Column(g, col)) == SumOf(Column(t, col)) + (if here then Column(rows, col)[0] else 0.0)
  {
    var g, t := Group(rows, gcol, k), Group(rows[1..], gcol, k);
    if rows[0].text[gcol] == k {
      assert g == [rows[0]] + t;
      assert g[1..] == t;
      SumHead(g, col);
    } else {
      assert g == t;
    }
  }

  lemma {:induction false} TotalsOverKeys(ks: seq<string>, rows: seq<Row>, gcol: string, col: string)
    requires forall i, j | 0 <= i < j < |ks| :: ks[i] != ks[j]
    requires forall i | 0 <= i < |rows| :: gcol in rows[i].text && rows[i].text[gcol] in ks
    ensures CountOver(ks, rows, gcol) == |rows| && SumOver(ks, rows, gcol, col) == SumOf(Column(rows, col))
    decreases |rows|
  {
    if rows == [] {
      EmptyTotals(ks, gcol, col);
    } else {
      OneRowMore(ks, rows, gcol, col);
      TotalsOverKeys(ks, rows[1..], gcol, col);
      SumHead(rows, col);
    }
  }

  lemma {:induction false} SumHead(rows: seq<Row>, col: string)
    requires rows != []
    ensures SumOf(Column(rows, col)) == Column(rows, col)[0] + SumOf(Column(rows[1..], col))
  {
    assert Column(rows, col)[1..] == Column(rows[1..], col);
  }

  lemma {:induction false} EmptyTotals(ks: seq<string>, gcol: string, col: string)
    ensures CountOver(ks, [], gcol) == 0 && SumOver(ks, [], gcol, col) == 0.0
  {
    if ks != [] { EmptyTotals(ks[1..], gcol, col); }
  }

  lemma {:induction false} KeyTotals(out: seq<OutRow>, rows: seq<Row>, gcol: string, aggs: seq<Agg>, col: string)
    requires WellTyped(rows, gcol, aggs) && IsGrouping(out, rows, gcol, aggs)
    ensures CountOver(KeySeq(out), rows, gcol) == |rows|
    ensures SumOver(KeySeq(out), rows, gcol, col) == SumOf(Column(rows, col))
  {
    var ks := KeySeq(out);
    forall i, j | 0 <= i < j < |ks| ensures ks[i] != ks[j] { Trichotomy(ks[i], ks[i]); }
    KeySeqMembers(out);
    forall i | 0 <= i < |rows| ensures rows[i].text[gcol] in ks { assert rows[i].text[gcol] in Keys(rows, gcol); }
    TotalsOverKeys(ks, rows, gcol, col);
  }

  /** The sum of one column over the rows of a result. */
  function ColumnTotal(out: seq<OutRow>, alias: string): real
  {
    if out == [] then 0.0
    else (if alias in out[0].values && out[0].values[alias].Num? then out[0].values[alias].r else 0.0)
         + ColumnTotal(out[1..], alias)
  }

  /** Every row shows a number under this alias. */
  predicate AllShow(out: seq<OutRow>, alias: string)
  {
    forall i | 0 <= i < |out| :: alias in out[i].values && out[i].values[alias].Num?
  }

  predicate ShowsRows(out: seq<OutRow>, rows: seq<Row>, gcol: string, aggs: seq<Agg>)
  {
    forall i | 0 <= i < |out| ::
      Group(rows, gcol, out[i].key) != [] && ShowsAggregates(out[i].values, aggs, Group(rows, gcol, out[i].key))
  }

  lemma {:induction false} AllShowCons(out: seq<OutRow>, alias: string)
    requires out != [] && AllShow(out[1..], alias)
    ensures AllShow(out, alias) <==> alias in out[0].values && out[0].values[alias].Num?
  {
    assert forall i | 1 <= i < |out| :: out[i] == out[1..][i - 1];
  }

  lemma {:induction false} KeySeqTail(out: seq<OutRow>)
    requires out != []
    ensures KeySeq(out) != [] && KeySeq(out)[0] == out[0].key && KeySeq(out)[1..] == KeySeq(out[1..])
  {
  }

  lemma {:induction false} CountColumn(out: seq<OutRow>, rows: seq<Row>, gcol: string, aggs: seq<Agg>, alias: string)
    requires ShowsRows(out, rows, gcol, aggs)
    requires AggFor(aggs, alias).Some? && AggFor(aggs, alias).value.fn == COUNT
    ensures AllShow(out, alias) && ColumnTotal(out, alias) == CountOver(KeySeq(out), rows, gcol) as real
  {
    if out != [] {
      CountColumn(out[1..], rows, gcol, aggs, alias);
      AggForIsListed(aggs, alias);
      AllShowCons(out, alias);
      KeySeqTail(out);
    }
  }

  lemma {:induction false} SumColumn(out: seq<OutRow>, rows: seq<Row>, gcol: string, aggs: seq<Agg>, alias: string)
    requires ShowsRows(out, rows, gcol, aggs)
    requires AggFor(aggs, alias).Some? && AggFor(aggs, alias).value.fn == SUM
    ensures AllShow(out, alias)
    ensures ColumnTotal(out, alias) == SumOver(KeySeq(out), rows, gcol, AggFor(aggs, alias).value.col)
  {
    if out != [] {
      SumColumn(out[1..], rows, gcol, aggs, alias);
      AggForIsListed(aggs, alias);
      AllShowCons(out, alias);
      KeySeqTail(out);
    }
  }

  /** A COUNT column of the result adds up to the number of rows, a SUM column to the sum over all rows. */
  lemma {:induction false} GroupsAddUp(out: seq<OutRow>, rows: seq<Row>, gcol: string, aggs: seq<Agg>, alias: string)
    requires WellTyped(rows, gcol, aggs) && IsGrouping(out, rows, gcol, aggs) && AggFor(aggs, alias).Some?
    ensures var g := AggFor(aggs, alias).value;
      && (g.fn == COUNT ==> AllShow(out, alias) && ColumnTotal(out, alias) == |rows| as real)
      && (g.fn == SUM ==> AllShow(out, alias) && ColumnTotal(out, alias) == SumOf(Column(rows, g.col)))
  {
    var g := AggFor(aggs, alias).value;
    KeyTotals(out, rows, gcol, aggs, g.col);
    if g.fn == COUNT { CountColumn(out, rows, gcol, aggs, alias); }
    if g.fn == SUM { SumColumn(out, rows, gcol, aggs, alias); }
  }
}
