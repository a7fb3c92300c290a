/**
  The bounded-concurrency case runner and its report (runCases and report, bulk-test/oracle.js).
  Workers share `idx`, `results` and `strat`; they interleave only where they await a call.
 */
module RunCases {
  import opened Wrappers

  datatype Case = Case(cat: string, cross: bool, expectsError: bool)

  /** A response: plan strategy and error text ("" when absent), and what the case's own tests say about it. */
  datatype Response = Response(strategy: string, error: string, errorMatches: bool, checkPasses: bool)

  datatype Verdict = Verdict(ok: bool, cat: string, cross: bool, strategy: string)

  function Judge(c: Case, r: Response): Verdict
  {
    var s := if r.strategy != "" then r.strategy else if r.error != "" then "ERROR" else "NONE";
    var ok := if c.expectsError then r.error != "" && r.errorMatches else r.error == "" && r.checkPasses;
    Verdict(ok, c.cat, c.cross, s)
  }

  /**
    A case passes when it wants an error and gets a matching one, or wants none, gets none and its check holds; what is
    counted is the plan's strategy, or ERROR or NONE without one.
   */
  lemma {:induction false} JudgeRules(c: Case, r: Response)
    ensures Judge(c, r).cat == c.cat && Judge(c, r).cross == c.cross
    ensures Judge(c, r).ok <==>
            (c.expectsError && r.error != "" && r.errorMatches) || (!c.expectsError && r.error == "" && r.checkPasses)
    ensures r.strategy != "" ==> Judge(c, r).strategy == r.strategy
    ensures r.strategy == "" && r.error != "" ==> Judge(c, r).strategy == "ERROR"
    ensures r.strategy == "" && r.error == "" ==> Judge(c, r).strategy == "NONE"
  {
  }

  datatype Worker = Ready | Waiting(i: nat) | Finished

  /**
    `strat` maps a strategy to its count; `started` lists the case indices in the order their calls were sent, and
    `answers` the response that each call received.
   */
  datatype State = State(idx: nat, results: seq<Option<Verdict>>, strat: multiset<string>, workers: seq<Worker>,
                         started: seq<nat>, answers: seq<Option<Response>>)

  function Start(cases: seq<Case>, conc: nat): State
  {
    State(0, seq(|cases|, _ => None), multiset{}, seq(conc, _ => Ready), [], seq(|cases|, _ => None))
  }

  predicate Enabled(s: State, w: nat)
  {
    w < |s.workers| && !s.workers[w].Finished? && (s.workers[w].Waiting? ==> s.workers[w].i < |s.results|)
    && |s.answers| == |s.results|
  }

  /**
    One turn of worker `w`: a waiting worker takes the answer `r` to its call and is ready for the loop test; a ready
    one sends the next call or ends. Between two awaits the source runs both turns, one of the interleavings here.
   */
  function Step(cases: seq<Case>, s: State, w: nat, r: Response): State
    requires Enabled(s, w) && |s.results| == |cases|
  {
    match s.workers[w]
    case Waiting(i) =>
      var v := Judge(cases[i], r);
      s.(strat := s.strat + multiset{v.strategy}, results := s.results[i := Some(v)], workers := s.workers[w := Ready],
         answers := s.answers[i := Some(r)])
    case Ready =>
      if s.idx < |cases| then
        s.(idx := s.idx + 1, workers := s.workers[w := Waiting(s.idx)], started := s.started + [s.idx])
      else s.(workers := s.workers[w := Finished])
  }

  datatype Event = Event(w: nat, r: Response)

  predicate Legal(cases: seq<Case>, s: State, es: seq<Event>)
    requires |s.results| == |cases|
    decreases |es|
  {
    es == [] || (Enabled(s, es[0].w) && Legal(cases, Step(cases, s, es[0].w, es[0].r), es[1..]))
  }

  function Run(cases: seq<Case>, s: State, es: seq<Event>): State
    requires |s.results| == |cases| && Legal(cases, s, es)
    decreases |es|
  {
    if es == [] then s else Run(cases, Step(cases, s, es[0].w, es[0].r), es[1..])
  }

  // ---- invariant ----

  function StrategiesOf(results: seq<Option<Verdict>>): multiset<string>
  {
    if results == [] then multiset{}
    else (if results[0].Some? then multiset{results[0].value.strategy} else multiset{}) + StrategiesOf(results[1..])
  }

  /** Slot `i` is empty, being filled by exactly the worker waiting for it, or filled. */
  predicate SlotOk(s: State, i: nat)
    requires i < |s.results|
  {
    if i >= s.idx then s.results[i].None?
    else s.results[i].None? <==> exists w | 0 <= w < |s.workers| :: s.workers[w] == Waiting(i)
  }

  /** The verdict on the answer, once there is one. */
  function JudgedBy(c: Case, answer: Option<Response>): Option<Verdict>
  {
    match answer
    case Some(r) => Some(Judge(c, r))
    case None => None
  }

  predicate Inv(cases: seq<Case>, s: State)
  {
    && |s.results| == |cases| && s.idx <= |cases|
    && s.started == seq(s.idx, i => i)
    && s.strat == StrategiesOf(s.results)
    && (forall i: nat | i < |s.results| :: SlotOk(s, i))
    && |s.answers| == |cases|
    && (forall i: nat | i < |s.results| :: s.results[i] == JudgedBy(cases[i], s.answers[i]))
    && (forall w | 0 <= w < |s.workers| && s.workers[w].Waiting? :: s.workers[w].i < s.idx)
    && (forall v, w | 0 <= v < w < |s.workers| && s.workers[v].Waiting? :: s.workers[v] != s.workers[w])
    && (forall w | 0 <= w < |s.workers| && s.workers[w].Finished? :: s.idx == |cases|)
  }

  lemma {:induction false} FillingAddsOne(results: seq<Option<Verdict>>, i: nat, v: Verdict)
    requires i < |results| && results[i].None?
    ensures StrategiesOf(results[i := Some(v)]) == StrategiesOf(results) + multiset{v.strategy}
    decreases |results|
  {
    var after := results[i := Some(v)];
    if i == 0 { assert after[1..] == results[1..]; }
    else {
      assert after[1..] == results[1..][i - 1 := Some(v)];
      FillingAddsOne(results[1..], i - 1, v);
    }
  }

  lemma {:induction false} EmptySlotsTallyNothing(n: nat)
    ensures StrategiesOf(seq(n, _ => None)) == multiset{}
  {
    if n > 0 {
      assert seq<Option<Verdict>>(n, _ => None)[1..] == seq(n - 1, _ => None);
      EmptySlotsTallyNothing(n - 1);
    }
  }

  lemma {:induction false} StartInv(cases: seq<Case>, conc: nat)
    ensures Inv(cases, Start(cases, conc))
  {
    EmptySlotsTallyNothing(|cases|);
  }

  lemma {:induction false} AnswerKeepsInv(cases: seq<Case>, s: State, w: nat, r: Response)
    requires Inv(cases, s) && Enabled(s, w) && s.workers[w].Waiting?
    ensures Inv(cases, Step(cases, s, w, r))
  {
    var i := s.workers[w].i;
    var s' := Step(cases, s, w, r);
    assert SlotOk(s, i);
    FillingAddsOne(s.results, i, Judge(cases[i], r));
    forall k: nat | k < |s'.results| ensures SlotOk(s', k) {
      assert SlotOk(s, k);
      if k < s.idx && k != i && s.results[k].None? {
        var v :| 0 <= v < |s.workers| && s.workers[v] == Waiting(k);
        assert s'.workers[v] == Waiting(k);
      }
    }
  }

  lemma {:induction false} TakeKeepsInv(cases: seq<Case>, s: State, w: nat, r: Response)
    requires Inv(cases, s) && Enabled(s, w) && s.workers[w].Ready?
    ensures Inv(cases, Step(cases, s, w, r))
  {
    var s' := Step(cases, s, w, r);
    forall k: nat | k < |s'.results| ensures SlotOk(s', k) {
      assert SlotOk(s, k);
      if k < s.idx && s.results[k].None? {
        var v :| 0 <= v < |s.workers| && s.workers[v] == Waiting(k);
        assert s'.workers[v] == Waiting(k);
      }
      if k == s.idx { assert s'.workers[w] == Waiting(k) || s'.idx == s.idx; }
    }
  }

  lemma {:induction false} InvOverRun(cases: seq<Case>, s: State, es: seq<Event>)
    requires Inv(cases, s) && Legal(cases, s, es)
    ensures Inv(cases, Run(cases, s, es)) && |Run(cases, s, es).workers| == |s.workers|
    decreases |es|
  {
    if es != [] {
      if s.workers[es[0].w].Waiting? { AnswerKeepsInv(cases, s, es[0].w, es[0].r); }
      else { TakeKeepsInv(cases, s, es[0].w, es[0].r); }
      InvOverRun(cases, Step(cases, s, es[0].w, es[0].r), es[1..]);
    }
  }

  // ---- every run ends, and ends complete ----

  predicate AllFinished(s: State) { forall w | 0 <= w < |s.workers| :: s.workers[w].Finished? }

  /** Steps a worker still has in hand: Ready is one from Finished, Waiting one more. */
  function Pending(ws: seq<Worker>): nat
  {
    if ws == [] then 0
    else (match ws[0] case Ready => 1 case Waiting(_) => 2 case Finished => 0) + Pending(ws[1..])
  }

  lemma {:induction false} PendingUpdate(ws: seq<Worker>, w: nat, x: Worker)
    requires w < |ws|
    ensures Pending(ws[w := x]) == Pending(ws) - Pending([ws[w]]) + Pending([x])
    decreases |ws|
  {
    assert [ws[w]][1..] == [] && [x][1..] == [];
    if w == 0 { assert ws[w := x][1..] == ws[1..]; }
    else {
      assert ws[w := x][1..] == ws[1..][w - 1 := x];
      PendingUpdate(ws[1..], w - 1, x);
    }
  }

  function StepsLeft(cases: seq<Case>, s: State): int { 2 * (|cases| - s.idx) + Pending(s.workers) }

  lemma {:induction false} RunLength(cases: seq<Case>, s: State, es: seq<Event>)
    requires Inv(cases, s) && Legal(cases, s, es)
    ensures |es| + StepsLeft(cases, Run(cases, s, es)) == StepsLeft(cases, s)
    decreases |es|
  {
    if es != [] {
      var w, s' := es[0].w, Step(cases, s, es[0].w, es[0].r);
      assert [s.workers[w]][1..] == [] && [s'.workers[w]][1..] == [];
      PendingUpdate(s.workers, w, s'.workers[w]);
      if s.workers[w].Waiting? { AnswerKeepsInv(cases, s, w, es[0].r); } else { TakeKeepsInv(cases, s, w, es[0].r); }
      RunLength(cases, s', es[1..]);
    }
  }

  lemma {:induction false} PendingOfReady(conc: nat)
    ensures Pending(seq(conc, _ => Ready)) == conc
  {
    if conc > 0 {
      assert seq(conc, _ => Ready)[1..] == seq(conc - 1, _ => Ready);
      PendingOfReady(conc - 1);
    }
  }

  /** No schedule runs longer than two steps per case and one per worker, and an unfinished one can always go on. */
  lemma {:induction false} EveryScheduleEnds(cases: seq<Case>, conc: nat, es: seq<Event>)
    requires Legal(cases, Start(cases, conc), es)
    ensures |es| <= 2 * |cases| + conc
    ensures var s := Run(cases, Start(cases, conc), es); !AllFinished(s) ==> exists w :: Enabled(s, w)
  {
    StartInv(cases, conc);
    InvOverRun(cases, Start(cases, conc), es);
    RunLength(cases, Start(cases, conc), es);
    PendingOfReady(conc);
    var s := Run(cases, Start(cases, conc), es);
    if !AllFinished(s) {
      var w: nat :| w < |s.workers| && !s.workers[w].Finished?;
      assert Enabled(s, w);
    }
  }

  lemma {:induction false} TallyCounts(results: seq<Option<Verdict>>)
    requires forall i | 0 <= i < |results| :: results[i].Some?
    ensures |StrategiesOf(results)| == |results|
  {
    if results != [] { TallyCounts(results[1..]); }
  }

  /**
    Every case index was called exactly once and in order, every result slot holds the verdict on the answer to its own
    case's call, and the strategy counts add up to the number of cases.
   */
  predicate Complete(cases: seq<Case>, s: State)
  {
    && s.started == seq(|cases|, i => i)
    && |s.results| == |cases| == |s.answers|
    && (forall i: nat | i < |cases| :: s.answers[i].Some? && s.results[i] == Some(Judge(cases[i], s.answers[i].value)))
    && s.strat == StrategiesOf(s.results) && |s.strat| == |cases|
  }

  lemma {:induction false} FinishedIsComplete(cases: seq<Case>, s: State)
    requires Inv(cases, s) && |s.workers| >= 1 && AllFinished(s)
    ensures Complete(cases, s)
  {
    assert s.workers[0].Finished?;
    forall i: nat | i < |cases| ensures s.results[i].Some? { assert SlotOk(s, i); }
    TallyCounts(s.results);
  }

  /** With at least one worker, whatever the interleaving: when all workers have returned, the run is complete. */
  lemma {:induction false} RunIsComplete(cases: seq<Case>, conc: nat, es: seq<Event>)
    requires conc >= 1 && Legal(cases, Start(cases, conc), es) && AllFinished(Run(cases, Start(cases, conc), es))
    ensures Complete(cases, Run(cases, Start(cases, conc), es))
  {
    StartInv(cases, conc);
    InvOverRun(cases, Start(cases, conc), es);
    FinishedIsComplete(cases, Run(cases, Start(cases, conc), es));
  }

  // ---- the shared variables the workers update ----

  class Runner {
    const cases: seq<Case>
    var idx: nat
    var results: seq<Option<Verdict>>
    var strat: multiset<string>
    var workers: seq<Worker>
    ghost var started: seq<nat>
    ghost var answers: seq<Option<Response>>

    ghost function Contents(): State reads this { State(idx, results, strat, workers, started, answers) }

    constructor (cases: seq<Case>, conc: nat)
      ensures this.cases == cases && Contents() == Start(cases, conc)
    {
      this.cases := cases;
      idx, results, strat, workers := 0, seq(|cases|, _ => None), multiset{}, seq(conc, _ => Ready);
      started, answers := [], seq(|cases|, _ => None);
    }

    method Resume(w: nat, r: Response)
      requires |results| == |cases| && Enabled(Contents(), w)
      modifies this
      ensures Contents() == Step(cases, old(Contents()), w, r)
    {
      if workers[w].Waiting? {
        var i := workers[w].i;
        var c, s, ok := cases[i], r.strategy, false;
        if s == "" { s := if r.error != "" then "ERROR" else "NONE"; }
        if c.expectsError { ok := r.error != "" && r.errorMatches; }
        else if r.error == "" { ok := r.checkPasses; }
        var v := Verdict(ok, c.cat, c.cross, s);
        strat := strat[v.strategy := strat[v.strategy] + 1];
        results := results[i := Some(v)];
        answers := answers[i := Some(r)];
        workers := workers[w := Ready];
      } else if idx < |cases| {
        var i := idx;
        idx := idx + 1;
        started := started + [i];
        workers := workers[w := Waiting(i)];
      } else {
        workers := workers[w := Finished];
      }
    }
  }

  // ---- report ----

  datatype Totals = Totals(pass: nat, fail: nat, samePass: nat, sameFail: nat, crossPass: nat, crossFail: nat,
                           catPass: multiset<string>, catFail: multiset<string>)

  function CountIf(vs: seq<Verdict>, ok: bool, cross: bool): nat
  {
    if vs == [] then 0 else (if vs[0].ok == ok && vs[0].cross == cross then 1 else 0) + CountIf(vs[1..], ok, cross)
  }

  function CatsIf(vs: seq<Verdict>, ok: bool): multiset<string>
  {
    if vs == [] then multiset{} else (if vs[0].ok == ok then multiset{vs[0].cat} else multiset{}) + CatsIf(vs[1..], ok)
  }

  lemma {:induction false} CountSnoc(vs: seq<Verdict>, v: Verdict, ok: bool, cross: bool)
    ensures CountIf(vs + [v], ok, cross) == CountIf(vs, ok, cross) + (if v.ok == ok && v.cross == cross then 1 else 0)
    ensures CatsIf(vs + [v], ok) == CatsIf(vs, ok) + (if v.ok == ok then multiset{v.cat} else multiset{})
  {
    if vs == [] { assert vs + [v] == [v] && [v][1..] == []; }
    else { assert (vs + [v])[1..] == vs[1..] + [v]; CountSnoc(vs[1..], v, ok, cross); }
  }

  /** Each counter is the count it names, and each breakdown adds up to the number of verdicts. */
  predicate Exact(t: Totals, vs: seq<Verdict>)
  {
    && t.samePass == CountIf(vs, true, false) && t.crossPass == CountIf(vs, true, true)
    && t.sameFail == CountIf(vs, false, false) && t.crossFail == CountIf(vs, false, true)
    && t.catPass == CatsIf(vs, true) && t.catFail == CatsIf(vs, false)
    && t.pass == t.samePass + t.crossPass && t.fail == t.sameFail + t.crossFail
    && t.pass + t.fail == |vs| && |t.catPass| == t.pass && |t.catFail| == t.fail
  }

  /** One verdict added to the counters, as the loop body does. */
  function Count(t: Totals, v: Verdict): Totals
  {
    if v.ok then
      t.(pass := t.pass + 1, catPass := t.catPass + multiset{v.cat},
         crossPass := t.crossPass + (if v.cross then 1 else 0), samePass := t.samePass + (if v.cross then 0 else 1))
    else
      t.(fail := t.fail + 1, catFail := t.catFail + multiset{v.cat},
         crossFail := t.crossFail + (if v.cross then 1 else 0), sameFail := t.sameFail + (if v.cross then 0 else 1))
  }

  lemma {:induction false} PassSnoc(t: Totals, vs: seq<Verdict>, v: Verdict)
    requires Exact(t, vs) && v.ok
    ensures Exact(Count(t, v), vs + [v])
  {
    CountSnoc(vs, v, true, false);
    CountSnoc(vs, v, true, true);
    CountSnoc(vs, v, false, false);
    CountSnoc(vs, v, false, true);
  }

  lemma {:induction false} FailSnoc(t: Totals, vs: seq<Verdict>, v: Verdict)
    requires Exact(t, vs) && !v.ok
    ensures Exact(Count(t, v), vs + [v])
  {
    CountSnoc(vs, v, true, false);
    CountSnoc(vs, v, true, true);
    CountSnoc(vs, v, false, false);
    CountSnoc(vs, v, false, true);
  }

  lemma {:induction false} ExactSnoc(t: Totals, vs: seq<Verdict>, v: Verdict)
    requires Exact(t, vs)
    ensures Exact(Count(t, v), vs + [v])
  {
    if v.ok { PassSnoc(t, vs, v); } else { FailSnoc(t, vs, v); }
  }

  lemma {:induction false} ExactStep(t: Totals, vs: seq<Verdict>, k: nat)
    requires k < |vs| && Exact(t, vs[..k])
    ensures Exact(Count(t, vs[k]), vs[..k + 1])
  {
    TakeOneMore(vs, k);
    ExactSnoc(t, vs[..k], vs[k]);
  }

  lemma {:induction false} TakeOneMore(vs: seq<Verdict>, k: nat)
    requires k < |vs|
    ensures vs[..k + 1] == vs[..k] + [vs[k]]
  {
  }

  const ZERO := Totals(0, 0, 0, 0, 0, 0, multiset{}, multiset{})

  lemma {:induction false} ExactZero(vs: seq<Verdict>)
    requires vs == []
    ensures Exact(ZERO, vs)
  {
  }

  method AddVerdict(before: Totals, v: Verdict) returns (t: Totals)
    ensures t == Count(before, v)
  {
    t := before;
    if v.ok {
      t := t.(pass := t.pass + 1, catPass := t.catPass + multiset{v.cat});
      if v.cross { t := t.(crossPass := t.crossPass + 1); } else { t := t.(samePass := t.samePass + 1); }
    } else {
      t := t.(fail := t.fail + 1, catFail := t.catFail + multiset{v.cat});
      if v.cross { t := t.(crossFail := t.crossFail + 1); } else { t := t.(sameFail := t.sameFail + 1); }
    }
  }

  method Report(vs: seq<Verdict>) returns (t: Totals)
    ensures Exact(t, vs)
  {
    t := ZERO;
    ExactZero(vs[..0]);
    var k := 0;
    while k < |vs|
      invariant 0 <= k <= |vs|
      invariant Exact(t, vs[..k])
    {
      ExactStep(t, vs, k);
      t := AddVerdict(t, vs[k]);
      k := k + 1;
    }
    assert vs[..|vs|] == vs;
  }

  /** With no worker at all the runner returns at once and leaves every slot empty. */
  lemma {:induction false} NoWorkerNoResult(cases: seq<Case>, es: seq<Event>)
    requires Legal(cases, Start(cases, 0), es)
    ensures es == [] && AllFinished(Start(cases, 0)) && forall i | 0 <= i < |cases| :: Start(cases, 0).results[i].None?
  {
  }

  // ---- the report of a finished run ----

  function Verdicts(results: seq<Option<Verdict>>): (vs: seq<Verdict>)
    requires forall i | 0 <= i < |results| :: results[i].Some?
    ensures |vs| == |results| && forall i | 0 <= i < |vs| :: vs[i] == results[i].value
  {
    seq(|results|, i requires 0 <= i < |results| => results[i].value)
  }

  function CrossCases(cases: seq<Case>, cross: bool): nat
  {
    if cases == [] then 0 else (if cases[0].cross == cross then 1 else 0) + CrossCases(cases[1..], cross)
  }

  function Categories(cases: seq<Case>): multiset<string>
  {
    if cases == [] then multiset{} else multiset{cases[0].cat} + Categories(cases[1..])
  }

  /** Pass and fail together count every case, by category and by same or cross source. */
  lemma {:induction false} TalliesAreOfCases(cases: seq<Case>, vs: seq<Verdict>)
    requires |vs| == |cases| && forall i | 0 <= i < |vs| :: vs[i].cat == cases[i].cat && vs[i].cross == cases[i].cross
    ensures CatsIf(vs, true) + CatsIf(vs, false) == Categories(cases)
    ensures forall x :: CountIf(vs, true, x) + CountIf(vs, false, x) == CrossCases(cases, x)
  {
    if vs != [] {
      TalliesAreOfCases(cases[1..], vs[1..]);
      forall x ensures CountIf(vs, true, x) + CountIf(vs, false, x) == CrossCases(cases, x) {
        assert CountIf(vs[1..], true, x) + CountIf(vs[1..], false, x) == CrossCases(cases[1..], x);
      }
    }
  }

  /**
    The report of a complete run: passes and failures add up to the number of cases, per category to the cases of that
    category, and per kind of source to the cases of that kind.
   */
  lemma {:induction false} ReportCoversCases(cases: seq<Case>, s: State, t: Totals)
    requires Complete(cases, s) && Exact(t, Verdicts(s.results))
    ensures t.pass + t.fail == |cases| && t.catPass + t.catFail == Categories(cases)
    ensures t.samePass + t.sameFail == CrossCases(cases, false) && t.crossPass + t.crossFail == CrossCases(cases, true)
  {
    TalliesAreOfCases(cases, Verdicts(s.results));
  }
}
