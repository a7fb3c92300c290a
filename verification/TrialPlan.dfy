/**
  Plan selection by a workspace (PUT /api/workspace/plan, backend/src/routes/workspaceRoutes.ts): selection rules, the
  use-once trial and the usage check, over whole runs of selections.
 */
module TrialPlan {
  import opened Wrappers
  import opened PlanCatalogue

  /** The catalogue by plan name. */
  type Catalogue = map<string, Plan>

  /** Usage counters in order; a counter that could not be read is None. */
  type Usage = seq<(string, Option<int>)>

  datatype Workspace = Workspace(plan: Option<string>, trialUsedAt: Option<int>, expires: Option<int>,
                                 overrides: map<string, int>)

  datatype Refusal = NoSuchPlan | NotSelectable | TrialAlreadyUsed | DoesNotFit(problems: seq<string>)

  /** `Number(plan.features?.trial_period_days ?? -1) > 0` */
  predicate IsTrial(p: Plan) { p.trialDays.Some? && p.trialDays.value > 0 }

  predicate Selectable(p: Plan, name: string) { IsActive(p) && !p.isCustom && name != "selfhost" }

  predicate Exceeds(limits: map<string, int>, counter: (string, Option<int>))
  {
    counter.1.Some? && counter.0 in limits && limits[counter.0] != -1 && counter.1.value > limits[counter.0]
  }

  /** The counters over their limit, in order. */
  function Problems(limits: map<string, int>, usage: Usage): seq<string>
  {
    if usage == [] then []
    else (if Exceeds(limits, usage[0]) then [usage[0].0] else []) + Problems(limits, usage[1..])
  }

  /** A counter is listed exactly when it exceeds its limit. */
  lemma {:induction false} ProblemsListExceeded(limits: map<string, int>, usage: Usage, k: string)
    ensures k in Problems(limits, usage) <==>
            exists i | 0 <= i < |usage| :: usage[i].0 == k && Exceeds(limits, usage[i])
  {
    if usage != [] {
      var tail := usage[1..];
      ProblemsListExceeded(limits, tail, k);
      if exists i | 0 <= i < |tail| :: tail[i].0 == k && Exceeds(limits, tail[i]) {
        var i :| 0 <= i < |tail| && tail[i].0 == k && Exceeds(limits, tail[i]);
        assert usage[i + 1] == tail[i];
      }
      if exists i | 0 <= i < |usage| :: usage[i].0 == k && Exceeds(limits, usage[i]) {
        var i :| 0 <= i < |usage| && usage[i].0 == k && Exceeds(limits, usage[i]);
        if i > 0 { assert tail[i - 1] == usage[i]; }
      }
    }
  }

  lemma {:induction false} ProblemsAppend(limits: map<string, int>, a: Usage, b: Usage)
    ensures Problems(limits, a + b) == Problems(limits, a) + Problems(limits, b)
  {
    if a == [] { assert a + b == b; }
    else { assert (a + b)[1..] == a[1..] + b; ProblemsAppend(limits, a[1..], b); }
  }

  function Refused(cat: Catalogue, ws: Workspace, name: string, admin: bool, usage: Usage): Option<Refusal>
  {
    if name !in cat then Some(NoSuchPlan)
    else if admin then None
    else if !Selectable(cat[name], name) then Some(NotSelectable)
    else if IsTrial(cat[name]) && ws.trialUsedAt.Some? && ws.plan != Some(name) then Some(TrialAlreadyUsed)
    else if Problems(cat[name].limits, usage) != [] then Some(DoesNotFit(Problems(cat[name].limits, usage)))
    else None
  }

  /** The UPDATE of an accepted selection; COALESCE keeps the first trial time. */
  function Selected(cat: Catalogue, ws: Workspace, name: string, now: int): Workspace
    requires name in cat
  {
    Workspace(Some(name), if IsTrial(cat[name]) && ws.trialUsedAt.None? then Some(now) else ws.trialUsedAt, None, map[])
  }

  /** What a workspace without admin rights may not select, and what selecting changes. */
  lemma {:induction false} SelectionRules(cat: Catalogue, ws: Workspace, name: string, usage: Usage, now: int)
    requires name in cat
    ensures Refused(cat, ws, name, false, usage).None? <==>
            && (cat[name].status == None || cat[name].status == Some(Active))
            && !cat[name].isCustom && name != "selfhost"
            && (ws.trialUsedAt.Some? && cat[name].trialDays.Some? && cat[name].trialDays.value > 0 ==>
                  ws.plan == Some(name))
            && forall i | 0 <= i < |usage| && usage[i].1.Some? && usage[i].0 in cat[name].limits ::
                 cat[name].limits[usage[i].0] == -1 || usage[i].1.value <= cat[name].limits[usage[i].0]
    ensures Refused(cat, ws, name, true, usage).None?
    ensures var ws' := Selected(cat, ws, name, now);
      && ws'.plan == Some(name) && ws'.expires == None && ws'.overrides == map[]
      && (ws.trialUsedAt.Some? ==> ws'.trialUsedAt == ws.trialUsedAt)
      && (ws.trialUsedAt.None? ==>
            ws'.trialUsedAt
            == if cat[name].trialDays.Some? && cat[name].trialDays.value > 0 then Some(now) else None)
  {
    NoProblemIff(cat[name].limits, usage);
  }

  lemma {:induction false} NoProblemIff(limits: map<string, int>, usage: Usage)
    ensures Problems(limits, usage) == [] <==>
            forall i | 0 <= i < |usage| && usage[i].1.Some? && usage[i].0 in limits ::
              limits[usage[i].0] == -1 || usage[i].1.value <= limits[usage[i].0]
  {
    if usage != [] {
      NoProblemIff(limits, usage[1..]);
      assert forall i | 1 <= i < |usage| :: usage[i] == usage[1..][i - 1];
    }
  }

  class WorkspaceRow {
    var ws: Workspace

    constructor (ws: Workspace)
      ensures this.ws == ws
    {
      this.ws := ws;
    }

    method PutPlan(cat: Catalogue, name: string, admin: bool, usage: Usage, now: int) returns (refusal: Option<Refusal>)
      modifies this
      ensures refusal == Refused(cat, old(ws), name, admin, usage)
      ensures refusal.Some? ==> ws == old(ws)
      ensures refusal.None? ==> name in cat && ws == Selected(cat, old(ws), name, now)
    {
      if name !in cat { return Some(NoSuchPlan); }
      var plan := cat[name];
      if !admin && (!IsActive(plan) || plan.isCustom || name == "selfhost") { return Some(NotSelectable); }
      var trialDays := if plan.trialDays.Some? then plan.trialDays.value else -1;
      if !admin && trialDays > 0 && ws.trialUsedAt.Some? && ws.plan != Some(name) { return Some(TrialAlreadyUsed); }
      if !admin {
        var problems := CollectProblems(plan.limits, usage);
        if |problems| > 0 { return Some(DoesNotFit(problems)); }
      }
      var used := ws.trialUsedAt;
      if trialDays > 0 && used.None? { used := Some(now); }
      ws := Workspace(Some(name), used, None, map[]);
      return None;
    }
  }

  method CollectProblems(limits: map<string, int>, usage: Usage) returns (problems: seq<string>)
    ensures problems == Problems(limits, usage)
  {
    problems := [];
    var i := 0;
    while i < |usage|
      invariant 0 <= i <= |usage|
      invariant problems == Problems(limits, usage[..i])
    {
      assert usage[..i + 1] == usage[..i] + [usage[i]];
      ProblemsAppend(limits, usage[..i], [usage[i]]);
      var (k, used) := usage[i];
      if used.Some? && k in limits && limits[k] != -1 && used.value > limits[k] { problems := problems + [k]; }
      i := i + 1;
    }
    assert usage[..|usage|] == usage;
  }

  // ---- runs of non-admin selections over a fixed catalogue ----

  datatype Select = Select(name: string, usage: Usage, now: int)

  predicate Accepts(cat: Catalogue, ws: Workspace, s: Select) { Refused(cat, ws, s.name, false, s.usage).None? }

  function Step(cat: Catalogue, ws: Workspace, s: Select): Workspace
  {
    if Accepts(cat, ws, s) then Selected(cat, ws, s.name, s.now) else ws
  }

  function Run(cat: Catalogue, ws: Workspace, ss: seq<Select>): Workspace
    decreases |ss|
  {
    if ss == [] then ws else Run(cat, Step(cat, ws, ss[0]), ss[1..])
  }

  /** The plan names of the accepted selections, in order. */
  function Accepted(cat: Catalogue, ws: Workspace, ss: seq<Select>): seq<string>
    decreases |ss|
  {
    if ss == [] then []
    else (if Accepts(cat, ws, ss[0]) then [ss[0].name] else []) + Accepted(cat, Step(cat, ws, ss[0]), ss[1..])
  }

  predicate TrialName(cat: Catalogue, name: string) { name in cat && IsTrial(cat[name]) }

  predicate NoTrial(cat: Catalogue, names: seq<string>) { forall i | 0 <= i < |names| :: !TrialName(cat, names[i]) }

  /** Once written, `trial_used_at` never changes. */
  lemma {:induction false} TrialTimeIsWrittenOnce(cat: Catalogue, ws: Workspace, ss: seq<Select>)
    requires ws.trialUsedAt.Some?
    ensures Run(cat, ws, ss).trialUsedAt == ws.trialUsedAt
    decreases |ss|
  {
    if ss != [] { TrialTimeIsWrittenOnce(cat, Step(cat, ws, ss[0]), ss[1..]); }
  }

  /** It is written by a run exactly when the run accepts a trial plan. */
  lemma {:induction false} TrialTimeMeansTrialAccepted(cat: Catalogue, ws: Workspace, ss: seq<Select>)
    requires ws.trialUsedAt.None?
    ensures Run(cat, ws, ss).trialUsedAt.Some? <==> !NoTrial(cat, Accepted(cat, ws, ss))
    decreases |ss|
  {
    if ss != [] {
      var ws' := Step(cat, ws, ss[0]);
      var acc, rest := Accepted(cat, ws, ss), Accepted(cat, ws', ss[1..]);
      if Accepts(cat, ws, ss[0]) {
        assert acc == [ss[0].name] + rest && acc[0] == ss[0].name;
        assert forall i | 0 <= i < |rest| :: acc[i + 1] == rest[i];
      } else {
        assert acc == rest;
      }
      if ws'.trialUsedAt.Some? { TrialTimeIsWrittenOnce(cat, ws', ss[1..]); }
      else { TrialTimeMeansTrialAccepted(cat, ws', ss[1..]); }
    }
  }

  /** With the trial used and the workspace not on a trial plan, no trial plan is ever accepted again. */
  lemma {:induction false} NoTrialAfterLeaving(cat: Catalogue, ws: Workspace, ss: seq<Select>)
    requires ws.trialUsedAt.Some? && (ws.plan.Some? ==> !TrialName(cat, ws.plan.value))
    ensures NoTrial(cat, Accepted(cat, ws, ss))
    decreases |ss|
  {
    if ss != [] { NoTrialAfterLeaving(cat, Step(cat, ws, ss[0]), ss[1..]); }
  }

  /** `names` is a block of `p` followed by non-trial plans only. */
  predicate BlockThenNone(cat: Catalogue, names: seq<string>, p: string, m: nat)
  {
    m <= |names| && (forall i | 0 <= i < m :: names[i] == p) && NoTrial(cat, names[m..])
  }

  lemma {:induction false} OnTrialRun(cat: Catalogue, ws: Workspace, ss: seq<Select>, p: string) returns (m: nat)
    requires ws.trialUsedAt.Some? && ws.plan == Some(p) && TrialName(cat, p)
    ensures BlockThenNone(cat, Accepted(cat, ws, ss), p, m)
    decreases |ss|
  {
    if ss == [] {
      m := 0;
    } else {
      var ws', rest := Step(cat, ws, ss[0]), Accepted(cat, Step(cat, ws, ss[0]), ss[1..]);
      if !Accepts(cat, ws, ss[0]) {
        m := OnTrialRun(cat, ws', ss[1..], p);
        assert Accepted(cat, ws, ss) == rest;
      } else if ss[0].name == p {
        var k := OnTrialRun(cat, ws', ss[1..], p);
        m := k + 1;
        BlockGrows(cat, rest, p, k);
      } else {
        NoTrialAfterLeaving(cat, ws', ss[1..]);
        m := 0;
        NoTrialCons(cat, ss[0].name, rest);
      }
    }
  }

  lemma {:induction false} BlockGrows(cat: Catalogue, rest: seq<string>, p: string, k: nat)
    requires BlockThenNone(cat, rest, p, k)
    ensures BlockThenNone(cat, [p] + rest, p, k + 1)
  {
    var all := [p] + rest;
    assert all[k + 1..] == rest[k..];
    forall i | 0 <= i < k + 1 ensures all[i] == p { if i > 0 { assert all[i] == rest[i - 1]; } }
  }

  lemma {:induction false} NoTrialCons(cat: Catalogue, name: string, rest: seq<string>)
    requires !TrialName(cat, name) && NoTrial(cat, rest)
    ensures NoTrial(cat, [name] + rest) && NoTrial(cat, ([name] + rest)[0..])
  {
    var all := [name] + rest;
    assert all[0..] == all;
    forall i | 0 <= i < |all| ensures !TrialName(cat, all[i]) { if i > 0 { assert all[i] == rest[i - 1]; } }
  }

  /** Non-trial plans, then one block of `p` from `l` to `m`, then non-trial plans. */
  predicate OneBlock(cat: Catalogue, acc: seq<string>, l: nat, m: nat, p: string)
  {
    && l <= m <= |acc|
    && NoTrial(cat, acc[..l])
    && (forall i | l <= i < m :: acc[i] == p && TrialName(cat, p))
    && NoTrial(cat, acc[m..])
  }

  lemma {:induction false} BlockAfterPlain(cat: Catalogue, name: string, rest: seq<string>, l: nat, m: nat, p: string)
    requires OneBlock(cat, rest, l, m, p) && !TrialName(cat, name)
    ensures OneBlock(cat, [name] + rest, l + 1, m + 1, p)
  {
    var acc := [name] + rest;
    assert acc[..l + 1] == [name] + rest[..l];
    NoTrialCons(cat, name, rest[..l]);
    assert acc[m + 1..] == rest[m..];
    forall i | l + 1 <= i < m + 1 ensures acc[i] == p && TrialName(cat, p) { assert acc[i] == rest[i - 1]; }
  }

  lemma {:induction false} BlockFromTrial(cat: Catalogue, p: string, rest: seq<string>, k: nat)
    requires BlockThenNone(cat, rest, p, k) && TrialName(cat, p)
    ensures OneBlock(cat, [p] + rest, 0, k + 1, p)
  {
    BlockGrows(cat, rest, p, k);
    BlockIsOne(cat, [p] + rest, p, k + 1);
  }

  lemma {:induction false} BlockIsOne(cat: Catalogue, acc: seq<string>, p: string, m: nat)
    requires BlockThenNone(cat, acc, p, m) && TrialName(cat, p)
    ensures OneBlock(cat, acc, 0, m, p)
  {
    assert |acc[..0]| == 0;
    assert NoTrial(cat, acc[..0]);
  }

  /**
    Trial once: from an unused trial, the accepted selections are non-trial plans, then one contiguous block of a single
    trial plan (possibly empty), then non-trial plans for ever.
   */
  lemma {:induction false} TrialIsOneBlock(cat: Catalogue, ws: Workspace, ss: seq<Select>)
    returns (l: nat, m: nat, p: string)
    requires ws.trialUsedAt.None?
    ensures OneBlock(cat, Accepted(cat, ws, ss), l, m, p)
    decreases |ss|
  {
    if ss == [] {
      l, m, p := 0, 0, "";
    } else {
      var s, ws' := ss[0], Step(cat, ws, ss[0]);
      var rest := Accepted(cat, ws', ss[1..]);
      if !Accepts(cat, ws, s) {
        l, m, p := TrialIsOneBlock(cat, ws', ss[1..]);
        assert Accepted(cat, ws, ss) == rest;
      } else if TrialName(cat, s.name) {
        var k := OnTrialRun(cat, ws', ss[1..], s.name);
        l, m, p := 0, k + 1, s.name;
        BlockFromTrial(cat, p, rest, k);
      } else {
        var a, b;
        a, b, p := TrialIsOneBlock(cat, ws', ss[1..]);
        l, m := a + 1, b + 1;
        BlockAfterPlain(cat, s.name, rest, a, b, p);
      }
    }
  }
}
