/**
  The plan catalogue and its references (backend/src/routes/systemRoutes.ts): create, update and delete of plans and
  the assignment of a plan to a workspace. Each handler is one atomic step.
 */
module PlanCatalogue {
  import opened Wrappers

  type PlanId = nat
  type TenantId = string

  datatype Status = Active | Disabled | Hidden | Upcoming

  /** `status` None is a NULL column, which reads as active. */
  datatype Plan = Plan(name: string, isDefault: bool, isCustom: bool, status: Option<Status>,
                       trialDays: Option<int>, limits: map<string, int>)

  /** A request body: the fields present, and whether it held an unknown field or a value of the wrong JSON type. */
  datatype Body = Body(malformed: bool, name: Option<string>, isDefault: Option<bool>, isCustom: Option<bool>,
                       status: Option<Status>, trialDays: Option<Option<int>>, limits: Option<map<string, int>>)

  /** `plan` None lets the workspace follow the default plan. */
  datatype Db = Db(plans: map<PlanId, Plan>, workspaces: map<TenantId, Option<string>>, subscriptions: map<nat, PlanId>)

  datatype Error = InvalidPlan | PlanExists | PlanNotFound | PlanInUse | WorkspaceNotFound

  predicate IsNameChar(c: char)
  {
    'a' <= c <= 'z' || 'A' <= c <= 'Z' || '0' <= c <= '9' || c == '_' || c == '-'
  }

  predicate IsPlanName(s: string) { 2 <= |s| <= 50 && forall i | 0 <= i < |s| :: IsNameChar(s[i]) }

  /** cleanPlan: `trialDays` stands for the features object, its presence for the object's presence. */
  predicate CleanPlan(b: Body, partial: bool)
  {
    && !b.malformed
    && (if b.name.Some? then IsPlanName(b.name.value) else partial)
    && (if b.limits.Some? then forall k | k in b.limits.value :: b.limits.value[k] >= -1 else partial)
    && (if b.trialDays.Some? then b.trialDays.value.Some? ==> -1 <= b.trialDays.value.value <= 3650 else partial)
  }

  function Or<T>(o: Option<T>, d: T): T { if o.Some? then o.value else d }

  predicate IsActive(p: Plan) { p.status == None || p.status == Some(Active) }

  /** `{ ...cur, ...p }` */
  function Merge(cur: Plan, b: Body): Plan
  {
    Plan(Or(b.name, cur.name), Or(b.isDefault, cur.isDefault), Or(b.isCustom, cur.isCustom),
         if b.status.Some? then b.status else cur.status, Or(b.trialDays, cur.trialDays), Or(b.limits, cur.limits))
  }

  /** The row a create inserts, with the COALESCE defaults. */
  function NewPlan(b: Body): Plan
  {
    Plan(Or(b.name, ""), Or(b.isDefault, false), Or(b.isCustom, false), Some(Or(b.status, Active)),
         Or(b.trialDays, None), Or(b.limits, map[]))
  }

  predicate NameTaken(plans: map<PlanId, Plan>, name: string, except: Option<PlanId>)
  {
    exists i | i in plans :: plans[i].name == name && except != Some(i)
  }

  function ClearDefaults(plans: map<PlanId, Plan>): map<PlanId, Plan>
  {
    map i | i in plans :: plans[i].(isDefault := false)
  }

  function UsedByWorkspaces(db: Db, name: string): set<TenantId>
  {
    set t | t in db.workspaces && db.workspaces[t] == Some(name)
  }

  predicate HasSubscription(db: Db, id: PlanId) { exists s | s in db.subscriptions :: db.subscriptions[s] == id }

  function CreatePlan(db: Db, id: PlanId, b: Body): Result<Db, Error>
  {
    if !CleanPlan(b, false) then Err(InvalidPlan)
    else
      var p := NewPlan(b);
      if p.isDefault && (p.isCustom || !IsActive(p)) then Err(InvalidPlan)
      else if NameTaken(db.plans, p.name, None) then Err(PlanExists)
      else Ok(db.(plans := (if p.isDefault then ClearDefaults(db.plans) else db.plans)[id := p]))
  }

  predicate IsEmptyPatch(b: Body)
  {
    b.name.None? && b.isDefault.None? && b.isCustom.None? && b.status.None? && b.trialDays.None? && b.limits.None?
  }

  function UpdatePlan(db: Db, id: PlanId, b: Body): Result<Db, Error>
  {
    if !CleanPlan(b, true) then Err(InvalidPlan)
    else if id !in db.plans then Err(PlanNotFound)
    else
      var cur := db.plans[id];
      var next := Merge(cur, b);
      if next.isDefault && (next.isCustom || !IsActive(next)) then Err(InvalidPlan)
      else if cur.isDefault && b.isDefault == Some(false) then Err(InvalidPlan)
      else if IsEmptyPatch(b) then Err(InvalidPlan)
      else if NameTaken(db.plans, next.name, Some(id)) then Err(PlanExists)
      else Ok(db.(plans := (if b.isDefault == Some(true) then ClearDefaults(db.plans) else db.plans)[id := next]))
  }

  function DeletePlan(db: Db, id: PlanId): Result<Db, Error>
  {
    if id !in db.plans then Err(PlanNotFound)
    else
      var cur := db.plans[id];
      if cur.isDefault || cur.name == "trial" || cur.name == "selfhost" then Err(PlanInUse)
      else if UsedByWorkspaces(db, cur.name) != {} || HasSubscription(db, id) then Err(PlanInUse)
      else Ok(db.(plans := db.plans - {id}))
  }

  function AssignPlan(db: Db, tenant: TenantId, name: string): Result<Db, Error>
  {
    if !NameTaken(db.plans, name, None) then Err(PlanNotFound)
    else if tenant !in db.workspaces then Err(WorkspaceNotFound)
    else Ok(db.(workspaces := db.workspaces[tenant := Some(name)]))
  }

  // ---- what an accepted request does, field by field ----

  /** A body that names these limits and trial days keeps to the allowed values. */
  ghost predicate ValuesAllowed(b: Body)
  {
    && !b.malformed
    && (b.name.Some? ==> 2 <= |b.name.value| <= 50 && forall c | c in b.name.value ::
          'a' <= c <= 'z' || 'A' <= c <= 'Z' || '0' <= c <= '9' || c == '_' || c == '-')
    && (b.limits.Some? ==> forall k | k in b.limits.value :: b.limits.value[k] >= -1)
    && (b.trialDays.Some? && b.trialDays.value.Some? ==> -1 <= b.trialDays.value.value <= 3650)
  }

  lemma {:induction false} CleanPlanIff(b: Body, partial: bool)
    ensures CleanPlan(b, partial) <==>
            ValuesAllowed(b) && (partial || (b.name.Some? && b.limits.Some? && b.trialDays.Some?))
  {
    if b.name.Some? {
      var s := b.name.value;
      if forall c | c in s :: IsNameChar(c) { assert forall i | 0 <= i < |s| :: s[i] in s; }
    }
  }

  /** A create is accepted exactly for a complete, allowed body with a free name; a default is active and not custom. */
  lemma {:induction false} CreateIff(db: Db, id: PlanId, b: Body)
    ensures CreatePlan(db, id, b).Ok? <==>
            && ValuesAllowed(b) && b.name.Some? && b.limits.Some? && b.trialDays.Some?
            && (b.isDefault == Some(true) ==>
                  b.isCustom != Some(true) && (b.status == None || b.status == Some(Active)))
            && forall i | i in db.plans :: db.plans[i].name != b.name.value
    ensures CreatePlan(db, id, b).Ok? ==>
              var db' := CreatePlan(db, id, b).value;
              && id in db'.plans && db'.workspaces == db.workspaces && db'.subscriptions == db.subscriptions
              && var p := db'.plans[id];
              && p.name == b.name.value && p.limits == b.limits.value && p.trialDays == b.trialDays.value
              && p.isDefault == (b.isDefault == Some(true)) && p.isCustom == (b.isCustom == Some(true))
              && p.status == (if b.status.Some? then b.status else Some(Active))
  {
    CleanPlanIff(b, false);
  }

  /** An accepted update changes exactly the fields that the body names. */
  lemma {:induction false} UpdateChanges(db: Db, id: PlanId, b: Body)
    requires UpdatePlan(db, id, b).Ok?
    ensures ValuesAllowed(b) && id in db.plans
    ensures var db' := UpdatePlan(db, id, b).value;
      && db'.workspaces == db.workspaces && db'.subscriptions == db.subscriptions && db'.plans.Keys == db.plans.Keys
      && var cur, next := db.plans[id], db'.plans[id];
      && next.name == (if b.name.Some? then b.name.value else cur.name)
      && next.isDefault == (if b.isDefault.Some? then b.isDefault.value else cur.isDefault)
      && next.isCustom == (if b.isCustom.Some? then b.isCustom.value else cur.isCustom)
      && next.status == (if b.status.Some? then b.status else cur.status)
      && next.trialDays == (if b.trialDays.Some? then b.trialDays.value else cur.trialDays)
      && next.limits == (if b.limits.Some? then b.limits.value else cur.limits)
  {
    CleanPlanIff(b, true);
  }

  /** Every other plan is left alone, except that it stops being the default when another plan becomes it. */
  lemma {:induction false} OthersKeepFields(db: Db, id: PlanId, b: Body, i: PlanId)
    requires i in db.plans && i != id
    ensures var kept := if b.isDefault == Some(true) then db.plans[i].(isDefault := false) else db.plans[i];
      && (CreatePlan(db, id, b).Ok? ==>
            i in CreatePlan(db, id, b).value.plans && CreatePlan(db, id, b).value.plans[i] == kept)
      && (UpdatePlan(db, id, b).Ok? ==>
            i in UpdatePlan(db, id, b).value.plans && UpdatePlan(db, id, b).value.plans[i] == kept)
  {
  }

  /** What an update refuses, and why. */
  lemma {:induction false} UpdateIff(db: Db, id: PlanId, b: Body)
    ensures UpdatePlan(db, id, b).Ok? <==>
            && ValuesAllowed(b) && id in db.plans
            && b != Body(false, None, None, None, None, None, None)
            && var cur := db.plans[id];
            && (Or(b.isDefault, cur.isDefault) ==>
                  !Or(b.isCustom, cur.isCustom)
                  && (if b.status.Some? then b.status == Some(Active)
                      else cur.status == None || cur.status == Some(Active)))
            && (cur.isDefault ==> b.isDefault != Some(false))
            && forall i | i in db.plans && i != id :: db.plans[i].name != Or(b.name, cur.name)
  {
    CleanPlanIff(b, true);
  }

  // ---- the handlers, on the tables they update ----

  /** cleanPlan, check by check. */
  method ValidateBody(b: Body, partial: bool) returns (ok: bool)
    ensures ok == CleanPlan(b, partial)
  {
    if b.malformed { return false; }
    if !partial || b.name.Some? {
      if b.name.None? { return false; }
      var name := b.name.value;
      if |name| < 2 || |name| > 50 { return false; }
      for i := 0 to |name|
        invariant forall j | 0 <= j < i :: IsNameChar(name[j])
      {
        var c := name[i];
        var letter := 'a' <= c <= 'z' || 'A' <= c <= 'Z';
        if !letter && !('0' <= c <= '9') && c != '_' && c != '-' { return false; }
      }
    }
    if b.limits.Some? {
      if exists k | k in b.limits.value :: b.limits.value[k] < -1 { return false; }
    } else if !partial { return false; }
    if b.trialDays.Some? {
      var days := b.trialDays.value;
      if days.Some? && (days.value < -1 || days.value > 3650) { return false; }
    } else if !partial { return false; }
    return true;
  }

  /** `{ ...cur, ...p }` */
  method Spread(cur: Plan, b: Body) returns (next: Plan)
    ensures next == Merge(cur, b)
  {
    next := Plan(if b.name.Some? then b.name.value else cur.name,
                 if b.isDefault.Some? then b.isDefault.value else cur.isDefault,
                 if b.isCustom.Some? then b.isCustom.value else cur.isCustom,
                 if b.status.Some? then b.status else cur.status,
                 if b.trialDays.Some? then b.trialDays.value else cur.trialDays,
                 if b.limits.Some? then b.limits.value else cur.limits);
  }

  class PlanStore {
    var plans: map<PlanId, Plan>
    var workspaces: map<TenantId, Option<string>>
    var subscriptions: map<nat, PlanId>

    ghost function Contents(): Db reads this { Db(plans, workspaces, subscriptions) }

    constructor (plans: map<PlanId, Plan>, workspaces: map<TenantId, Option<string>>, subscriptions: map<nat, PlanId>)
      ensures Contents() == Db(plans, workspaces, subscriptions)
    {
      this.plans, this.workspaces, this.subscriptions := plans, workspaces, subscriptions;
    }

    /** POST /plans: the transaction works on the table and restores it when the unique index rejects the name. */
    method PostPlan(id: PlanId, b: Body) returns (failed: Option<Error>)
      requires id !in plans
      modifies this
      ensures match CreatePlan(old(Contents()), id, b)
              case Ok(db) => failed == None && Contents() == db
              case Err(e) => failed == Some(e) && Contents() == old(Contents())
    {
      var valid := ValidateBody(b, false);
      if !valid { return Some(InvalidPlan); }
      var p := Plan(b.name.value, b.isDefault == Some(true), b.isCustom == Some(true),
                    if b.status.Some? then b.status else Some(Active), b.trialDays.value, b.limits.value);
      if b.isDefault == Some(true) && (b.isCustom == Some(true) || (b.status.Some? && b.status.value != Active)) {
        return Some(InvalidPlan);
      }
      var before := plans;
      if b.isDefault == Some(true) { plans := map i | i in plans :: plans[i].(isDefault := false); }
      if exists i | i in plans :: plans[i].name == p.name {
        plans := before;
        assert exists i | i in plans :: plans[i].name == p.name;
        return Some(PlanExists);
      }
      assert forall i | i in before :: plans[i].name == before[i].name;
      plans := plans[id := p];
      return None;
    }

    method PutPlan(id: PlanId, b: Body) returns (failed: Option<Error>)
      modifies this
      ensures match UpdatePlan(old(Contents()), id, b)
              case Ok(db) => failed == None && Contents() == db
              case Err(e) => failed == Some(e) && Contents() == old(Contents())
    {
      var valid := ValidateBody(b, true);
      if !valid { return Some(InvalidPlan); }
      if id !in plans { return Some(PlanNotFound); }
      var cur := plans[id];
      var next := Spread(cur, b);
      var active := next.status == None || next.status == Some(Active);
      if next.isDefault && (next.isCustom || !active) { return Some(InvalidPlan); }
      if cur.isDefault && b.isDefault == Some(false) { return Some(InvalidPlan); }
      if b == Body(b.malformed, None, None, None, None, None, None) { return Some(InvalidPlan); }
      var conflict := Write(id, next, b.isDefault == Some(true));
      return if conflict then Some(PlanExists) else None;
    }

    /** The transaction of an update, rolled back when the unique index rejects the name. */
    method Write(id: PlanId, next: Plan, promote: bool) returns (conflict: bool)
      requires id in plans
      modifies this`plans
      ensures conflict == NameTaken(old(plans), next.name, Some(id))
      ensures plans == if conflict then old(plans)
                       else (if promote then ClearDefaults(old(plans)) else old(plans))[id := next]
    {
      var before := plans;
      if promote {
        plans := map i | i in plans :: if i == id then plans[i] else plans[i].(isDefault := false);
      }
      assert forall i | i in before :: plans[i].name == before[i].name;
      conflict := exists i | i in plans && i != id :: plans[i].name == next.name;
      if conflict { plans := before; } else { plans := plans[id := next]; }
    }

    method RemovePlan(id: PlanId) returns (failed: Option<Error>)
      modifies this
      ensures match DeletePlan(old(Contents()), id)
              case Ok(db) => failed == None && Contents() == db
              case Err(e) => failed == Some(e) && Contents() == old(Contents())
    {
      if id !in plans { return Some(PlanNotFound); }
      var cur := plans[id];
      if cur.isDefault { return Some(PlanInUse); }
      if cur.name == "trial" || cur.name == "selfhost" { return Some(PlanInUse); }
      var users := set t | t in workspaces && workspaces[t] == Some(cur.name);
      var subs := set s | s in subscriptions && subscriptions[s] == id;
      assert HasSubscription(Contents(), id) <==> subs != {} by {
        if HasSubscription(Contents(), id) {
          var s :| s in subscriptions && subscriptions[s] == id;
          assert s in subs;
        }
      }
      if |users| + |subs| > 0 { return Some(PlanInUse); }
      plans := plans - {id};
      return None;
    }

    method PutWorkspacePlan(tenant: TenantId, name: string) returns (failed: Option<Error>)
      modifies this
      ensures match AssignPlan(old(Contents()), tenant, name)
              case Ok(db) => failed == None && Contents() == db
              case Err(e) => failed == Some(e) && Contents() == old(Contents())
    {
      if !exists i | i in plans :: plans[i].name == name { return Some(PlanNotFound); }
      assert NameTaken(plans, name, None);
      if tenant !in workspaces { return Some(WorkspaceNotFound); }
      workspaces := workspaces[tenant := Some(name)];
      return None;
    }
  }

  // ---- runs ----

  datatype Event =
    | Create(id: PlanId, body: Body)
    | Update(id: PlanId, body: Body)
    | Delete(id: PlanId)
    | Assign(tenant: TenantId, plan: string)

  /** Row ids are generated: a create never reuses one. */
  predicate Enabled(db: Db, e: Event) { e.Create? ==> e.id !in db.plans }

  function Attempt(db: Db, e: Event): Result<Db, Error>
  {
    match e
    case Create(id, b) => CreatePlan(db, id, b)
    case Update(id, b) => UpdatePlan(db, id, b)
    case Delete(id) => DeletePlan(db, id)
    case Assign(t, name) => AssignPlan(db, t, name)
  }

  function Step(db: Db, e: Event): Db { if Attempt(db, e).Ok? then Attempt(db, e).value else db }

  predicate Legal(db: Db, es: seq<Event>)
    decreases |es|
  {
    es == [] || (Enabled(db, es[0]) && Legal(Step(db, es[0]), es[1..]))
  }

  function Run(db: Db, es: seq<Event>): Db
    decreases |es|
  {
    if es == [] then db else Run(Step(db, es[0]), es[1..])
  }

  // ---- exactly one default ----

  predicate IsTheDefault(plans: map<PlanId, Plan>, d: PlanId)
  {
    && d in plans && plans[d].isDefault && !plans[d].isCustom && IsActive(plans[d])
    && forall i | i in plans && i != d :: !plans[i].isDefault
  }

  predicate NamesUnique(plans: map<PlanId, Plan>)
  {
    forall i, j | i in plans && j in plans && i != j :: plans[i].name != plans[j].name
  }

  ghost predicate CatalogueOk(plans: map<PlanId, Plan>) { NamesUnique(plans) && exists d :: IsTheDefault(plans, d) }

  lemma {:induction false} StepKeepsCatalogue(db: Db, e: Event)
    requires CatalogueOk(db.plans) && Enabled(db, e)
    ensures CatalogueOk(Step(db, e).plans)
  {
    var plans' := Step(db, e).plans;
    var d :| IsTheDefault(db.plans, d);
    if Attempt(db, e).Ok? {
      match e
      case Create(id, b) =>
        assert IsTheDefault(plans', if Or(b.isDefault, false) then id else d);
      case Update(id, b) =>
        assert IsTheDefault(plans', if b.isDefault == Some(true) then id else d);
      case Delete(id) =>
        assert IsTheDefault(plans', d);
      case Assign(_, _) =>
    }
  }

  /** Every run keeps names unique and exactly one default plan, which is active and not custom. */
  lemma {:induction false} AlwaysOneDefault(db: Db, es: seq<Event>)
    requires CatalogueOk(db.plans) && Legal(db, es)
    ensures CatalogueOk(Run(db, es).plans)
    decreases |es|
  {
    if es != [] {
      StepKeepsCatalogue(db, es[0]);
      AlwaysOneDefault(Step(db, es[0]), es[1..]);
    }
  }

  // ---- plan references ----

  predicate RefOk(plans: map<PlanId, Plan>, name: Option<string>) { name.Some? ==> NameTaken(plans, name.value, None) }

  /** Every workspace names an existing plan and every subscription points to one. */
  predicate ReferencesOk(db: Db)
  {
    && (forall t | t in db.workspaces :: RefOk(db.plans, db.workspaces[t]))
    && (forall s | s in db.subscriptions :: db.subscriptions[s] in db.plans)
  }

  /** The update changes the name of a plan that some workspace is on. */
  predicate RenamesInUse(db: Db, id: PlanId, b: Body)
  {
    id in db.plans && b.name.Some? && b.name.value != db.plans[id].name && UsedByWorkspaces(db, db.plans[id].name) != {}
  }

  lemma {:induction false} NameSurvives(plans: map<PlanId, Plan>, plans': map<PlanId, Plan>, i: PlanId,
        name: Option<string>)
    requires RefOk(plans, name)
    requires forall k | k in plans && k != i :: k in plans' && plans'[k].name == plans[k].name
    requires i in plans && name == Some(plans[i].name) ==> i in plans' && plans'[i].name == plans[i].name
    ensures RefOk(plans', name)
  {
    if name.Some? {
      var k :| k in plans && plans[k].name == name.value;
      assert k in plans' && plans'[k].name == name.value;
    }
  }

  /** An accepted update keeps the references valid exactly when it does not rename a plan in use. */
  lemma {:induction false} UpdateKeepsReferencesIff(db: Db, id: PlanId, b: Body)
    requires NamesUnique(db.plans) && ReferencesOk(db) && UpdatePlan(db, id, b).Ok?
    ensures ReferencesOk(UpdatePlan(db, id, b).value) <==> !RenamesInUse(db, id, b)
  {
    var db' := UpdatePlan(db, id, b).value;
    var name := db.plans[id].name;
    if RenamesInUse(db, id, b) {
      var t :| t in UsedByWorkspaces(db, name);
      assert !RefOk(db'.plans, db'.workspaces[t]);
    } else {
      forall t | t in db'.workspaces ensures RefOk(db'.plans, db'.workspaces[t]) {
        if db.workspaces[t] == Some(name) { assert t in UsedByWorkspaces(db, name); }
        NameSurvives(db.plans, db'.plans, id, db.workspaces[t]);
      }
    }
  }

  lemma {:induction false} OtherStepsKeepReferences(db: Db, e: Event)
    requires ReferencesOk(db) && Enabled(db, e) && !e.Update?
    ensures ReferencesOk(Step(db, e))
  {
    if Attempt(db, e).Ok? {
      var db' := Step(db, e);
      match e
      case Create(id, b) =>
        forall t | t in db'.workspaces ensures RefOk(db'.plans, db'.workspaces[t]) {
          NameSurvives(db.plans, db'.plans, id, db.workspaces[t]);
        }
      case Delete(id) =>
        forall t | t in db'.workspaces ensures RefOk(db'.plans, db'.workspaces[t]) {
          assert t !in UsedByWorkspaces(db, db.plans[id].name);
          NameSurvives(db.plans, db'.plans, id, db.workspaces[t]);
        }
      case Assign(t, name) =>
      case _ =>
    }
  }

  /** No step of the run is an accepted rename of a plan in use. */
  predicate NoRenameInUse(db: Db, es: seq<Event>)
    decreases |es|
  {
    es == [] ||
    ((es[0].Update? && UpdatePlan(db, es[0].id, es[0].body).Ok? ==> !RenamesInUse(db, es[0].id, es[0].body))
     && NoRenameInUse(Step(db, es[0]), es[1..]))
  }

  /** References are valid in every state of the run. */
  predicate AlwaysValid(db: Db, es: seq<Event>)
    decreases |es|
  {
    ReferencesOk(db) && (es == [] || AlwaysValid(Step(db, es[0]), es[1..]))
  }

  lemma {:induction false} StepKeepsReferencesIff(db: Db, e: Event)
    requires CatalogueOk(db.plans) && ReferencesOk(db) && Enabled(db, e)
    ensures ReferencesOk(Step(db, e)) <==>
            (e.Update? && UpdatePlan(db, e.id, e.body).Ok? ==> !RenamesInUse(db, e.id, e.body))
  {
    if !e.Update? { OtherStepsKeepReferences(db, e); }
    else if Attempt(db, e).Ok? { UpdateKeepsReferencesIff(db, e.id, e.body); }
  }

  /** References stay valid throughout a run exactly when it accepts no rename of a plan in use. */
  lemma {:induction false} ReferencesSurviveRunsIff(db: Db, es: seq<Event>)
    requires CatalogueOk(db.plans) && ReferencesOk(db) && Legal(db, es)
    ensures AlwaysValid(db, es) <==> NoRenameInUse(db, es)
    decreases |es|
  {
    if es != [] {
      StepKeepsCatalogue(db, es[0]);
      StepKeepsReferencesIff(db, es[0]);
      if ReferencesOk(Step(db, es[0])) { ReferencesSurviveRunsIff(Step(db, es[0]), es[1..]); }
    }
  }

  /** One accepted rename: the workspace on plan `pro` is left naming no plan. */
  lemma {:induction false} RenameLeavesDanglingName()
    ensures var db := Db(map[0 := Plan("free", true, false, None, None, map[]),
                             1 := Plan("pro", false, false, None, None, map[])],
                         map["acme" := Some("pro")], map[]);
            var b := Body(false, Some("plus"), None, None, None, None, None);
            && CatalogueOk(db.plans) && ReferencesOk(db)
            && UpdatePlan(db, 1, b).Ok? && !ReferencesOk(UpdatePlan(db, 1, b).value)
  {
    var db := Db(map[0 := Plan("free", true, false, None, None, map[]),
                     1 := Plan("pro", false, false, None, None, map[])],
                 map["acme" := Some("pro")], map[]);
    var b := Body(false, Some("plus"), None, None, None, None, None);
    assert IsTheDefault(db.plans, 0);
    assert db.plans[1].name == "pro";
    assert NameTaken(db.plans, "pro", None);
    assert "free" != "plus" by { assert "free"[0] != "plus"[0]; }
    assert !NameTaken(db.plans, "plus", Some(1));
    assert "acme" in UsedByWorkspaces(db, "pro");
    assert "pro" != "plus" by { assert |"pro"| != |"plus"|; }
    UpdateKeepsReferencesIff(db, 1, b);
  }
}
