/** models/WorkoutPlan.js: a workout plan, its validators and defaults, the
    pre-save rule that keeps plan names unique per user and against default
    plans, and the `handlePlanDeletion` static. */
module WorkoutPlanModel {
  import opened Common

  const PlanTypes: set<string> := {"strength", "cardio", "flexibility", "other"}
  const DefaultPlanType: string := "other"

  // Errors a save or a deletion can end with.
  const ValidationFailed: string := "WorkoutPlan validation failed"
  const DuplicateName: string := "A plan with this name already exists for this user or as a default plan"
  const PlanNotFound: string := "Plan not found"

  /** A stored plan. `exercises` holds exercise ids; `planType` is the
      `type` path, unset when `None`. */
  datatype Plan = Plan(
    id: Id,
    name: string,
    owner: Option<Id>,
    isDefault: bool,
    exercises: seq<Id>,
    scheduledDate: Option<Time>,
    planType: Option<string>,
    isShared: bool)

  /** The schema's validators: a name (already trimmed) that is not empty,
      an owner unless the plan is default, and a type from the enum when
      one is set. */
  predicate PlanConforms(p: Plan) {
    && p.name != ""
    && (!p.isDefault ==> p.owner.Some?)
    && (p.planType.Some? ==> p.planType.value in PlanTypes)
  }

  /** A new document: the name trimmed, the type defaulting to "other",
      never shared. */
  function NewPlan(id: Id, name: string, owner: Option<Id>, isDefault: bool, exercises: seq<Id>,
                   scheduledDate: Option<Time>, planType: Option<string>): (p: Plan)
    ensures p.id == id && p.owner == owner && p.isDefault == isDefault && p.exercises == exercises
    ensures p.name == Trim(name) && p.planType.Some? && !p.isShared
    ensures planType.None? ==> p.planType == Some(DefaultPlanType)
    ensures PlanConforms(p) <==>
      && Trim(name) != ""
      && (!isDefault ==> owner.Some?)
      && (planType.None? || planType.value in PlanTypes)
  {
    Plan(id, Trim(name), owner, isDefault, exercises, scheduledDate, Some(planType.GetOr(DefaultPlanType)), false)
  }

  /** Index of the plan with id `id` (`findById`), or -1. */
  function FindPlan(plans: seq<Plan>, id: Id): (i: int)
    ensures -1 <= i < |plans|
    ensures i == -1 <==> forall k :: 0 <= k < |plans| ==> plans[k].id != id
    ensures 0 <= i ==> plans[i].id == id
  {
    FindFirst(plans, (p: Plan) => p.id == id)
  }

  /** The pre-save query matches `p` for the document `d`: same name, and
      the same user or a default plan; an update excludes `d` itself. */
  predicate Clashes(p: Plan, d: Plan, isNew: bool) {
    p.name == d.name && (p.owner == d.owner || p.isDefault) && (isNew || p.id != d.id)
  }

  predicate NameTaken(plans: seq<Plan>, d: Plan, isNew: bool) {
    exists k :: 0 <= k < |plans| && Clashes(plans[k], d, isNew)
  }

  /** The uniqueness query runs for a new document or a changed name. */
  predicate NameCheckRuns(plans: seq<Plan>, d: Plan, isNew: bool)
    requires isNew || FindPlan(plans, d.id) >= 0
  {
    isNew || d.name != plans[FindPlan(plans, d.id)].name
  }

  /** Why saving `d` fails, if it does: validation runs first, then the
      pre-save uniqueness query. */
  function SaveError(plans: seq<Plan>, d: Plan, isNew: bool): (r: Option<string>)
    requires isNew || FindPlan(plans, d.id) >= 0
    ensures r.None? <==> PlanConforms(d) && !(NameCheckRuns(plans, d, isNew) && NameTaken(plans, d, isNew))
    ensures !PlanConforms(d) ==> r == Some(ValidationFailed)
    ensures r == Some(DuplicateName) <==>
      PlanConforms(d) && NameCheckRuns(plans, d, isNew) && NameTaken(plans, d, isNew)
  {
    if !PlanConforms(d) then Some(ValidationFailed)
    else if NameCheckRuns(plans, d, isNew) && NameTaken(plans, d, isNew) then Some(DuplicateName)
    else None
  }

  /** The collection after a successful save: appended when new, replaced
      in place otherwise. */
  function Saved(plans: seq<Plan>, d: Plan, isNew: bool): (r: seq<Plan>)
    requires isNew || FindPlan(plans, d.id) >= 0
    ensures isNew ==> |r| == |plans| + 1 && r[..|plans|] == plans && r[|plans|] == d
    ensures !isNew ==> |r| == |plans| && r[FindPlan(plans, d.id)] == d
    ensures !isNew ==> forall k :: 0 <= k < |plans| && k != FindPlan(plans, d.id) ==> r[k] == plans[k]
  {
    if isNew then plans + [d] else plans[FindPlan(plans, d.id) := d]
  }

  /** Re-saving a stored plan under its own name skips the uniqueness query:
      only the validators can refuse it. */
  lemma UnchangedNameSkipsUniqueness(plans: seq<Plan>, d: Plan)
    requires FindPlan(plans, d.id) >= 0 && plans[FindPlan(plans, d.id)].name == d.name
    ensures SaveError(plans, d, false).None? <==> PlanConforms(d)
  {
  }

  ghost predicate PlanIdsDistinct(plans: seq<Plan>) {
    forall i, j :: 0 <= i < j < |plans| ==> plans[i].id != plans[j].id
  }

  /** No user holds two plans with the same name: the unique index on
      `{name, user}`. */
  ghost predicate NamesUniquePerOwner(plans: seq<Plan>) {
    forall i, j :: 0 <= i < |plans| && 0 <= j < |plans| && i != j && plans[i].name == plans[j].name ==>
      plans[i].owner != plans[j].owner
  }

  /** Every save that passes the pre-save rule keeps names unique per
      user, as long as the owner of a stored plan does not change. */
  lemma {:induction false} SaveKeepsNamesUniquePerOwner(plans: seq<Plan>, d: Plan, isNew: bool)
    requires PlanIdsDistinct(plans) && NamesUniquePerOwner(plans)
    requires isNew ==> FindPlan(plans, d.id) == -1
    requires !isNew ==> FindPlan(plans, d.id) >= 0 && plans[FindPlan(plans, d.id)].owner == d.owner
    requires SaveError(plans, d, isNew).None?
    ensures NamesUniquePerOwner(Saved(plans, d, isNew))
  {
    var r := Saved(plans, d, isNew);
    if isNew {
      forall i | 0 <= i < |plans| && plans[i].name == d.name ensures plans[i].owner != d.owner {
        if plans[i].owner == d.owner {
          assert Clashes(plans[i], d, true);
        }
      }
    } else {
      var j := FindPlan(plans, d.id);
      forall i | 0 <= i < |plans| && i != j && plans[i].name == d.name ensures plans[i].owner != d.owner {
        if plans[i].owner == d.owner {
          // plans[i] would clash with d, or already share name and owner with plans[j]
          assert false;
        }
      }
    }
  }

  /** What every stored plan satisfies: distinct ids, and each passed the
      validators when it was saved. */
  ghost predicate StoreOk(plans: seq<Plan>) {
    PlanIdsDistinct(plans) && forall p :: p in plans ==> PlanConforms(p)
  }

  lemma SaveKeepsStoreOk(plans: seq<Plan>, d: Plan, isNew: bool)
    requires StoreOk(plans)
    requires isNew ==> FindPlan(plans, d.id) == -1
    requires !isNew ==> FindPlan(plans, d.id) >= 0
    requires SaveError(plans, d, isNew).None?
    ensures StoreOk(Saved(plans, d, isNew))
  {
    var r := Saved(plans, d, isNew);
    forall p | p in r ensures PlanConforms(p) {
      var k :| 0 <= k < |r| && r[k] == p;
      if !isNew && k != FindPlan(plans, d.id) { assert plans[k] in plans; }
      if isNew && k < |plans| { assert plans[k] in plans; }
    }
  }

  /** With distinct ids, looking a stored plan up by its id finds it. */
  lemma FindPlanOfStored(plans: seq<Plan>, j: nat)
    requires PlanIdsDistinct(plans) && j < |plans|
    ensures FindPlan(plans, plans[j].id) == j
  {
  }

  lemma SpliceKeepsStoreOk(plans: seq<Plan>, i: nat)
    requires StoreOk(plans) && i < |plans|
    ensures StoreOk(Splice(plans, i))
    ensures forall p :: p in Splice(plans, i) ==> p in plans
  {
    var r := Splice(plans, i);
    forall a, b | 0 <= a < b < |r| ensures r[a].id != r[b].id {
      var a' := if a < i then a else a + 1;
      var b' := if b < i then b else b + 1;
      assert r[a] == plans[a'] && r[b] == plans[b'];
    }
    forall p | p in r ensures p in plans {
      var k :| 0 <= k < |r| && r[k] == p;
      assert r[k] == plans[if k < i then k else k + 1];
    }
  }

  /** The WorkoutPlan collection. */
  class PlanCollection {
    var plans: seq<Plan>

    ghost predicate Valid()
      reads this
    {
      StoreOk(plans)
    }

    constructor (plans: seq<Plan>)
      requires StoreOk(plans)
      ensures Valid() && this.plans == plans
    {
      this.plans := plans;
    }

    /** `save()`: fails with the validators' or the uniqueness rule's error
        and changes nothing, or stores the document. */
    method Save(d: Plan, isNew: bool) returns (error: Option<string>)
      requires Valid()
      requires isNew ==> FindPlan(plans, d.id) == -1
      requires !isNew ==> FindPlan(plans, d.id) >= 0
      modifies this
      ensures Valid()
      ensures error == SaveError(old(plans), d, isNew)
      ensures error.Some? ==> plans == old(plans)
      ensures error.None? ==> plans == Saved(old(plans), d, isNew)
    {
      error := SaveError(plans, d, isNew);
      if error.None? {
        SaveKeepsStoreOk(plans, d, isNew);
        plans := Saved(plans, d, isNew);
      }
    }

    /** `handlePlanDeletion`: "Plan not found" for an unknown id; otherwise
        the plan goes, default or not, and every other plan stays in order. */
    method HandlePlanDeletion(planId: Id) returns (error: Option<string>)
      requires Valid()
      modifies this
      ensures Valid()
      ensures error.Some? <==> FindPlan(old(plans), planId) == -1
      ensures error.Some? ==> error.value == PlanNotFound && plans == old(plans)
      ensures error.None? ==> plans == Splice(old(plans), FindPlan(old(plans), planId))
      ensures forall k :: 0 <= k < |plans| ==> plans[k].id != planId
    {
      var j := FindPlan(plans, planId);
      if j == -1 {
        return Some(PlanNotFound);
      }
      SpliceKeepsStoreOk(plans, j);
      var before := plans;
      plans := Splice(plans, j);
      forall k | 0 <= k < |plans| ensures plans[k].id != planId {
        if k < j {
          assert plans[k] == before[k];
        } else {
          assert plans[k] == before[k + 1];
        }
      }
      error := None;
    }
  }
}
