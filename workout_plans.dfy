/** routes/workoutPlans.js: which plans a user sees, the upsert-by-name
    create, edit and delete with their permission rules, and the edits of a
    plan's exercise list. */
module WorkoutPlans {
  import opened Common
  import opened UserModel
  import ExerciseModel
  import opened WorkoutPlanModel

  const PlanNotFoundReply: string := "Workout plan not found"
  const PlanNameRequired: string := "Workout plan name is required"
  const SavePrefix: string := "Error saving workout plan: "
  const EditForbidden: string := "You do not have permission to edit this plan"
  const UpdateFailed: string := "Error updating workout plan"
  const RemovedFromView: string := "Workout plan removed from your view"
  const Deleted: string := "Workout plan deleted successfully"
  const DeleteForbidden: string := "Not authorized to delete this workout plan"
  const ExerciseIdRequired: string := "Exercise ID is required"
  const ExerciseNotFound: string := "Exercise not found"
  const AlreadyInPlan: string := "Exercise already in the workout plan"
  const NotInPlan: string := "Exercise not found in the workout plan"
  const ShareForbidden: string := "You do not have permission to share this plan"

  /** The fields of a create or update request body; an absent `isDefault`
      is false. */
  datatype PlanInput = PlanInput(
    name: Option<string>,
    exercises: Option<seq<Id>>,
    scheduledDate: Option<Time>,
    planType: Option<string>,
    isDefault: bool)

  /** The `find` filter of GET /: the caller's own plans, and default plans
      the caller has not hidden. */
  predicate Listed(p: Plan, callerId: Id, hidden: seq<Id>) {
    p.owner == Some(callerId) || (p.isDefault && p.id !in hidden)
  }

  function VisiblePlans(plans: seq<Plan>, callerId: Id, hidden: seq<Id>): (r: seq<Plan>)
    ensures |r| <= |plans|
    ensures forall p :: p in r <==> p in plans && Listed(p, callerId, hidden)
  {
    if plans == [] then []
    else
      var rest := VisiblePlans(plans[1..], callerId, hidden);
      assert forall p :: p in plans <==> p == plans[0] || p in plans[1..];
      if Listed(plans[0], callerId, hidden) then [plans[0]] + rest else rest
  }

  /** The pre-query of POST /: a plan with that name that is the caller's
      or default, first in collection order. */
  function FindSameName(plans: seq<Plan>, name: string, callerId: Id): (i: int)
    ensures -1 <= i < |plans|
    ensures i == -1 <==> forall k :: 0 <= k < |plans| ==>
      !(plans[k].name == name && (plans[k].owner == Some(callerId) || plans[k].isDefault))
    ensures 0 <= i ==> plans[i].name == name && (plans[i].owner == Some(callerId) || plans[i].isDefault)
    ensures 0 <= i ==> forall k :: 0 <= k < i ==>
      !(plans[k].name == name && (plans[k].owner == Some(callerId) || plans[k].isDefault))
  {
    FindFirst(plans, (p: Plan) => p.name == name && (p.owner == Some(callerId) || p.isDefault))
  }

  /** POST / over an existing plan: the exercise list, date, type and
      default flag are replaced; the plan keeps its id, name and owner, and
      is default only when an admin asks for it. */
  function Overwrite(p: Plan, input: PlanInput, isAdmin: bool): (r: Plan)
    ensures r.id == p.id && r.name == p.name && r.owner == p.owner && r.isShared == p.isShared
    ensures r.isDefault <==> isAdmin && input.isDefault
    ensures r.exercises == input.exercises.GetOr([])
  {
    p.(exercises := input.exercises.GetOr([]),
       scheduledDate := input.scheduledDate,
       planType := input.planType,
       isDefault := isAdmin && input.isDefault)
  }

  /** PUT /:id: exactly name, exercises, scheduledDate and type are
      replaced; an absent name or list unsets it. */
  function Replace(p: Plan, input: PlanInput): (r: Plan)
    ensures r == p.(name := r.name, exercises := r.exercises, scheduledDate := r.scheduledDate, planType := r.planType)
    ensures r.name == Trim(input.name.GetOr(""))
  {
    p.(name := Trim(input.name.GetOr("")),
       exercises := input.exercises.GetOr([]),
       scheduledDate := input.scheduledDate,
       planType := input.planType)
  }

  /** The `_id` string form of a populated exercise is its `util.inspect`
      rendering, an object literal. Only its leading brace matters here. */
  function InspectString(e: ExerciseModel.Exercise): string {
    "{ _id: " + e.id + ", name: '" + e.name + "' }"
  }

  /** A 24-digit hexadecimal ObjectId string. */
  predicate IsObjectIdString(s: string) {
    |s| == 24 && forall k :: 0 <= k < |s| ==> s[k] in "0123456789abcdef"
  }

  /** The plan's exercise list as the `findOne` hook populates it: the
      catalog document of each listed id that resolves, in list order. */
  function Populate(catalog: seq<ExerciseModel.Exercise>, ids: seq<Id>): (r: seq<ExerciseModel.Exercise>)
    ensures |r| <= |ids|
    ensures forall e :: e in r ==> e in catalog && e.id in ids
  {
    if ids == [] then []
    else
      var k := ExerciseModel.FindExercise(catalog, ids[0]);
      (if k >= 0 then [catalog[k]] else []) + Populate(catalog, ids[1..])
  }

  /** The duplicate test of POST /:id/exercises as written: the plan's list
      has been populated by the `findOne` hook, so each entry is compared
      by its document string. */
  predicate AlreadyInPlanAsWritten(populated: seq<ExerciseModel.Exercise>, exerciseId: Id) {
    exists k :: 0 <= k < |populated| && InspectString(populated[k]) == exerciseId
  }

  /** The list after POST /:id/exercises as written. */
  function AppendExerciseAsWritten(populated: seq<ExerciseModel.Exercise>, ids: seq<Id>, exerciseId: Id): Result<seq<Id>, Reply> {
    if AlreadyInPlanAsWritten(populated, exerciseId) then Err(Reply(400, AlreadyInPlan))
    else Ok(ids + [exerciseId])
  }

  /** No ObjectId string equals a document string, so the test as written
      never fires and every ObjectId is appended. */
  lemma AsWrittenAlwaysAppends(populated: seq<ExerciseModel.Exercise>, ids: seq<Id>, exerciseId: Id)
    requires IsObjectIdString(exerciseId)
    ensures AppendExerciseAsWritten(populated, ids, exerciseId) == Ok(ids + [exerciseId])
  {
    forall k | 0 <= k < |populated| ensures InspectString(populated[k]) != exerciseId {
      assert InspectString(populated[k])[0] == '{';
      assert '{' !in "0123456789abcdef";
    }
  }

  /** In particular an exercise already in the plan is appended a second
      time. */
  lemma DuplicateCheckNeverFires(populated: seq<ExerciseModel.Exercise>, ids: seq<Id>, exerciseId: Id)
    requires IsObjectIdString(exerciseId) && exerciseId in ids
    ensures AppendExerciseAsWritten(populated, ids, exerciseId) == Ok(ids + [exerciseId])
    ensures multiset(ids + [exerciseId])[exerciseId] >= 2
  {
    AsWrittenAlwaysAppends(populated, ids, exerciseId);
  }

  /** POST /:id/exercises with the duplicate test comparing ids: a 400 when
      the id is already listed, else it is appended. */
  function AppendExercise(ids: seq<Id>, exerciseId: Id): (r: Result<seq<Id>, Reply>)
    ensures r.Err? <==> exerciseId in ids
    ensures r.Err? ==> r.error == Reply(400, AlreadyInPlan)
    ensures r.Ok? ==> |r.value| == |ids| + 1 && r.value[..|ids|] == ids && r.value[|ids|] == exerciseId
  {
    if exerciseId in ids then Err(Reply(400, AlreadyInPlan)) else Ok(ids + [exerciseId])
  }

  /** Appending keeps a plan's list free of duplicates; the new id occurs
      exactly once. */
  lemma AppendExerciseKeepsDistinct(ids: seq<Id>, exerciseId: Id)
    requires NoDuplicates(ids)
    ensures AppendExercise(ids, exerciseId).Ok? ==>
      && NoDuplicates(AppendExercise(ids, exerciseId).value)
      && multiset(AppendExercise(ids, exerciseId).value)[exerciseId] == 1
  {
    if exerciseId !in ids {
      assert multiset(ids + [exerciseId]) == multiset(ids) + multiset{exerciseId};
    }
  }

  /** The ids the populated list holds: the listed ids whose exercise still
      exists, in list order. */
  function PopulatedIds(catalog: seq<ExerciseModel.Exercise>, ids: seq<Id>): (r: seq<Id>)
    ensures |r| == |Populate(catalog, ids)|
    ensures forall k :: 0 <= k < |r| ==> r[k] == Populate(catalog, ids)[k].id
    ensures forall x :: x in r <==> x in ids && ExerciseModel.FindExercise(catalog, x) >= 0
  {
    if ids == [] then []
    else
      var k := ExerciseModel.FindExercise(catalog, ids[0]);
      var rest := PopulatedIds(catalog, ids[1..]);
      assert forall x :: x in ids <==> x == ids[0] || x in ids[1..];
      assert Populate(catalog, ids) == (if k >= 0 then [catalog[k]] else []) + Populate(catalog, ids[1..]);
      (if k >= 0 then [ids[0]] else []) + rest
  }

  /** DELETE /:planId/exercises/:exerciseId as written: the search and the
      splice run on the populated list, and saving it writes back the ids it
      holds. An id whose exercise is gone is not found, and a removal drops
      every such id from the plan. */
  function RemoveAsWritten(catalog: seq<ExerciseModel.Exercise>, ids: seq<Id>, exerciseId: Id): (r: Result<seq<Id>, Reply>)
    ensures r.Err? <==> exerciseId !in ids || ExerciseModel.FindExercise(catalog, exerciseId) == -1
    ensures r.Err? ==> r.error == Reply(404, NotInPlan)
    ensures r.Ok? ==>
      var resolved := PopulatedIds(catalog, ids);
      && r.value == Splice(resolved, IndexOf(resolved, exerciseId))
      && multiset(r.value) == multiset(resolved) - multiset{exerciseId}
    ensures r.Ok? ==> forall x :: x in r.value ==> ExerciseModel.FindExercise(catalog, x) >= 0
  {
    var resolved := PopulatedIds(catalog, ids);
    var r := RemoveFirst(resolved, exerciseId);
    assert r.Ok? ==> forall x :: x in r.value ==> x in resolved by {
      if r.Ok? {
        forall x | x in r.value ensures x in resolved {
          assert multiset(r.value)[x] > 0;
        }
      }
    }
    r
  }

  /** When every listed exercise still exists, the removal as written is the
      plain removal of the first listed occurrence. */
  lemma RemoveWithoutDanglingIds(catalog: seq<ExerciseModel.Exercise>, ids: seq<Id>, exerciseId: Id)
    requires forall x :: x in ids ==> ExerciseModel.FindExercise(catalog, x) >= 0
    ensures RemoveAsWritten(catalog, ids, exerciseId) == RemoveFirst(ids, exerciseId)
  {
    AllResolved(catalog, ids);
  }

  /** With no dangling id, populating keeps the list as it is. */
  lemma {:induction false} AllResolved(catalog: seq<ExerciseModel.Exercise>, ids: seq<Id>)
    requires forall x :: x in ids ==> ExerciseModel.FindExercise(catalog, x) >= 0
    ensures PopulatedIds(catalog, ids) == ids
  {
    if ids != [] {
      assert ids[0] in ids;
      AllResolved(catalog, ids[1..]);
    }
  }

  /** An id listed in the plan whose exercise was deleted cannot be removed:
      the route answers 404 and the plan keeps it. */
  lemma DanglingIdIsNotFound(catalog: seq<ExerciseModel.Exercise>, ids: seq<Id>, exerciseId: Id)
    requires exerciseId in ids && ExerciseModel.FindExercise(catalog, exerciseId) == -1
    ensures RemoveAsWritten(catalog, ids, exerciseId) == Err(Reply(404, NotInPlan))
    ensures RemoveFirst(ids, exerciseId).Ok?
  {
  }

  /** DELETE /:planId/exercises/:exerciseId: the first matching entry is
      cut out, the others keep their order; a 404 when none matches. */
  function RemoveFirst(ids: seq<Id>, exerciseId: Id): (r: Result<seq<Id>, Reply>)
    ensures r.Err? <==> exerciseId !in ids
    ensures r.Err? ==> r.error == Reply(404, NotInPlan)
    ensures r.Ok? ==> r.value == Splice(ids, IndexOf(ids, exerciseId))
    ensures r.Ok? ==> multiset(r.value) == multiset(ids) - multiset{exerciseId}
  {
    var k := IndexOf(ids, exerciseId);
    if k == -1 then Err(Reply(404, NotInPlan))
    else
      assert ids == ids[..k] + [ids[k]] + ids[k + 1..];
      Ok(Splice(ids, k))
  }

  /** The permission test of POST /:id/share: a default plan can be shared
      by an admin only. */
  function SharePermission(caller: Principal, p: Plan): (r: Option<Reply>)
    ensures r.Some? <==> p.isDefault && !caller.isAdmin
    ensures r.Some? ==> r.value == Reply(403, ShareForbidden)
  {
    if p.isDefault && !caller.isAdmin then Some(Reply(403, ShareForbidden)) else None
  }

  /** The plans collection, with the users and exercises collections the
      routes consult. */
  class PlanRoutes {
    const store: PlanCollection
    var users: seq<User>
    var catalog: seq<ExerciseModel.Exercise>

    ghost predicate Valid()
      reads this, store
    {
      store.Valid() && DistinctIds(users)
    }

    constructor (store: PlanCollection, users: seq<User>, catalog: seq<ExerciseModel.Exercise>)
      requires store.Valid() && DistinctIds(users)
      ensures Valid()
      ensures this.store == store && this.users == users && this.catalog == catalog
    {
      this.store := store;
      this.users := users;
      this.catalog := catalog;
    }

    /** The caller's hidden default plans, empty for an unknown caller. */
    function HiddenPlans(callerId: Id): (r: seq<Id>)
      reads this, users
      ensures FindById(users, callerId) >= 0 ==> r == users[FindById(users, callerId)].deletedWorkoutPlans
      ensures FindById(users, callerId) == -1 ==> r == []
    {
      var i := FindById(users, callerId);
      if i >= 0 then users[i].deletedWorkoutPlans else []
    }

    /** GET /. */
    function ListPlans(caller: Principal): (r: seq<Plan>)
      reads this, store, users
      ensures forall p :: p in r <==> p in store.plans && Listed(p, caller.id, HiddenPlans(caller.id))
    {
      VisiblePlans(store.plans, caller.id, HiddenPlans(caller.id))
    }

    /** GET /:id: only a plan the caller owns is returned, else 404. */
    function GetPlan(caller: Principal, planId: Id): (r: Result<Plan, Reply>)
      reads this, store
      ensures r.Ok? <==> exists k :: 0 <= k < |store.plans| && store.plans[k].id == planId && store.plans[k].owner == Some(caller.id)
      ensures r.Ok? ==> r.value in store.plans && r.value.id == planId && r.value.owner == Some(caller.id)
      ensures r.Err? ==> r.error == Reply(404, PlanNotFoundReply)
    {
      var k := FindFirst(store.plans, (p: Plan) => p.id == planId && p.owner == Some(caller.id));
      if k == -1 then Err(Reply(404, PlanNotFoundReply)) else Ok(store.plans[k])
    }

    /** POST /. A plan of the caller's or a default plan with the same
        (trimmed) name is overwritten (200) instead of duplicated; otherwise
        a new plan owned by the caller is created (201). A save error is a
        400. */
    method CreatePlan(caller: Principal, input: PlanInput, newId: Id) returns (reply: Reply)
      requires Valid() && FindPlan(store.plans, newId) == -1
      modifies store
      ensures Valid()
      ensures !Truthy(input.name) ==> reply == Reply(400, PlanNameRequired) && store.plans == old(store.plans)
      ensures Truthy(input.name) && FindSameName(old(store.plans), Trim(input.name.value), caller.id) >= 0 ==>
        var j := FindSameName(old(store.plans), Trim(input.name.value), caller.id);
        var d := Overwrite(old(store.plans)[j], input, caller.isAdmin);
        && (PlanConforms(d) ==> reply.status == 200 && store.plans == old(store.plans)[j := d])
        && (!PlanConforms(d) ==> reply == Reply(400, SavePrefix + ValidationFailed) && store.plans == old(store.plans))
      ensures Truthy(input.name) && FindSameName(old(store.plans), Trim(input.name.value), caller.id) == -1 ==>
        var d := NewPlan(newId, input.name.value, Some(caller.id), caller.isAdmin && input.isDefault,
                         input.exercises.GetOr([]), input.scheduledDate, input.planType);
        && (PlanConforms(d) ==> reply.status == 201 && store.plans == old(store.plans) + [d])
        && (!PlanConforms(d) ==> reply == Reply(400, SavePrefix + ValidationFailed) && store.plans == old(store.plans))
    {
      if !Truthy(input.name) {
        return Reply(400, PlanNameRequired);
      }
      var name := Trim(input.name.value);
      var j := FindSameName(store.plans, name, caller.id);
      if j >= 0 {
        reply := OverwritePlan(j, Overwrite(store.plans[j], input, caller.isAdmin));
      } else {
        var d := NewPlan(newId, input.name.value, Some(caller.id), caller.isAdmin && input.isDefault,
                         input.exercises.GetOr([]), input.scheduledDate, input.planType);
        reply := InsertPlan(d);
      }
    }

    /** Saves plan `j` under its own name: only the validators can refuse it. */
    method OverwritePlan(j: nat, d: Plan) returns (reply: Reply)
      requires Valid() && j < |store.plans|
      requires d.id == store.plans[j].id && d.name == store.plans[j].name
      modifies store
      ensures Valid()
      ensures PlanConforms(d) ==> reply == Reply(200, "") && store.plans == old(store.plans)[j := d]
      ensures !PlanConforms(d) ==> reply == Reply(400, SavePrefix + ValidationFailed) && store.plans == old(store.plans)
    {
      FindPlanOfStored(store.plans, j);
      var error := store.Save(d, false);
      reply := if error.None? then Reply(200, "") else Reply(400, SavePrefix + error.value);
    }

    /** Saves a new plan whose name the uniqueness query cannot match. */
    method InsertPlan(d: Plan) returns (reply: Reply)
      requires Valid() && FindPlan(store.plans, d.id) == -1 && !NameTaken(store.plans, d, true)
      modifies store
      ensures Valid()
      ensures PlanConforms(d) ==> reply == Reply(201, "") && store.plans == old(store.plans) + [d]
      ensures !PlanConforms(d) ==> reply == Reply(400, SavePrefix + ValidationFailed) && store.plans == old(store.plans)
    {
      var error := store.Save(d, true);
      reply := if error.None? then Reply(201, "") else Reply(400, SavePrefix + error.value);
    }

    /** PUT /:id: 404 for an unknown plan; 403 for a default plan unless the
        caller is an admin, and for a plan of someone else even when the
        caller is an admin; otherwise the four fields are replaced, a save
        error being a 400. */
    method UpdatePlan(caller: Principal, planId: Id, input: PlanInput) returns (reply: Reply)
      requires Valid()
      modifies store
      ensures Valid()
      ensures FindPlan(old(store.plans), planId) == -1 ==>
        reply == Reply(404, PlanNotFoundReply) && store.plans == old(store.plans)
      ensures var j := FindPlan(old(store.plans), planId);
        j >= 0 && ((old(store.plans)[j].isDefault && !caller.isAdmin) ||
                   (!old(store.plans)[j].isDefault && old(store.plans)[j].owner != Some(caller.id))) ==>
          reply == Reply(403, EditForbidden) && store.plans == old(store.plans)
      ensures var j := FindPlan(old(store.plans), planId);
        j >= 0 && (if old(store.plans)[j].isDefault then caller.isAdmin else old(store.plans)[j].owner == Some(caller.id)) ==>
          var d := Replace(old(store.plans)[j], input);
          && (SaveError(old(store.plans), d, false).None? ==> reply.status == 200 && store.plans == old(store.plans)[j := d])
          && (SaveError(old(store.plans), d, false).Some? ==> reply == Reply(400, UpdateFailed) && store.plans == old(store.plans))
    {
      var j := FindPlan(store.plans, planId);
      if j == -1 {
        return Reply(404, PlanNotFoundReply);
      }
      var p := store.plans[j];
      if (p.isDefault && !caller.isAdmin) || (!p.isDefault && p.owner != Some(caller.id)) {
        return Reply(403, EditForbidden);
      }
      var d := Replace(p, input);
      var error := store.Save(d, false);
      reply := if error.None? then Reply(200, "") else Reply(400, UpdateFailed);
    }

    /** DELETE /:id: a non-admin deleting a default plan only hides it (the
        id joins the caller's hidden set once); an admin, or the owner of a
        non-default plan, deletes it; anyone else gets a 403. */
    method DeletePlan(caller: Principal, planId: Id) returns (reply: Reply)
      requires Valid()
      modifies store, users
      ensures Valid() && users == old(users)
      ensures FindPlan(old(store.plans), planId) == -1 ==>
        reply == Reply(404, PlanNotFoundReply) && store.plans == old(store.plans)
      ensures var j := FindPlan(old(store.plans), planId);
        j >= 0 && old(store.plans)[j].isDefault && !caller.isAdmin ==>
          && reply == Reply(200, RemovedFromView) && store.plans == old(store.plans)
          && (FindById(users, caller.id) >= 0 ==>
                var i := FindById(users, caller.id);
                && users[i].deletedWorkoutPlans == AddToSet(old(users[i].deletedWorkoutPlans), planId)
                && users[i].userExercises == old(users[i].userExercises)
                && users[i].deletedExercises == old(users[i].deletedExercises)
                && users[i].deletedExercisesDetails == old(users[i].deletedExercisesDetails)
                && users[i].Account() == old(users[i].Account()) && users[i].Ledger() == old(users[i].Ledger()) && users[i].Verification() == old(users[i].Verification()))
      ensures var j := FindPlan(old(store.plans), planId);
        j >= 0 && (caller.isAdmin || (!old(store.plans)[j].isDefault && old(store.plans)[j].owner == Some(caller.id))) ==>
          && reply == Reply(200, Deleted)
          && store.plans == Splice(old(store.plans), j)
          && forall k :: 0 <= k < |store.plans| ==> store.plans[k].id != planId
      ensures var j := FindPlan(old(store.plans), planId);
        j >= 0 && !caller.isAdmin && !old(store.plans)[j].isDefault && old(store.plans)[j].owner != Some(caller.id) ==>
          reply == Reply(403, DeleteForbidden) && store.plans == old(store.plans)
      ensures forall k :: 0 <= k < |users| && (reply != Reply(200, RemovedFromView) || k != FindById(users, caller.id)) ==>
        unchanged(users[k])
    {
      var j := FindPlan(store.plans, planId);
      if j == -1 {
        return Reply(404, PlanNotFoundReply);
      }
      var p := store.plans[j];
      if p.isDefault && !caller.isAdmin {
        var i := FindById(users, caller.id);
        if i >= 0 {
          var user := users[i];
          user.deletedWorkoutPlans := AddToSet(user.deletedWorkoutPlans, planId);
        }
        return Reply(200, RemovedFromView);
      }
      if caller.isAdmin || p.owner == Some(caller.id) {
        var error := store.HandlePlanDeletion(planId);
        return Reply(200, Deleted);
      }
      reply := Reply(403, DeleteForbidden);
    }

    /** POST /:id/exercises, the first handler registered for the path (the
        second, which checks permissions, is never reached): 400 without an
        id, 404 for an unknown exercise or plan; then the duplicate test as
        written, over the populated list, which never refuses an ObjectId, so
        the id is appended even when it is already listed. */
    method AddExercise(planId: Id, exerciseId: Option<Id>) returns (reply: Reply)
      requires Valid()
      modifies store
      ensures Valid()
      ensures !Truthy(exerciseId) ==> reply == Reply(400, ExerciseIdRequired) && store.plans == old(store.plans)
      ensures Truthy(exerciseId) && ExerciseModel.FindExercise(catalog, exerciseId.value) == -1 ==>
        reply == Reply(404, ExerciseNotFound) && store.plans == old(store.plans)
      ensures Truthy(exerciseId) && ExerciseModel.FindExercise(catalog, exerciseId.value) >= 0 && FindPlan(old(store.plans), planId) == -1 ==>
        reply == Reply(404, PlanNotFoundReply) && store.plans == old(store.plans)
      ensures var j := FindPlan(old(store.plans), planId);
        Truthy(exerciseId) && ExerciseModel.FindExercise(catalog, exerciseId.value) >= 0 && j >= 0 ==>
          var ids := old(store.plans)[j].exercises;
          var added := AppendExerciseAsWritten(Populate(catalog, ids), ids, exerciseId.value);
          && (added.Err? ==> reply == added.error && store.plans == old(store.plans))
          && (added.Ok? ==> reply.status == 200 && store.plans == old(store.plans)[j := old(store.plans)[j].(exercises := added.value)])
      ensures var j := FindPlan(old(store.plans), planId);
        Truthy(exerciseId) && IsObjectIdString(exerciseId.value)
        && ExerciseModel.FindExercise(catalog, exerciseId.value) >= 0 && j >= 0 ==>
          && reply.status == 200
          && store.plans == old(store.plans)[j := old(store.plans)[j].(exercises := old(store.plans)[j].exercises + [exerciseId.value])]
    {
      if !Truthy(exerciseId) {
        return Reply(400, ExerciseIdRequired);
      }
      if ExerciseModel.FindExercise(catalog, exerciseId.value) == -1 {
        return Reply(404, ExerciseNotFound);
      }
      var j := FindPlan(store.plans, planId);
      if j == -1 {
        return Reply(404, PlanNotFoundReply);
      }
      var p := store.plans[j];
      var added := AppendExerciseAsWritten(Populate(catalog, p.exercises), p.exercises, exerciseId.value);
      if IsObjectIdString(exerciseId.value) {
        AsWrittenAlwaysAppends(Populate(catalog, p.exercises), p.exercises, exerciseId.value);
      }
      if added.Err? {
        return added.error;
      }
      reply := SaveExercises(j, added.value);
    }

    /** DELETE /:planId/exercises/:exerciseId: 404 for an unknown plan, or for
        an exercise not in its populated list; else the first matching entry
        goes, and the plan keeps only ids whose exercise exists. */
    method RemoveExercise(planId: Id, exerciseId: Id) returns (reply: Reply)
      requires Valid()
      modifies store
      ensures Valid()
      ensures FindPlan(old(store.plans), planId) == -1 ==>
        reply == Reply(404, PlanNotFoundReply) && store.plans == old(store.plans)
      ensures var j := FindPlan(old(store.plans), planId);
        j >= 0 ==>
          var removed := RemoveAsWritten(catalog, old(store.plans)[j].exercises, exerciseId);
          && (removed.Err? ==> reply == removed.error && store.plans == old(store.plans))
          && (removed.Ok? ==> reply.status == 200 && store.plans == old(store.plans)[j := old(store.plans)[j].(exercises := removed.value)])
    {
      var j := FindPlan(store.plans, planId);
      if j == -1 {
        return Reply(404, PlanNotFoundReply);
      }
      var removed := RemoveAsWritten(catalog, store.plans[j].exercises, exerciseId);
      if removed.Err? {
        return removed.error;
      }
      reply := SaveExercises(j, removed.value);
    }

    /** Saves plan `j` with a new exercise list. A stored plan keeps passing
        the validators and its name is unchanged, so the save succeeds. */
    method SaveExercises(j: nat, exercises: seq<Id>) returns (reply: Reply)
      requires Valid() && j < |store.plans|
      modifies store
      ensures Valid()
      ensures reply == Reply(200, "")
      ensures store.plans == old(store.plans)[j := old(store.plans)[j].(exercises := exercises)]
    {
      var d := store.plans[j].(exercises := exercises);
      FindPlanOfStored(store.plans, j);
      assert store.plans[j] in store.plans;
      var error := store.Save(d, false);
      reply := Reply(200, "");
    }
  }
}
