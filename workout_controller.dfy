/** controllers/workoutController.js: the controller variant of creating,
    listing, reading, updating and deleting workouts. It checks no ownership:
    any authenticated caller reaches any workout by id. */
module WorkoutController {
  import opened Common
  import opened WorkoutModel
  import Workouts

  /** `createWorkout`: the route's guards and validation, but neither the
      notes nor the three counters are copied. */
  function CreateWorkout(caller: Principal, input: Workouts.WorkoutInput, newId: Id): (r: Result<Workout, Workouts.Rejection>)
    ensures r.Ok? ==> r.value.user == Some(caller.id) && WorkoutConforms(r.value)
    ensures r.Ok? ==> r.value.totalPauseTime == 0 && r.value.skippedPauses == 0 && r.value.progression == 0
    ensures r.Ok? ==> forall k :: 0 <= k < |r.value.exercises| ==> r.value.exercises[k].notes == ""
    ensures Workouts.RequestError(input).Some? ==> r == Err(Workouts.Rejection(Workouts.RequestError(input).value, []))
  {
    Workouts.CreateOutcome(caller.id, input, newId, false)
  }

  /** The controller accepts exactly the requests the route accepts, and
      builds the same workout up to the notes and counters. */
  lemma {:induction false} CreateAgreesWithRoute(caller: Principal, input: Workouts.WorkoutInput, newId: Id)
    ensures CreateWorkout(caller, input, newId).Ok? <==> Workouts.CreateOutcome(caller.id, input, newId, true).Ok?
    ensures CreateWorkout(caller, input, newId).Ok? ==>
      var c := CreateWorkout(caller, input, newId).value;
      var w := Workouts.CreateOutcome(caller.id, input, newId, true).value;
      && c.user == w.user && c.plan == w.plan && c.planName == w.planName
      && c.startTime == w.startTime && c.endTime == w.endTime
      && |c.exercises| == |w.exercises|
      && forall k :: 0 <= k < |c.exercises| ==> c.exercises[k].sets == w.exercises[k].sets
  {
    if Workouts.RequestError(input).None? && Workouts.SetsPresent(input.exercises.entries) {
      var c := Workouts.BuildWorkout(newId, caller.id, input, false);
      var w := Workouts.BuildWorkout(newId, caller.id, input, true);
      forall k | 0 <= k < |c.exercises|
        ensures c.exercises[k].sets == w.exercises[k].sets
        ensures EntryConforms(c.exercises[k]) <==> EntryConforms(w.exercises[k])
      {
        assert c.exercises[k] == Workouts.BuildEntry(input.exercises.entries[k], false);
        assert w.exercises[k] == Workouts.BuildEntry(input.exercises.entries[k], true);
      }
      assert WorkoutConforms(c) <==> WorkoutConforms(w) by {
        assert (forall e :: e in c.exercises ==> EntryConforms(e)) <==> (forall e :: e in w.exercises ==> EntryConforms(e)) by {
          if forall e :: e in c.exercises ==> EntryConforms(e) {
            forall e | e in w.exercises ensures EntryConforms(e) {
              var k :| 0 <= k < |w.exercises| && w.exercises[k] == e;
              assert c.exercises[k] in c.exercises;
            }
          }
          if forall e :: e in w.exercises ==> EntryConforms(e) {
            forall e | e in c.exercises ensures EntryConforms(e) {
              var k :| 0 <= k < |c.exercises| && c.exercises[k] == e;
              assert w.exercises[k] in w.exercises;
            }
          }
        }
      }
    }
  }

  /** `getUserWorkouts`: the caller's workouts. The sort key `date` is not a
      path of the schema, so the order is the collection's. */
  function GetUserWorkouts(workouts: seq<Workout>, caller: Principal): (r: seq<Workout>)
    ensures forall w :: w in r <==> w in workouts && w.user == Some(caller.id)
  {
    Workouts.Owned(workouts, caller.id)
  }

  /** The controller lists the same workouts as GET /user, each as often. */
  lemma ListAgreesWithRoute(workouts: seq<Workout>, caller: Principal)
    ensures multiset(GetUserWorkouts(workouts, caller)) == multiset(Workouts.UserWorkouts(workouts, caller.id))
  {
  }

  /** `getWorkout`: any workout by id, whoever owns it. */
  function GetWorkout(workouts: seq<Workout>, workoutId: Id): (r: Result<Workout, Reply>)
    ensures r.Err? <==> forall w :: w in workouts ==> w.id != workoutId
    ensures r.Err? ==> r.error == Reply(404, Workouts.WorkoutNotFound)
    ensures r.Ok? ==> r.value in workouts && r.value.id == workoutId
  {
    var j := Workouts.FindWorkout(workouts, workoutId);
    if j == -1 then Err(Reply(404, Workouts.WorkoutNotFound)) else Ok(workouts[j])
  }

  /** Where the route refuses someone else's workout with a 403, the
      controller hands it over. */
  lemma ControllerSkipsOwnership(workouts: seq<Workout>, workoutId: Id, caller: Principal)
    requires Workouts.FetchOwned(workouts, workoutId, caller.id) == Err(Reply(403, Workouts.AccessForbidden))
    ensures GetWorkout(workouts, workoutId).Ok?
    ensures GetWorkout(workouts, workoutId).value.user != Some(caller.id)
  {
  }

  /** The body of `updateWorkout`: any path of the schema, the owner included. */
  datatype UpdateBody = UpdateBody(user: Option<Id>, fields: Workouts.WorkoutPatch)

  /** The update validators: only the paths being set are checked. */
  predicate UpdateValid(body: UpdateBody) {
    && (body.fields.planName.Some? ==> body.fields.planName.value != "")
    && (body.fields.exercises.Some? ==>
          forall e :: e in Workouts.CastEntries(body.fields.exercises.value) ==> EntryConforms(e))
  }

  /** A workout with the body's paths set; the owner is one of them. */
  function Patched(w: Workout, body: UpdateBody): (r: Workout)
    ensures r.id == w.id
    ensures r.user == if body.user.Some? then body.user else w.user
    ensures r == Workouts.ApplyPatch(w, body.fields).(user := r.user)
  {
    Workouts.ApplyPatch(w, body.fields).(user := if body.user.Some? then body.user else w.user)
  }

  /** `updateWorkout`: `findByIdAndUpdate` with the validators on. A body
      that fails them is a 400 whether or not the workout exists; an
      unknown id is a 404; otherwise the workout takes the body's paths. */
  function UpdateWorkout(workouts: seq<Workout>, workoutId: Id, body: UpdateBody): (r: Result<seq<Workout>, Reply>)
    ensures !UpdateValid(body) ==> r == Err(Reply(400, Workouts.UpdateFailed))
    ensures UpdateValid(body) && Workouts.FindWorkout(workouts, workoutId) == -1 ==> r == Err(Reply(404, Workouts.WorkoutNotFound))
    ensures r.Ok? ==>
      var j := Workouts.FindWorkout(workouts, workoutId);
      && 0 <= j && |r.value| == |workouts|
      && r.value[j].id == workoutId
      && (body.user.Some? ==> r.value[j].user == body.user)
      && r.value[j] == Patched(workouts[j], body)
      && forall k :: 0 <= k < |workouts| && k != j ==> r.value[k] == workouts[k]
  {
    if !UpdateValid(body) then Err(Reply(400, Workouts.UpdateFailed))
    else
      var j := Workouts.FindWorkout(workouts, workoutId);
      if j == -1 then Err(Reply(404, Workouts.WorkoutNotFound))
      else Ok(workouts[j := Patched(workouts[j], body)])
  }

  /** An update that passes the validators leaves a valid workout valid:
      checking only the paths set is enough. */
  lemma UpdateKeepsConformance(workouts: seq<Workout>, workoutId: Id, body: UpdateBody)
    requires forall w :: w in workouts ==> WorkoutConforms(w)
    requires UpdateWorkout(workouts, workoutId, body).Ok?
    ensures forall w :: w in UpdateWorkout(workouts, workoutId, body).value ==> WorkoutConforms(w)
  {
    var j := Workouts.FindWorkout(workouts, workoutId);
    var r := UpdateWorkout(workouts, workoutId, body).value;
    assert workouts[j] in workouts;
    forall w | w in r ensures WorkoutConforms(w) {
      var k :| 0 <= k < |r| && r[k] == w;
      if k != j {
        assert workouts[k] in workouts;
      }
    }
  }

  /** A valid update of someone else's workout, which the route refuses
      with a 403, goes through here, and can hand the workout to another
      user. */
  lemma ControllerUpdatesOthersWorkouts(workouts: seq<Workout>, workoutId: Id, caller: Principal, body: UpdateBody)
    requires Workouts.FetchOwned(workouts, workoutId, caller.id) == Err(Reply(403, Workouts.AccessForbidden))
    requires UpdateValid(body)
    ensures UpdateWorkout(workouts, workoutId, body).Ok?
  {
  }

  /** `deleteWorkout`: any workout by id. */
  function DeleteWorkout(workouts: seq<Workout>, workoutId: Id): (r: Result<seq<Workout>, Reply>)
    ensures r.Err? <==> forall w :: w in workouts ==> w.id != workoutId
    ensures r.Err? ==> r.error == Reply(404, Workouts.WorkoutNotFound)
    ensures r.Ok? ==> |r.value| == |workouts| - 1
    ensures r.Ok? ==> multiset(r.value) == multiset(workouts) - multiset{workouts[Workouts.FindWorkout(workouts, workoutId)]}
  {
    var j := Workouts.FindWorkout(workouts, workoutId);
    if j == -1 then Err(Reply(404, Workouts.WorkoutNotFound))
    else
      var r := Splice(workouts, j);
      assert r == workouts[..j] + workouts[j + 1..];
      assert workouts == workouts[..j] + [workouts[j]] + workouts[j + 1..];
      assert multiset(workouts) == multiset(workouts[..j]) + multiset{workouts[j]} + multiset(workouts[j + 1..]);
      Ok(r)
  }
}
