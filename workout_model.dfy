/** models/Workout.js: a finished workout, its required paths and defaults,
    and the `handlePlanDeletion` bulk update. */
module WorkoutModel {
  import opened Common

  /** Mongoose's default message for a missing required path; inside an
      exercise entry or a set it names the path local to that subdocument. */
  function RequiredMessage(path: string): string {
    "Path `" + path + "` is required."
  }

  /** Mongoose's message for a value a `Date` path cannot cast: an Invalid
      Date (`new Date(undefined)`) is refused by the cast, not by `required`. */
  function CastMessage(path: string): string {
    "Cast to date failed for value \"Invalid Date\" (type Date) at path \"" + path + "\""
  }

  /** What a `Date` path of a subdocument holds: nothing, an Invalid Date, or
      a time in milliseconds. */
  datatype DateValue = Unset | InvalidDate | At(time: Time)

  /** A date as a body sends it and Mongoose casts it: a missing one stays
      unset. */
  function AsDate(t: Option<Time>): (d: DateValue)
    ensures d.At? <==> t.Some?
    ensures !d.InvalidDate?
  {
    if t.Some? then At(t.value) else Unset
  }

  /** The messages of one `required` Date path: the cast message for an
      Invalid Date, the required message when unset, none for a time. */
  function DateErrors(d: DateValue, path: string): (r: seq<string>)
    ensures r == [] <==> d.At?
  {
    match d
    case Unset => [RequiredMessage(path)]
    case InvalidDate => [CastMessage(path)]
    case At(_) => []
  }

  /** One performed set. `skippedRest` defaults to false. */
  datatype WorkoutSet = WorkoutSet(weight: Option<int>, reps: Option<int>, completedAt: DateValue, skippedRest: bool)

  /** One exercise of a workout. `notes` defaults to "". */
  datatype ExerciseEntry = ExerciseEntry(exercise: Option<Id>, sets: seq<WorkoutSet>, completedAt: DateValue, notes: string)

  /** A stored workout. An unset string path is ""; the three counters
      default to 0. */
  datatype Workout = Workout(
    id: Id,
    user: Option<Id>,
    plan: Option<Id>,
    planName: string,
    exercises: seq<ExerciseEntry>,
    startTime: Option<Time>,
    endTime: Option<Time>,
    totalPauseTime: int,
    skippedPauses: int,
    progression: int)

  predicate SetConforms(s: WorkoutSet) {
    s.weight.Some? && s.reps.Some? && s.completedAt.At?
  }

  predicate EntryConforms(e: ExerciseEntry) {
    e.exercise.Some? && e.completedAt.At? && forall s :: s in e.sets ==> SetConforms(s)
  }

  /** What a workout must satisfy to be saved; `plan` is optional. */
  predicate WorkoutConforms(w: Workout) {
    && w.user.Some? && w.planName != "" && w.startTime.Some? && w.endTime.Some?
    && forall e :: e in w.exercises ==> EntryConforms(e)
  }

  function SetErrors(s: WorkoutSet): (r: seq<string>)
    ensures r == [] <==> SetConforms(s)
  {
    (if s.weight.None? then [RequiredMessage("weight")] else [])
    + (if s.reps.None? then [RequiredMessage("reps")] else [])
    + DateErrors(s.completedAt, "completedAt")
  }

  function SetsErrors(sets: seq<WorkoutSet>): (r: seq<string>)
    ensures r == [] <==> forall s :: s in sets ==> SetConforms(s)
  {
    if sets == [] then []
    else
      assert forall s :: s in sets <==> s == sets[0] || s in sets[1..];
      SetErrors(sets[0]) + SetsErrors(sets[1..])
  }

  function EntryErrors(e: ExerciseEntry): (r: seq<string>)
    ensures r == [] <==> EntryConforms(e)
  {
    (if e.exercise.None? then [RequiredMessage("exercise")] else [])
    + SetsErrors(e.sets)
    + DateErrors(e.completedAt, "completedAt")
  }

  function EntriesErrors(entries: seq<ExerciseEntry>): (r: seq<string>)
    ensures r == [] <==> forall e :: e in entries ==> EntryConforms(e)
  {
    if entries == [] then []
    else
      assert forall e :: e in entries <==> e == entries[0] || e in entries[1..];
      EntryErrors(entries[0]) + EntriesErrors(entries[1..])
  }

  /** A message of one entry is among the messages of the whole list. */
  lemma {:induction false} EntriesErrorsContain(entries: seq<ExerciseEntry>, k: nat, m: string)
    requires k < |entries| && m in EntryErrors(entries[k])
    ensures m in EntriesErrors(entries)
  {
    assert EntriesErrors(entries) == EntryErrors(entries[0]) + EntriesErrors(entries[1..]);
    if k > 0 {
      assert entries[1..][k - 1] == entries[k];
      EntriesErrorsContain(entries[1..], k - 1, m);
    }
  }

  /** The messages of a failed validation, one per missing or uncastable
      path, in schema order; none exactly when the workout conforms. */
  function ValidationErrors(w: Workout): (r: seq<string>)
    ensures r == [] <==> WorkoutConforms(w)
  {
    (if w.user.None? then [RequiredMessage("user")] else [])
    + (if w.planName == "" then [RequiredMessage("planName")] else [])
    + EntriesErrors(w.exercises)
    + (if w.startTime.None? then [RequiredMessage("startTime")] else [])
    + (if w.endTime.None? then [RequiredMessage("endTime")] else [])
  }

  /** One workout after `handlePlanDeletion`: a workout of the deleted plan
      loses its `plan` and gets `planName`; any other is left alone. */
  function Detach(w: Workout, planId: Id, planName: string): Workout {
    if w.plan == Some(planId) then w.(plan := None, planName := planName) else w
  }

  /** The collection after `handlePlanDeletion`. */
  function DetachPlan(workouts: seq<Workout>, planId: Id, planName: string): (r: seq<Workout>)
    ensures |r| == |workouts|
    ensures forall k :: 0 <= k < |r| ==> r[k].plan != Some(planId)
    ensures forall k :: 0 <= k < |r| && workouts[k].plan != Some(planId) ==> r[k] == workouts[k]
    ensures forall k :: 0 <= k < |r| && workouts[k].plan == Some(planId) ==>
      r[k] == workouts[k].(plan := None, planName := planName)
  {
    seq(|workouts|, k requires 0 <= k < |workouts| => Detach(workouts[k], planId, planName))
  }

  /** How many workouts refer to `planId`. */
  function CountWithPlan(workouts: seq<Workout>, planId: Id): (n: nat)
    ensures n <= |workouts|
    ensures n == 0 <==> forall k :: 0 <= k < |workouts| ==> workouts[k].plan != Some(planId)
  {
    if workouts == [] then 0
    else
      var last := workouts[|workouts| - 1];
      CountWithPlan(workouts[..|workouts| - 1], planId) + (if last.plan == Some(planId) then 1 else 0)
  }

  /** Detaching is idempotent: a second pass finds nothing to change. */
  lemma DetachPlanIdempotent(workouts: seq<Workout>, planId: Id, planName: string)
    ensures DetachPlan(DetachPlan(workouts, planId, planName), planId, planName) == DetachPlan(workouts, planId, planName)
    ensures CountWithPlan(DetachPlan(workouts, planId, planName), planId) == 0
  {
  }

  /** The Workout collection. */
  class WorkoutCollection {
    var workouts: seq<Workout>

    constructor (workouts: seq<Workout>)
      ensures this.workouts == workouts
    {
      this.workouts := workouts;
    }

    /** `handlePlanDeletion(planId, planName)`: `updateMany` over the
        workouts of the plan, one document at a time; returns the number of
        documents modified. */
    method HandlePlanDeletion(planId: Id, planName: string) returns (modifiedCount: nat)
      modifies this
      ensures workouts == DetachPlan(old(workouts), planId, planName)
      ensures modifiedCount == CountWithPlan(old(workouts), planId)
    {
      var ws := workouts;
      var i := 0;
      modifiedCount := 0;
      while i < |ws|
        invariant 0 <= i <= |ws| == |workouts|
        invariant forall k :: 0 <= k < i ==> ws[k] == Detach(workouts[k], planId, planName)
        invariant forall k :: i <= k < |ws| ==> ws[k] == workouts[k]
        invariant modifiedCount == CountWithPlan(workouts[..i], planId)
      {
        assert workouts[..i + 1][..i] == workouts[..i];
        if ws[i].plan == Some(planId) {
          ws := ws[i := ws[i].(plan := None, planName := planName)];
          modifiedCount := modifiedCount + 1;
        }
        i := i + 1;
      }
      assert workouts[..i] == workouts;
      workouts := ws;
    }
  }
}
