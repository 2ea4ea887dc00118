/** routes/workouts.js: recording a workout, the per-exercise history, the
    in-progress record of a running workout, and reading, editing and
    deleting one's own workouts. */
module Workouts {
  import opened Common
  import ExerciseModel
  import opened WorkoutModel

  const MissingFields: string := "Missing required fields"
  const InvalidExercises: string := "Invalid exercises data"
  const ValidationFailed: string := "Validation error"
  const CreateFailed: string := "Error creating workout"
  const NoWorkoutsForPlan: string := "No workouts found for this plan"
  const InvalidIdProvided: string := "Invalid exercise ID provided"
  const InvalidIdFormat: string := "Invalid exercise ID format"
  const ExerciseNotFound: string := "Exercise not found"
  const ProgressSaved: string := "Progress saved successfully"
  const OutOfSync: string := "Data is out of sync. Please refresh and try again."
  const ProgressSavePrefix: string := "Error saving progress: "
  const ProgressCreated: string := "New progress created successfully"
  const ProgressCreatePrefix: string := "Error creating new progress: "
  const ProgressCleared: string := "Workout progress cleared successfully"
  const WorkoutNotFound: string := "Workout not found"
  const AccessForbidden: string := "Not authorized to access this workout"
  const FetchFailed: string := "Error fetching workout"
  const UpdateFailed: string := "Error updating workout"
  const WorkoutDeleted: string := "Workout deleted successfully"
  /** What `undefined.map(...)` throws. */
  const MapOfUndefined: string := "Cannot read properties of undefined (reading 'map')"
  /** The start of a failed validation's message; the per-path details that
      follow it are not modelled. */
  const ProgressInvalid: string := "WorkoutProgress validation failed"

  /** A refused request: the reply, and the field messages of a failed
      validation. */
  datatype Rejection = Rejection(reply: Reply, errors: seq<string>)

  // ---------------------------------------------------------------------------
  // POST /

  datatype SetInput = SetInput(weight: Option<int>, reps: Option<int>, completedAt: Option<Time>, skippedRest: Option<bool>)
  datatype EntryInput = EntryInput(exercise: Option<Id>, sets: Option<seq<SetInput>>, completedAt: Option<Time>, notes: Option<string>)

  /** `exercises` in a request body: an array, some other value, or absent. */
  datatype ExercisesInput = EntryList(entries: seq<EntryInput>) | NotAList | NoExercises

  datatype WorkoutInput = WorkoutInput(
    plan: Option<Id>,
    planName: Option<string>,
    exercises: ExercisesInput,
    startTime: Option<Time>,
    endTime: Option<Time>,
    totalPauseTime: Option<int>,
    skippedPauses: Option<int>,
    progression: Option<int>)

  /** The guards before a workout is built: required fields, then a
      non-empty exercise array. */
  function RequestError(input: WorkoutInput): (r: Option<Reply>)
    ensures r == Some(Reply(400, MissingFields)) <==>
      !Truthy(input.planName) || input.exercises.NoExercises? || input.startTime.None? || input.endTime.None?
    ensures r == Some(Reply(400, InvalidExercises)) <==>
      && Truthy(input.planName) && !input.exercises.NoExercises? && input.startTime.Some? && input.endTime.Some?
      && (input.exercises.NotAList? || input.exercises.entries == [])
    ensures r.None? ==> input.exercises.EntryList? && |input.exercises.entries| > 0
  {
    if !Truthy(input.planName) || input.exercises.NoExercises? || input.startTime.None? || input.endTime.None? then
      Some(Reply(400, MissingFields))
    else if input.exercises.NotAList? || input.exercises.entries == [] then
      Some(Reply(400, InvalidExercises))
    else None
  }

  /** Every entry has a `sets` array to map over. */
  predicate SetsPresent(entries: seq<EntryInput>) {
    forall k :: 0 <= k < |entries| ==> entries[k].sets.Some?
  }

  /** `new Date(x)`: a time for a given one, and an Invalid Date, never an
      unset path, for a missing one. */
  function NewDate(t: Option<Time>): (d: DateValue)
    ensures !d.Unset?
    ensures d.At? <==> t.Some?
    ensures t.Some? ==> d.time == t.value
  {
    if t.Some? then At(t.value) else InvalidDate
  }

  function BuildSet(s: SetInput): WorkoutSet {
    WorkoutSet(s.weight, s.reps, NewDate(s.completedAt), s.skippedRest.GetOr(false))
  }

  /** One exercise entry as built: its sets mapped one for one, each date
      passed through `new Date`; the notes kept only where the handler
      copies them. */
  function BuildEntry(e: EntryInput, keepNotes: bool): (r: ExerciseEntry)
    requires e.sets.Some?
    ensures r.exercise == e.exercise && r.completedAt == NewDate(e.completedAt)
    ensures |r.sets| == |e.sets.value|
    ensures forall j :: 0 <= j < |r.sets| ==> r.sets[j] == BuildSet(e.sets.value[j])
  {
    var sets := e.sets.value;
    ExerciseEntry(e.exercise, seq(|sets|, j requires 0 <= j < |sets| => BuildSet(sets[j])), NewDate(e.completedAt),
                  if keepNotes then e.notes.GetOr("") else "")
  }

  /** A set or an entry sent without `completedAt` is refused by the date
      cast, never by `required`: the built path is an Invalid Date and its
      message is the cast message. */
  lemma MissingCompletedAtFailsCast(e: EntryInput)
    requires e.sets.Some?
    ensures var r := BuildEntry(e, true);
      && (e.completedAt.None? <==> r.completedAt.InvalidDate?)
      && (e.completedAt.None? ==> DateErrors(r.completedAt, "completedAt") == [CastMessage("completedAt")])
      && forall j :: 0 <= j < |r.sets| ==>
           && r.sets[j].completedAt != Unset
           && (e.sets.value[j].completedAt.None? ==> DateErrors(r.sets[j].completedAt, "completedAt") == [CastMessage("completedAt")])
  {
  }

  /** The workout POST / builds for the caller (`keepExtras`: the route also
      copies the notes and the three counters; the controller does not). */
  function BuildWorkout(id: Id, callerId: Id, input: WorkoutInput, keepExtras: bool): (w: Workout)
    requires input.exercises.EntryList? && SetsPresent(input.exercises.entries)
    ensures w.id == id && w.user == Some(callerId) && w.plan == input.plan
    ensures |w.exercises| == |input.exercises.entries|
    ensures forall k :: 0 <= k < |w.exercises| ==>
      && w.exercises[k].exercise == input.exercises.entries[k].exercise
      && |w.exercises[k].sets| == |input.exercises.entries[k].sets.value|
  {
    var entries := input.exercises.entries;
    Workout(id, Some(callerId), input.plan, input.planName.GetOr(""),
            seq(|entries| , k requires 0 <= k < |entries| => BuildEntry(entries[k], keepExtras)),
            input.startTime, input.endTime,
            if keepExtras then input.totalPauseTime.GetOr(0) else 0,
            if keepExtras then input.skippedPauses.GetOr(0) else 0,
            if keepExtras then input.progression.GetOr(0) else 0)
  }

  /** The outcome of creating a workout: the guards' 400, a 500 when an
      entry has no sets to map, the validators' 400 with their messages, or
      the saved workout. */
  function CreateOutcome(callerId: Id, input: WorkoutInput, id: Id, keepExtras: bool): (r: Result<Workout, Rejection>)
    ensures RequestError(input).Some? ==> r == Err(Rejection(RequestError(input).value, []))
    ensures RequestError(input).None? && !SetsPresent(input.exercises.entries) ==>
      r == Err(Rejection(Reply(500, CreateFailed), []))
    ensures r.Err? && r.error.reply.message == ValidationFailed ==>
      && r.error.reply.status == 400
      && r.error.errors == ValidationErrors(BuildWorkout(id, callerId, input, keepExtras))
      && r.error.errors != []
    ensures r.Ok? ==>
      && RequestError(input).None? && SetsPresent(input.exercises.entries)
      && r.value == BuildWorkout(id, callerId, input, keepExtras)
      && WorkoutConforms(r.value)
  {
    if RequestError(input).Some? then Err(Rejection(RequestError(input).value, []))
    else if !SetsPresent(input.exercises.entries) then Err(Rejection(Reply(500, CreateFailed), []))
    else
      var w := BuildWorkout(id, callerId, input, keepExtras);
      var errors := ValidationErrors(w);
      if errors != [] then Err(Rejection(Reply(400, ValidationFailed), errors)) else Ok(w)
  }

  /** POST / with an entry sent without `completedAt` is the 400 of a failed
      validation, and its messages carry the date cast's. */
  lemma CreateWithoutCompletedAtIsCastError(callerId: Id, input: WorkoutInput, id: Id, keepExtras: bool, k: nat)
    requires RequestError(input).None? && SetsPresent(input.exercises.entries)
    requires k < |input.exercises.entries| && input.exercises.entries[k].completedAt.None?
    ensures var r := CreateOutcome(callerId, input, id, keepExtras);
      && r.Err? && r.error.reply == Reply(400, ValidationFailed)
      && CastMessage("completedAt") in r.error.errors
  {
    var w := BuildWorkout(id, callerId, input, keepExtras);
    var entry := BuildEntry(input.exercises.entries[k], keepExtras);
    assert w.exercises[k] == entry;
    assert CastMessage("completedAt") in EntryErrors(entry);
    EntriesErrorsContain(w.exercises, k, CastMessage("completedAt"));
    assert CastMessage("completedAt") in ValidationErrors(w);
  }

  /** A created workout belongs to the caller and has as many exercises,
      and as many sets per exercise, as the request. */
  lemma CreatedWorkoutMirrorsRequest(callerId: Id, input: WorkoutInput, id: Id, keepExtras: bool)
    requires CreateOutcome(callerId, input, id, keepExtras).Ok?
    ensures var w := CreateOutcome(callerId, input, id, keepExtras).value;
      && w.user == Some(callerId)
      && input.exercises.EntryList? && |w.exercises| == |input.exercises.entries| > 0
      && forall k :: 0 <= k < |w.exercises| ==> |w.exercises[k].sets| == |input.exercises.entries[k].sets.value|
  {
  }

  // ---------------------------------------------------------------------------
  // Ordering by start time

  function StartKey(w: Workout): int {
    w.startTime.GetOr(0)
  }

  ghost predicate NewestFirst(ws: seq<Workout>) {
    forall i, j :: 0 <= i < j < |ws| ==> StartKey(ws[i]) >= StartKey(ws[j])
  }

  function Insert(w: Workout, ws: seq<Workout>): (r: seq<Workout>)
    requires NewestFirst(ws)
    ensures NewestFirst(r)
    ensures multiset(r) == multiset(ws) + multiset{w}
    ensures |r| == |ws| + 1
  {
    if ws == [] then [w]
    else if StartKey(w) >= StartKey(ws[0]) then [w] + ws
    else
      var rest := Insert(w, ws[1..]);
      assert ws == [ws[0]] + ws[1..];
      InsertBelowHead(w, ws, rest);
      [ws[0]] + rest
  }

  /** Inserting below the head keeps the head first. */
  lemma InsertBelowHead(w: Workout, ws: seq<Workout>, rest: seq<Workout>)
    requires ws != [] && NewestFirst(ws) && StartKey(w) < StartKey(ws[0])
    requires NewestFirst(rest) && multiset(rest) == multiset(ws[1..]) + multiset{w}
    ensures NewestFirst([ws[0]] + rest)
  {
    forall k | 0 <= k < |rest| ensures StartKey(rest[k]) <= StartKey(ws[0]) {
      assert rest[k] in multiset(rest);
      if rest[k] != w {
        assert rest[k] in multiset(ws[1..]);
        var m :| 0 <= m < |ws| - 1 && ws[1..][m] == rest[k];
        assert ws[m + 1] == rest[k];
      }
    }
    var s := [ws[0]] + rest;
    forall i, j | 0 <= i < j < |s| ensures StartKey(s[i]) >= StartKey(s[j]) {
      assert s[j] == rest[j - 1];
      if i > 0 { assert s[i] == rest[i - 1]; }
    }
  }

  /** `sort({ startTime: -1 })`: newest first, a permutation of the input. */
  function SortNewestFirst(ws: seq<Workout>): (r: seq<Workout>)
    ensures NewestFirst(r)
    ensures multiset(r) == multiset(ws)
    ensures |r| == |ws|
  {
    if ws == [] then []
    else
      assert ws == [ws[0]] + ws[1..];
      Insert(ws[0], SortNewestFirst(ws[1..]))
  }

  // ---------------------------------------------------------------------------
  // GET /user and GET /last/:planId

  function Owned(workouts: seq<Workout>, callerId: Id): (r: seq<Workout>)
    ensures forall w :: w in r <==> w in workouts && w.user == Some(callerId)
  {
    if workouts == [] then []
    else
      assert forall w :: w in workouts <==> w == workouts[0] || w in workouts[1..];
      (if workouts[0].user == Some(callerId) then [workouts[0]] else []) + Owned(workouts[1..], callerId)
  }

  /** GET /user: the caller's workouts, newest first. */
  function UserWorkouts(workouts: seq<Workout>, callerId: Id): (r: seq<Workout>)
    ensures NewestFirst(r)
    ensures forall w :: w in r <==> w in workouts && w.user == Some(callerId)
  {
    var owned := Owned(workouts, callerId);
    var r := SortNewestFirst(owned);
    assert forall w :: w in r <==> w in owned by {
      forall w ensures w in r <==> w in owned {
        assert w in r <==> multiset(r)[w] > 0;
        assert w in owned <==> multiset(owned)[w] > 0;
      }
    }
    r
  }

  /** The caller's workouts of one plan (`find({ user, plan })`). */
  function OwnedOfPlan(workouts: seq<Workout>, callerId: Id, planId: Id): (r: seq<Workout>)
    ensures forall w :: w in r <==> w in workouts && w.user == Some(callerId) && w.plan == Some(planId)
  {
    if workouts == [] then []
    else
      assert forall w :: w in workouts <==> w == workouts[0] || w in workouts[1..];
      var w := workouts[0];
      (if w.user == Some(callerId) && w.plan == Some(planId) then [w] else [])
      + OwnedOfPlan(workouts[1..], callerId, planId)
  }

  /** The head of a newest-first list is at least as new as anything in it. */
  lemma HeadIsNewest(ws: seq<Workout>)
    requires NewestFirst(ws) && ws != []
    ensures forall w :: w in ws ==> StartKey(w) <= StartKey(ws[0])
  {
    forall w | w in ws ensures StartKey(w) <= StartKey(ws[0]) {
      var k :| 0 <= k < |ws| && ws[k] == w;
      if k > 0 { assert StartKey(ws[0]) >= StartKey(ws[k]); }
    }
  }

  /** GET /last/:planId: the caller's newest workout of the plan, or a 200
      saying there is none. */
  function LastWorkout(workouts: seq<Workout>, callerId: Id, planId: Id): (r: Result<Workout, Reply>)
    ensures r.Err? ==> r.error == Reply(200, NoWorkoutsForPlan)
    ensures r.Err? <==> forall w :: w in workouts ==> !(w.user == Some(callerId) && w.plan == Some(planId))
    ensures r.Ok? ==>
      && r.value in workouts && r.value.user == Some(callerId) && r.value.plan == Some(planId)
      && forall w :: w in workouts && w.user == Some(callerId) && w.plan == Some(planId) ==> StartKey(w) <= StartKey(r.value)
  {
    var mine := OwnedOfPlan(workouts, callerId, planId);
    var sorted := SortNewestFirst(mine);
    assert forall w :: w in sorted <==> w in mine by {
      forall w ensures w in sorted <==> w in mine {
        assert w in sorted <==> multiset(sorted)[w] > 0;
        assert w in mine <==> multiset(mine)[w] > 0;
      }
    }
    if sorted == [] then Err(Reply(200, NoWorkoutsForPlan))
    else
      HeadIsNewest(sorted);
      Ok(sorted[0])
  }

  // ---------------------------------------------------------------------------
  // GET /exercise-history/:exerciseId

  /** `mongoose.Types.ObjectId.isValid` on a string: twelve characters, or
      24 hexadecimal digits. */
  predicate IsValidObjectId(s: string) {
    |s| == 12 || (|s| == 24 && forall k :: 0 <= k < |s| ==> s[k] in "0123456789abcdefABCDEF")
  }

  predicate UsesExercise(w: Workout, exerciseId: Id) {
    exists k :: 0 <= k < |w.exercises| && w.exercises[k].exercise == Some(exerciseId)
  }

  function Matching(workouts: seq<Workout>, callerId: Id, exerciseId: Id): (r: seq<Workout>)
    ensures forall w :: w in r <==> w in workouts && w.user == Some(callerId) && UsesExercise(w, exerciseId)
  {
    if workouts == [] then []
    else
      assert forall w :: w in workouts <==> w == workouts[0] || w in workouts[1..];
      var w := workouts[0];
      (if w.user == Some(callerId) && UsesExercise(w, exerciseId) then [w] else [])
      + Matching(workouts[1..], callerId, exerciseId)
  }

  /** The workouts the history is read from: `find`, newest first, at most five. */
  function HistoryWorkouts(workouts: seq<Workout>, callerId: Id, exerciseId: Id): (r: seq<Workout>)
    ensures |r| <= 5
    ensures forall w :: w in r ==> w.user == Some(callerId) && UsesExercise(w, exerciseId)
  {
    var sorted := SortNewestFirst(Matching(workouts, callerId, exerciseId));
    var r := sorted[..if |sorted| < 5 then |sorted| else 5];
    assert forall w :: w in r ==> w in sorted;
    assert forall w :: w in sorted ==> multiset(sorted)[w] > 0;
    r
  }

  /** The history holds the newest matching workouts: never more than five,
      five whenever there are that many, newest first, and no matching
      workout newer than the last one shown is left out. */
  lemma {:induction false} HistoryIsNewestFive(workouts: seq<Workout>, callerId: Id, exerciseId: Id)
    ensures var matching := Matching(workouts, callerId, exerciseId);
      var r := HistoryWorkouts(workouts, callerId, exerciseId);
      && |r| == (if |matching| < 5 then |matching| else 5)
      && NewestFirst(r)
      && (r != [] ==> forall w :: w in matching && StartKey(w) > StartKey(r[|r| - 1]) ==> w in r)
  {
    var matching := Matching(workouts, callerId, exerciseId);
    var sorted := SortNewestFirst(matching);
    var n := if |sorted| < 5 then |sorted| else 5;
    assert sorted[..n] == HistoryWorkouts(workouts, callerId, exerciseId);
    if n > 0 {
      PrefixHoldsNewer(sorted, n);
      forall w | w in matching ensures w in sorted {
        assert multiset(matching)[w] > 0;
      }
    }
  }

  /** In a newest-first list, whatever is newer than the n-th element lies
      before it. */
  lemma PrefixHoldsNewer(sorted: seq<Workout>, n: nat)
    requires NewestFirst(sorted) && 0 < n <= |sorted|
    ensures NewestFirst(sorted[..n])
    ensures forall w :: w in sorted && StartKey(w) > StartKey(sorted[n - 1]) ==> w in sorted[..n]
  {
    forall w | w in sorted && StartKey(w) > StartKey(sorted[n - 1]) ensures w in sorted[..n] {
      var k :| 0 <= k < |sorted| && sorted[k] == w;
      if k >= n {
        assert false;
      }
      assert sorted[..n][k] == w;
    }
  }

  /** One history line: the workout's start and the sets and notes of its
      first entry for the exercise. */
  datatype HistoryEntry = HistoryEntry(date: Option<Time>, sets: seq<WorkoutSet>, notes: string)

  function HistoryEntryOf(w: Workout, exerciseId: Id): (h: HistoryEntry)
    requires UsesExercise(w, exerciseId)
    ensures exists k :: (0 <= k < |w.exercises| && w.exercises[k].exercise == Some(exerciseId)
      && (forall m :: 0 <= m < k ==> w.exercises[m].exercise != Some(exerciseId))
      && h == HistoryEntry(w.startTime, w.exercises[k].sets, w.exercises[k].notes))
  {
    var k := FindFirst(w.exercises, (e: ExerciseEntry) => e.exercise == Some(exerciseId));
    HistoryEntry(w.startTime, w.exercises[k].sets, w.exercises[k].notes)
  }

  /** GET /exercise-history/:exerciseId. */
  function ExerciseHistory(workouts: seq<Workout>, catalog: seq<ExerciseModel.Exercise>, callerId: Id, exerciseId: string)
    : (r: Result<seq<HistoryEntry>, Reply>)
    ensures exerciseId == "" || exerciseId == "undefined" ==> r == Err(Reply(400, InvalidIdProvided))
    ensures exerciseId != "" && exerciseId != "undefined" && !IsValidObjectId(exerciseId) ==>
      r == Err(Reply(400, InvalidIdFormat))
    ensures IsValidObjectId(exerciseId) && exerciseId != "undefined" && ExerciseModel.FindExercise(catalog, exerciseId) == -1 ==>
      r == Err(Reply(404, ExerciseNotFound))
    ensures r.Ok? ==>
      var picked := HistoryWorkouts(workouts, callerId, exerciseId);
      |r.value| == |picked| && forall k :: 0 <= k < |picked| ==> r.value[k] == HistoryEntryOf(picked[k], exerciseId)
  {
    if exerciseId == "" || exerciseId == "undefined" then Err(Reply(400, InvalidIdProvided))
    else if !IsValidObjectId(exerciseId) then Err(Reply(400, InvalidIdFormat))
    else if ExerciseModel.FindExercise(catalog, exerciseId) == -1 then Err(Reply(404, ExerciseNotFound))
    else
      var picked := HistoryWorkouts(workouts, callerId, exerciseId);
      Ok(seq(|picked|, k requires 0 <= k < |picked| => HistoryEntryOf(picked[k], exerciseId)))
  }

  // ---------------------------------------------------------------------------
  // The in-progress record (models/WorkoutProgress.js)

  /** One set of a running workout; `measures` holds its numeric paths
      (weight, reps, duration, distance, intensity, incline) that are set. */
  datatype ProgressSet = ProgressSet(measures: map<string, int>, completedAt: Time, skippedRest: bool)
  datatype ProgressEntry = ProgressEntry(exercise: Option<Id>, sets: seq<ProgressSet>, notes: Option<string>, requiredSets: int)
  datatype Progress = Progress(
    id: Id,
    user: Id,
    plan: Option<Id>,
    exercises: seq<ProgressEntry>,
    currentExerciseIndex: Option<int>,
    startTime: Time,
    lastUpdated: Time,
    totalPauseTime: Option<int>,
    skippedPauses: Option<int>,
    completedSets: Option<int>,
    totalSets: Option<int>,
    version: nat)

  datatype ProgressSetInput = ProgressSetInput(measures: map<string, int>, completedAt: Option<Time>, skippedRest: Option<bool>)
  datatype ProgressEntryInput = ProgressEntryInput(
    exercise: Option<Id>, sets: Option<seq<ProgressSetInput>>, notes: Option<string>, requiredSets: Option<int>)
  datatype ProgressInput = ProgressInput(
    plan: Option<Id>,
    exercises: Option<seq<ProgressEntryInput>>,
    currentExerciseIndex: Option<int>,
    startTime: Option<Time>,
    totalPauseTime: Option<int>,
    skippedPauses: Option<int>,
    completedSets: Option<int>,
    totalSets: Option<int>,
    version: Option<nat>)

  /** The body has arrays to map over at both levels. */
  predicate ProgressMappable(input: ProgressInput) {
    input.exercises.Some? && forall k :: 0 <= k < |input.exercises.value| ==> input.exercises.value[k].sets.Some?
  }

  /** The schema's required paths: the plan, and each entry's exercise. */
  predicate ProgressConforms(p: Progress) {
    p.plan.Some? && forall k :: 0 <= k < |p.exercises| ==> p.exercises[k].exercise.Some?
  }

  function ProgressSetOf(s: ProgressSetInput, now: Time): (r: ProgressSet)
    ensures r.completedAt == if s.completedAt.Some? then s.completedAt.value else now
  {
    ProgressSet(s.measures, s.completedAt.GetOr(now), s.skippedRest.GetOr(false))
  }

  /** The mapped entries: a set without `completedAt` is stamped `now`;
      `requiredSets` defaults to 3. */
  function ProgressEntries(entries: seq<ProgressEntryInput>, now: Time): (r: seq<ProgressEntry>)
    requires forall k :: 0 <= k < |entries| ==> entries[k].sets.Some?
    ensures |r| == |entries|
    ensures forall k :: 0 <= k < |r| ==>
      && r[k].exercise == entries[k].exercise
      && |r[k].sets| == |entries[k].sets.value|
      && forall j :: 0 <= j < |r[k].sets| ==>
           r[k].sets[j].completedAt == entries[k].sets.value[j].completedAt.GetOr(now)
  {
    seq(|entries|, k requires 0 <= k < |entries| =>
      var sets := entries[k].sets.value;
      ProgressEntry(entries[k].exercise,
                    seq(|sets|, j requires 0 <= j < |sets| => ProgressSetOf(sets[j], now)),
                    entries[k].notes, entries[k].requiredSets.GetOr(3)))
  }

  /** An existing record rewritten by POST /progress: `startTime` kept when
      the body has none, `lastUpdated` set to now; a counter the body omits
      is assigned `undefined` and so left unset, its default not reapplied. */
  function UpdatedProgress(p: Progress, input: ProgressInput, now: Time): (r: Progress)
    requires ProgressMappable(input)
    ensures r.id == p.id && r.user == p.user && r.version == p.version && r.lastUpdated == now
    ensures r.startTime == if input.startTime.Some? then input.startTime.value else p.startTime
    ensures r.plan == input.plan
    ensures input.currentExerciseIndex.None? ==> r.currentExerciseIndex.None?
    ensures input.totalPauseTime.None? ==> r.totalPauseTime.None?
    ensures r.exercises == ProgressEntries(input.exercises.value, now)
    ensures r.currentExerciseIndex == input.currentExerciseIndex && r.totalPauseTime == input.totalPauseTime
    ensures r.skippedPauses == input.skippedPauses && r.completedSets == input.completedSets
    ensures r.totalSets == input.totalSets
  {
    p.(plan := input.plan,
       exercises := ProgressEntries(input.exercises.value, now),
       currentExerciseIndex := input.currentExerciseIndex,
       startTime := input.startTime.GetOr(p.startTime),
       lastUpdated := now,
       totalPauseTime := input.totalPauseTime,
       skippedPauses := input.skippedPauses,
       completedSets := input.completedSets,
       totalSets := input.totalSets)
  }

  /** A new record: `startTime` defaults to now, the counters to 0. */
  function NewProgress(id: Id, callerId: Id, input: ProgressInput, now: Time): (r: Progress)
    requires ProgressMappable(input)
    ensures r.id == id && r.user == callerId && r.version == 0 && r.plan == input.plan
    ensures r.startTime == if input.startTime.Some? then input.startTime.value else now
    ensures r.exercises == ProgressEntries(input.exercises.value, now) && r.lastUpdated == now
    ensures r.currentExerciseIndex == Some(if input.currentExerciseIndex.Some? then input.currentExerciseIndex.value else 0)
    ensures r.totalPauseTime == Some(if input.totalPauseTime.Some? then input.totalPauseTime.value else 0)
    ensures r.skippedPauses == Some(if input.skippedPauses.Some? then input.skippedPauses.value else 0)
    ensures r.completedSets == Some(if input.completedSets.Some? then input.completedSets.value else 0)
    ensures r.totalSets == Some(if input.totalSets.Some? then input.totalSets.value else 0)
  {
    Progress(id, callerId, input.plan, ProgressEntries(input.exercises.value, now),
             Some(input.currentExerciseIndex.GetOr(0)), input.startTime.GetOr(now), now,
             Some(input.totalPauseTime.GetOr(0)), Some(input.skippedPauses.GetOr(0)),
             Some(input.completedSets.GetOr(0)), Some(input.totalSets.GetOr(0)), 0)
  }

  /** Index of the caller's (first) progress record, or -1. */
  function FindProgress(records: seq<Progress>, callerId: Id): (i: int)
    ensures -1 <= i < |records|
    ensures i == -1 <==> forall k :: 0 <= k < |records| ==> records[k].user != callerId
    ensures 0 <= i ==> records[i].user == callerId && forall k :: 0 <= k < i ==> records[k].user != callerId
  {
    FindFirst(records, (p: Progress) => p.user == callerId)
  }

  ghost predicate OnePerUser(records: seq<Progress>) {
    forall i, j :: 0 <= i < j < |records| ==> records[i].user != records[j].user
  }

  /** POST /progress/new adds a record whatever the caller holds already, so
      a second one breaks the one-record-per-user shape POST /progress keeps. */
  lemma SecondRecordBreaksOnePerUser(records: seq<Progress>, d: Progress)
    requires FindProgress(records, d.user) >= 0
    ensures !OnePerUser(records + [d])
  {
    var i := FindProgress(records, d.user);
    var s := records + [d];
    assert s[i].user == s[|records|].user;
  }

  /** After POST /progress/new has added a record for a caller who had one,
      `findOne({ user })` still finds the older record. */
  lemma NewRecordStaysBehindOlder(records: seq<Progress>, d: Progress)
    requires FindProgress(records, d.user) >= 0
    ensures FindProgress(records + [d], d.user) == FindProgress(records, d.user)
  {
    var i := FindProgress(records, d.user);
    assert (records + [d])[i] == records[i];
  }

  // ---------------------------------------------------------------------------
  // GET /:id, PUT /:id and DELETE /:id

  /** `getWorkout`: 404 for an unknown id, 403 for someone else's workout. */
  function FetchOwned(workouts: seq<Workout>, workoutId: Id, callerId: Id): (r: Result<nat, Reply>)
    ensures FindWorkout(workouts, workoutId) == -1 <==> r == Err(Reply(404, WorkoutNotFound))
    ensures r.Ok? ==> r.value == FindWorkout(workouts, workoutId) && workouts[r.value].user == Some(callerId)
    ensures FindWorkout(workouts, workoutId) >= 0 && workouts[FindWorkout(workouts, workoutId)].user.Some?
            && workouts[FindWorkout(workouts, workoutId)].user != Some(callerId) ==>
      r == Err(Reply(403, AccessForbidden))
  {
    var j := FindWorkout(workouts, workoutId);
    if j == -1 then Err(Reply(404, WorkoutNotFound))
    else if workouts[j].user.None? then Err(Reply(500, FetchFailed))
    else if workouts[j].user != Some(callerId) then Err(Reply(403, AccessForbidden))
    else Ok(j)
  }

  /** Index of the workout with that id, or -1. */
  function FindWorkout(workouts: seq<Workout>, id: Id): (i: int)
    ensures -1 <= i < |workouts|
    ensures i == -1 <==> forall k :: 0 <= k < |workouts| ==> workouts[k].id != id
    ensures 0 <= i ==> workouts[i].id == id
  {
    FindFirst(workouts, (w: Workout) => w.id == id)
  }

  /** The body of PUT /:id; `None` stands for an absent or null field. */
  datatype WorkoutPatch = WorkoutPatch(
    plan: Option<Id>,
    planName: Option<string>,
    exercises: Option<seq<EntryInput>>,
    startTime: Option<Time>,
    endTime: Option<Time>,
    totalPauseTime: Option<int>,
    skippedPauses: Option<int>,
    progression: Option<int>)

  /** A set assigned as sent: a missing date stays unset. */
  function CastSet(s: SetInput): WorkoutSet {
    WorkoutSet(s.weight, s.reps, AsDate(s.completedAt), s.skippedRest.GetOr(false))
  }

  /** An exercise array assigned as sent: a missing `sets` is an empty array,
      and a missing date stays unset (no `new Date` runs here). */
  function CastEntries(entries: seq<EntryInput>): (r: seq<ExerciseEntry>)
    ensures |r| == |entries|
    ensures forall k :: 0 <= k < |r| ==>
      && r[k].exercise == entries[k].exercise && r[k].completedAt == AsDate(entries[k].completedAt)
      && r[k].notes == entries[k].notes.GetOr("")
      && |r[k].sets| == |entries[k].sets.GetOr([])|
      && forall j :: 0 <= j < |r[k].sets| ==> r[k].sets[j] == CastSet(entries[k].sets.GetOr([])[j])
  {
    seq(|entries|, k requires 0 <= k < |entries| =>
      var sets := entries[k].sets.GetOr([]);
      ExerciseEntry(entries[k].exercise, seq(|sets|, j requires 0 <= j < |sets| => CastSet(sets[j])),
                    AsDate(entries[k].completedAt), entries[k].notes.GetOr("")))
  }

  /** PUT /:id: each field present in the body replaces the stored one;
      every other field, the owner and the id included, is unchanged. */
  function ApplyPatch(w: Workout, patch: WorkoutPatch): (r: Workout)
    ensures r.id == w.id && r.user == w.user
    ensures r.plan == (if patch.plan.Some? then patch.plan else w.plan)
    ensures r.planName == (if patch.planName.Some? then patch.planName.value else w.planName)
    ensures r.exercises == (if patch.exercises.Some? then CastEntries(patch.exercises.value) else w.exercises)
    ensures r.startTime == (if patch.startTime.Some? then patch.startTime else w.startTime)
    ensures r.endTime == (if patch.endTime.Some? then patch.endTime else w.endTime)
    ensures r.totalPauseTime == (if patch.totalPauseTime.Some? then patch.totalPauseTime.value else w.totalPauseTime)
    ensures r.skippedPauses == (if patch.skippedPauses.Some? then patch.skippedPauses.value else w.skippedPauses)
    ensures r.progression == (if patch.progression.Some? then patch.progression.value else w.progression)
  {
    w.(plan := if patch.plan.Some? then patch.plan else w.plan,
       planName := patch.planName.GetOr(w.planName),
       exercises := if patch.exercises.Some? then CastEntries(patch.exercises.value) else w.exercises,
       startTime := if patch.startTime.Some? then patch.startTime else w.startTime,
       endTime := if patch.endTime.Some? then patch.endTime else w.endTime,
       totalPauseTime := patch.totalPauseTime.GetOr(w.totalPauseTime),
       skippedPauses := patch.skippedPauses.GetOr(w.skippedPauses),
       progression := patch.progression.GetOr(w.progression))
  }

  /** An empty body leaves a workout as it is. */
  lemma EmptyPatchChangesNothing(w: Workout)
    ensures ApplyPatch(w, WorkoutPatch(None, None, None, None, None, None, None, None)) == w
  {
  }

  /** The workouts collection, with the progress records and the exercises
      the routes consult. */
  class WorkoutRoutes {
    const store: WorkoutCollection
    var progress: seq<Progress>
    var catalog: seq<ExerciseModel.Exercise>

    constructor (store: WorkoutCollection, progress: seq<Progress>, catalog: seq<ExerciseModel.Exercise>)
      ensures this.store == store && this.progress == progress && this.catalog == catalog
    {
      this.store := store;
      this.progress := progress;
      this.catalog := catalog;
    }

    /** POST /: the created workout is appended; any refusal changes nothing. */
    method CreateWorkout(caller: Principal, input: WorkoutInput, newId: Id) returns (outcome: Result<Workout, Rejection>)
      modifies store
      ensures outcome == CreateOutcome(caller.id, input, newId, true)
      ensures outcome.Ok? ==> store.workouts == old(store.workouts) + [outcome.value]
      ensures outcome.Err? ==> store.workouts == old(store.workouts)
    {
      outcome := CreateOutcome(caller.id, input, newId, true);
      if outcome.Ok? {
        store.workouts := store.workouts + [outcome.value];
      }
    }

    /** POST /progress: the caller's record is rewritten in place, or one is
        created. A body without arrays to map is a 500; so is a record that
        fails validation; a `__v` other than the stored version is a 409. */
    method SaveProgress(caller: Principal, input: ProgressInput, newId: Id, now: Time) returns (reply: Reply)
      modifies this`progress
      ensures !ProgressMappable(input) ==> reply == Reply(500, ProgressSavePrefix + MapOfUndefined) && progress == old(progress)
      ensures var i := FindProgress(old(progress), caller.id);
        ProgressMappable(input) && i >= 0 ==>
          var d := UpdatedProgress(old(progress)[i], input, now);
          && (!ProgressConforms(d) ==> reply == Reply(500, ProgressSavePrefix + ProgressInvalid) && progress == old(progress))
          && (ProgressConforms(d) && input.version.Some? && input.version.value != d.version ==>
                reply == Reply(409, OutOfSync) && progress == old(progress))
          && (ProgressConforms(d) && (input.version.None? || input.version.value == d.version) ==>
                reply == Reply(200, ProgressSaved) && progress == old(progress)[i := d.(version := d.version + 1)])
      ensures ProgressMappable(input) && FindProgress(old(progress), caller.id) == -1 ==>
        var d := NewProgress(newId, caller.id, input, now);
        && (!ProgressConforms(d) ==> reply == Reply(500, ProgressSavePrefix + ProgressInvalid) && progress == old(progress))
        && (ProgressConforms(d) ==> reply == Reply(200, ProgressSaved) && progress == old(progress) + [d])
      ensures OnePerUser(old(progress)) ==> OnePerUser(progress)
    {
      if !ProgressMappable(input) {
        return Reply(500, ProgressSavePrefix + MapOfUndefined);
      }
      var i := FindProgress(progress, caller.id);
      if i >= 0 {
        var d := UpdatedProgress(progress[i], input, now);
        if !ProgressConforms(d) {
          return Reply(500, ProgressSavePrefix + ProgressInvalid);
        }
        if input.version.Some? && input.version.value != d.version {
          return Reply(409, OutOfSync);
        }
        progress := progress[i := d.(version := d.version + 1)];
        reply := Reply(200, ProgressSaved);
      } else {
        var d := NewProgress(newId, caller.id, input, now);
        if !ProgressConforms(d) {
          return Reply(500, ProgressSavePrefix + ProgressInvalid);
        }
        progress := progress + [d];
        reply := Reply(200, ProgressSaved);
      }
    }

    /** POST /progress/new: always creates a record, even when the caller
        already has one. */
    method CreateProgress(caller: Principal, input: ProgressInput, newId: Id, now: Time) returns (reply: Reply)
      modifies this`progress
      ensures !ProgressMappable(input) ==> reply == Reply(500, ProgressCreatePrefix + MapOfUndefined) && progress == old(progress)
      ensures ProgressMappable(input) ==>
        var d := NewProgress(newId, caller.id, input, now);
        && (!ProgressConforms(d) ==> reply == Reply(500, ProgressCreatePrefix + ProgressInvalid) && progress == old(progress))
        && (ProgressConforms(d) ==> reply == Reply(201, ProgressCreated) && progress == old(progress) + [d])
    {
      if !ProgressMappable(input) {
        return Reply(500, ProgressCreatePrefix + MapOfUndefined);
      }
      var d := NewProgress(newId, caller.id, input, now);
      if !ProgressConforms(d) {
        return Reply(500, ProgressCreatePrefix + ProgressInvalid);
      }
      progress := progress + [d];
      reply := Reply(201, ProgressCreated);
    }

    /** DELETE /progress: the caller's first record goes, if there is one. */
    method ClearProgress(caller: Principal) returns (reply: Reply)
      modifies this`progress
      ensures reply == Reply(200, ProgressCleared)
      ensures FindProgress(old(progress), caller.id) == -1 ==> progress == old(progress)
      ensures FindProgress(old(progress), caller.id) >= 0 ==> progress == Splice(old(progress), FindProgress(old(progress), caller.id))
      ensures OnePerUser(old(progress)) ==> forall k :: 0 <= k < |progress| ==> progress[k].user != caller.id
    {
      var i := FindProgress(progress, caller.id);
      if i >= 0 {
        ghost var before := progress;
        progress := Splice(progress, i);
        forall k | 0 <= k < |progress| && OnePerUser(before) ensures progress[k].user != caller.id {
          if k < i {
            assert progress[k] == before[k];
          } else {
            assert progress[k] == before[k + 1];
          }
        }
      }
      reply := Reply(200, ProgressCleared);
    }

    /** GET /progress: `findOne({ user })`, the caller's first record, or null. */
    function ActiveProgress(caller: Principal): (r: Option<Progress>)
      reads this
      ensures r.None? <==> forall k :: 0 <= k < |progress| ==> progress[k].user != caller.id
      ensures r.Some? ==> r.value in progress && r.value.user == caller.id
      ensures r.Some? ==> r.value == progress[FindProgress(progress, caller.id)]
      ensures r.Some? ==>
        exists i :: 0 <= i < |progress| && progress[i] == r.value && forall k :: 0 <= k < i ==> progress[k].user != caller.id
    {
      var i := FindProgress(progress, caller.id);
      if i >= 0 then Some(progress[i]) else None
    }

    /** GET /:id: the caller's own workout. */
    function GetWorkout(caller: Principal, workoutId: Id): (r: Result<Workout, Reply>)
      reads this, store
      ensures r.Ok? ==> r.value in store.workouts && r.value.id == workoutId && r.value.user == Some(caller.id)
      ensures r.Err? <==> FetchOwned(store.workouts, workoutId, caller.id).Err?
      ensures r == Err(Reply(404, WorkoutNotFound)) <==> forall w :: w in store.workouts ==> w.id != workoutId
    {
      var fetched := FetchOwned(store.workouts, workoutId, caller.id);
      if fetched.Err? then Err(fetched.error) else Ok(store.workouts[fetched.value])
    }

    /** PUT /:id: after `getWorkout`, the supplied fields are written and the
        result saved; a workout that then fails validation is a 400. */
    method UpdateWorkout(caller: Principal, workoutId: Id, patch: WorkoutPatch) returns (outcome: Result<Workout, Reply>)
      modifies store
      ensures var fetched := FetchOwned(old(store.workouts), workoutId, caller.id);
        && (fetched.Err? ==> outcome == Err(fetched.error) && store.workouts == old(store.workouts))
        && (fetched.Ok? ==>
              var w := ApplyPatch(old(store.workouts)[fetched.value], patch);
              && (WorkoutConforms(w) ==> outcome == Ok(w) && store.workouts == old(store.workouts)[fetched.value := w])
              && (!WorkoutConforms(w) ==> outcome == Err(Reply(400, UpdateFailed)) && store.workouts == old(store.workouts)))
    {
      var fetched := FetchOwned(store.workouts, workoutId, caller.id);
      if fetched.Err? {
        return Err(fetched.error);
      }
      var w := ApplyPatch(store.workouts[fetched.value], patch);
      if !WorkoutConforms(w) {
        return Err(Reply(400, UpdateFailed));
      }
      store.workouts := store.workouts[fetched.value := w];
      outcome := Ok(w);
    }

    /** DELETE /:id: after `getWorkout`, the workout goes. */
    method DeleteWorkout(caller: Principal, workoutId: Id) returns (reply: Reply)
      modifies store
      ensures var fetched := FetchOwned(old(store.workouts), workoutId, caller.id);
        && (fetched.Err? ==> reply == fetched.error && store.workouts == old(store.workouts))
        && (fetched.Ok? ==> reply == Reply(200, WorkoutDeleted) && store.workouts == Splice(old(store.workouts), fetched.value))
    {
      var fetched := FetchOwned(store.workouts, workoutId, caller.id);
      if fetched.Err? {
        return fetched.error;
      }
      store.workouts := Splice(store.workouts, fetched.value);
      reply := Reply(200, WorkoutDeleted);
    }
  }
}
