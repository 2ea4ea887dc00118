/** routes/exercises.js: which catalog exercises a user sees, how the
    user's overlay entries are laid over them, and the routes that create,
    edit, delete and restore exercises or edit the overlay. */
module Exercises {
  import opened Common
  import opened UserModel
  import opened ExerciseModel

  // Response messages; a 500 or 400 from a `catch` carries the error's own
  // text after its prefix.
  const UserNotFound: string := "User not found"
  const ExerciseNotFound: string := "Exercise not found"
  const ValidationPrefix: string := "Validation error: "
  const CreateFailed: string := "Error creating exercise"
  const FetchFailed: string := "Error fetching exercise"
  const UpdateFailed: string := "Error updating exercise"
  const DeleteFailed: string := "Error deleting exercise"
  const Deleted: string := "Exercise deleted successfully"
  const RemovedFromView: string := "Exercise removed from your view"
  const DeleteForbidden: string := "Not authorized to delete this exercise"
  const RecordNotFound: string := "Deleted exercise not found"
  const RestoreForbidden: string := "Not authorized to restore this exercise"
  const RestoreFailed: string := "Error restoring exercise"
  const Restored: string := "Exercise restored successfully"

  /** `target` in a request body: an array, a single string, or absent. */
  datatype TargetInput = Targets(items: seq<string>) | SingleTarget(item: string) | NoTarget

  /** The array stored for a `target` input: a single string becomes a
      one-element array. */
  function TargetArray(t: TargetInput): seq<string> {
    match t
    case Targets(items) => items
    case SingleTarget(item) => [item]
    case NoTarget => []
  }

  /** JavaScript truthiness of the `target` field: any array is truthy. */
  predicate TargetTruthy(t: TargetInput) {
    t.Targets? || (t.SingleTarget? && t.item != "")
  }

  /** The fields of a create or update request body. */
  datatype ExerciseInput = ExerciseInput(
    name: Option<string>,
    description: Option<string>,
    target: TargetInput,
    imageUrl: Option<string>,
    category: Option<string>,
    exerciseType: Option<string>,
    measurementType: Option<string>,
    recommendations: Option<LevelRecommendations>)

  /** A document of the DeletedExercise collection: a snapshot of a deleted
      or hidden exercise. `isDefault` is copied from a document that has no
      such path, so it is always stored as `false`. */
  datatype DeletedRecord = DeletedRecord(
    id: Id, exercise: Id, snapshot: Exercise, deletedBy: Id, deletedAt: Time, isDefault: bool)

  /** `parts.join(sep)`. */
  function Join(parts: seq<string>, sep: string): string {
    if parts == [] then ""
    else if |parts| == 1 then parts[0]
    else parts[0] + sep + Join(parts[1..], sep)
  }

  // ---------------------------------------------------------------------------
  // GET / and GET /:id

  /** The `find` filter of GET /. Its `user` and `isDefault` conditions name
      paths no stored exercise has, so the `$or` admits every document and
      only the caller's hidden list filters. */
  predicate Visible(e: Exercise, hidden: seq<Id>) {
    e.id !in hidden
  }

  /** The catalog entries GET / returns, in catalog order. */
  function VisibleExercises(catalog: seq<Exercise>, hidden: seq<Id>): (r: seq<Exercise>)
    ensures |r| <= |catalog|
    ensures forall e :: e in r <==> e in catalog && Visible(e, hidden)
  {
    if catalog == [] then []
    else
      var rest := VisibleExercises(catalog[1..], hidden);
      assert forall e :: e in catalog <==> e == catalog[0] || e in catalog[1..];
      if Visible(catalog[0], hidden) then [catalog[0]] + rest else rest
  }

  /** An exercise as GET / and GET /:id send it: the document's fields, some
      replaced by the overlay's, and the `recommendations` object the route
      adds when there is an overlay. */
  datatype ExerciseView = ExerciseView(shown: Exercise, recommendations: Option<LevelRecommendations>)

  /** `userExercise.recommendation`: a nested path, which reads as an object,
      empty when nothing in it is set. */
  function OverlayRecommendation(o: UserExercise): Recommendation {
    o.recommendation.GetOr(map[])
  }

  /** The overlay merge of GET / as written: `overlay.target || base.target`
      always takes the overlay's array, because an array is truthy even
      when empty. */
  function MergeOverlayAsWritten(e: Exercise, o: UserExercise, level: ExperienceLevel): (r: ExerciseView)
    ensures r.shown.id == e.id && r.shown.category == e.category
    ensures Truthy(o.name) ==> r.shown.name == o.name.value
    ensures !Truthy(o.name) ==> r.shown.name == e.name
    ensures Truthy(o.description) ==> r.shown.description == o.description.value
    ensures !Truthy(o.description) ==> r.shown.description == e.description
    ensures Truthy(o.imageUrl) ==> r.shown.imageUrl == o.imageUrl.value
    ensures !Truthy(o.imageUrl) ==> r.shown.imageUrl == e.imageUrl
    ensures r.shown.target == o.target
    ensures r.recommendations.Some? && r.recommendations.value.Keys == {LevelName(level)}
    ensures r.recommendations.value[LevelName(level)] == OverlayRecommendation(o)
  {
    ExerciseView(
      e.(name := OrElse(o.name, e.name),
         description := OrElse(o.description, e.description),
         target := o.target,
         imageUrl := OrElse(o.imageUrl, e.imageUrl)),
      Some(map[LevelName(level) := OverlayRecommendation(o)]))
  }

  /** An overlay created by PUT /:id/user-recommendation carries no target of
      its own, so the as-written merge shows an exercise with no target. */
  lemma OverlayWithoutTargetHidesBaseTarget(e: Exercise, level: ExperienceLevel, update: Recommendation)
    requires |e.target| > 0
    ensures var o := RecommendAsWritten([], e.id, update)[0];
      && o.exerciseId == e.id
      && MergeOverlayAsWritten(e, o, level).shown.target == []
      && !Conforms(MergeOverlayAsWritten(e, o, level).shown)
  {
  }

  /** The overlay merge with the evidently intended fallback: each shown
      field is the overlay's own value when it has one, else the catalog's. */
  function MergeOverlay(e: Exercise, o: UserExercise, level: ExperienceLevel): (r: ExerciseView)
    ensures r.shown.id == e.id && r.shown.category == e.category
    ensures Truthy(o.name) ==> r.shown.name == o.name.value
    ensures !Truthy(o.name) ==> r.shown.name == e.name
    ensures Truthy(o.description) ==> r.shown.description == o.description.value
    ensures !Truthy(o.description) ==> r.shown.description == e.description
    ensures Truthy(o.imageUrl) ==> r.shown.imageUrl == o.imageUrl.value
    ensures !Truthy(o.imageUrl) ==> r.shown.imageUrl == e.imageUrl
    ensures o.target != [] ==> r.shown.target == o.target
    ensures o.target == [] ==> r.shown.target == e.target
    ensures r.recommendations.Some? && r.recommendations.value.Keys == {LevelName(level)}
  {
    ExerciseView(
      e.(name := OrElse(o.name, e.name),
         description := OrElse(o.description, e.description),
         target := if o.target != [] then o.target else e.target,
         imageUrl := OrElse(o.imageUrl, e.imageUrl)),
      Some(map[LevelName(level) := OverlayRecommendation(o)]))
  }

  /** With the fallback, a catalog entry with a target is never shown without one. */
  lemma MergeOverlayKeepsTarget(e: Exercise, o: UserExercise, level: ExperienceLevel)
    requires |e.target| > 0
    ensures |MergeOverlay(e, o, level).shown.target| > 0
  {
  }

  /** The two merges differ only on an overlay with an empty target, and
      there only when the catalog entry has a target. */
  lemma MergesDifferOnlyOnEmptyTarget(e: Exercise, o: UserExercise, level: ExperienceLevel)
    ensures MergeOverlay(e, o, level) == MergeOverlayAsWritten(e, o, level) <==> o.target != [] || e.target == []
  {
    if o.target == [] && e.target != [] {
      assert MergeOverlay(e, o, level).shown.target != MergeOverlayAsWritten(e, o, level).shown.target;
    }
  }

  /** How one visible exercise is shown: merged (as written) with the
      user's first overlay entry for it, or the document as stored when
      there is none. */
  function ViewOf(e: Exercise, overlays: seq<UserExercise>, level: ExperienceLevel): (r: ExerciseView)
    ensures r.shown.id == e.id && r.shown.category == e.category
    ensures FindOverlay(overlays, e.id) == -1 ==> r == ExerciseView(e, None)
    ensures var i := FindOverlay(overlays, e.id);
      i >= 0 ==>
        && r.shown.target == overlays[i].target
        && r.shown.name == OrElse(overlays[i].name, e.name)
        && r.shown.description == OrElse(overlays[i].description, e.description)
        && r.shown.imageUrl == OrElse(overlays[i].imageUrl, e.imageUrl)
        && r.recommendations == Some(map[LevelName(level) := OverlayRecommendation(overlays[i])])
  {
    var i := FindOverlay(overlays, e.id);
    if i >= 0 then MergeOverlayAsWritten(e, overlays[i], level) else ExerciseView(e, None)
  }

  /** GET /: one view per visible exercise, in catalog order. */
  function ListView(catalog: seq<Exercise>, hidden: seq<Id>, overlays: seq<UserExercise>,
                    level: ExperienceLevel): (r: seq<ExerciseView>)
    ensures |r| == |VisibleExercises(catalog, hidden)|
    ensures forall k :: 0 <= k < |r| ==> r[k] == ViewOf(VisibleExercises(catalog, hidden)[k], overlays, level)
  {
    var visible := VisibleExercises(catalog, hidden);
    seq(|visible|, k requires 0 <= k < |visible| => ViewOf(visible[k], overlays, level))
  }

  /** The list shows exactly the visible exercises: every visible entry
      appears (as its view), every shown entry comes from a visible one, and
      no hidden exercise appears. */
  lemma ListShowsExactlyVisible(catalog: seq<Exercise>, hidden: seq<Id>,
                                overlays: seq<UserExercise>, level: ExperienceLevel)
    ensures var r := ListView(catalog, hidden, overlays, level);
      && (forall e :: e in catalog && Visible(e, hidden) ==> ViewOf(e, overlays, level) in r)
      && (forall v :: v in r ==> exists e :: e in catalog && Visible(e, hidden) && v == ViewOf(e, overlays, level))
      && (forall v :: v in r ==> v.shown.id !in hidden)
  {
    var visible := VisibleExercises(catalog, hidden);
    var r := ListView(catalog, hidden, overlays, level);
    forall e | e in catalog && Visible(e, hidden) ensures ViewOf(e, overlays, level) in r {
      var k :| 0 <= k < |visible| && visible[k] == e;
      assert r[k] == ViewOf(e, overlays, level);
    }
    forall v | v in r
      ensures exists e :: e in catalog && Visible(e, hidden) && v == ViewOf(e, overlays, level)
    {
      var k :| 0 <= k < |r| && r[k] == v;
      assert visible[k] in visible;
    }
  }

  /** GET /:id once exercise and user are found. With an overlay, the
      nested recommendation is always truthy, so the level's recommendation
      is the overlay's. Without one, the route reads the level from the
      document's `recommendations`, which a stored exercise does not have:
      the `TypeError` is reported as a 500. `baseRecommendations` is
      undefined either way and is left out of the reply. */
  function Detail(e: Exercise, overlay: Option<UserExercise>, level: ExperienceLevel): (r: Result<ExerciseView, Reply>)
    ensures r.Err? <==> overlay.None?
    ensures r.Err? ==> r.error == Reply(500, FetchFailed)
    ensures r.Ok? ==>
      && r.value.shown.id == e.id && r.value.shown.category == e.category
      && r.value.shown.target == overlay.value.target
      && r.value.shown.name == OrElse(overlay.value.name, e.name)
      && r.value.shown.description == OrElse(overlay.value.description, e.description)
      && r.value.shown.imageUrl == OrElse(overlay.value.imageUrl, e.imageUrl)
      && r.value.recommendations == Some(map[LevelName(level) := OverlayRecommendation(overlay.value)])
  {
    if overlay.None? then Err(Reply(500, FetchFailed))
    else
      var merged := MergeOverlayAsWritten(e, overlay.value, level);
      Ok(ExerciseView(merged.shown, Some(map[LevelName(level) := OverlayRecommendation(overlay.value)])))
  }

  /** GET /:id and GET / agree: an exercise the user has an overlay for is
      sent by GET /:id exactly as GET / lists it, and one without an overlay
      cannot be fetched at all. */
  lemma DetailAgreesWithList(e: Exercise, overlays: seq<UserExercise>, level: ExperienceLevel)
    ensures var i := FindOverlay(overlays, e.id);
      && (i >= 0 ==> Detail(e, Some(overlays[i]), level) == Ok(ViewOf(e, overlays, level)))
      && (i == -1 ==> Detail(e, None, level).Err?)
  {
  }

  // ---------------------------------------------------------------------------
  // POST /

  /** The document POST / builds. The route also passes the category's
      kinds, the caller as `user` and, for an admin, the recommendations;
      none of them is a schema path, so only these fields are stored. */
  function Draft(input: ExerciseInput, id: Id): (e: Exercise)
    ensures e.id == id && e.target == TargetArray(input.target)
    ensures e.name == Trim(input.name.GetOr("")) && e.description == Trim(input.description.GetOr(""))
    ensures e.imageUrl == if Truthy(input.imageUrl) then input.imageUrl.value else DefaultImageUrl
    ensures e.category == input.category.GetOr(DefaultCategory)
  {
    NewExercise(id, input.name, input.description, TargetArray(input.target), input.imageUrl, input.category)
  }

  /** The catalog half of POST /: a 400 listing the validators' messages,
      or the document to store. */
  function CatalogOutcome(input: ExerciseInput, id: Id): (r: Result<Exercise, Reply>)
    ensures r.Err? <==> !Conforms(Draft(input, id))
    ensures r.Err? ==> r.error.status == 400
    ensures r.Ok? ==> r.value == Draft(input, id)
  {
    var doc := Draft(input, id);
    var errors := ValidationErrors(doc);
    if errors != [] then Err(Reply(400, ValidationPrefix + Join(errors, ", "))) else Ok(doc)
  }

  /** What an overlay entry built from `recommendations[level]` stores: the
      declared keys of the level's recommendation, absent when the body has
      none for the level. */
  function LevelRecommendation(recs: LevelRecommendations, level: ExperienceLevel): (r: Option<Recommendation>)
    ensures r.Some? <==> LevelName(level) in recs
    ensures r.Some? ==> r.value == CastRecommendation(recs[LevelName(level)])
  {
    if LevelName(level) in recs then Some(CastRecommendation(recs[LevelName(level)])) else None
  }

  // ---------------------------------------------------------------------------
  // PUT /:id by a non-admin

  /** A new overlay entry: each given field, else the catalog's value; the
      level's recommendation from the body, else `{}`, since the catalog
      document has no recommendations to fall back on. */
  function NewOverlay(e: Exercise, input: ExerciseInput, level: ExperienceLevel): (r: UserExercise)
    ensures r.exerciseId == e.id
    ensures r.name == Some(OrElse(input.name, e.name))
    ensures r.description == Some(OrElse(input.description, e.description))
    ensures r.imageUrl == Some(OrElse(input.imageUrl, e.imageUrl))
    ensures TargetTruthy(input.target) ==> r.target == TargetArray(input.target)
    ensures !TargetTruthy(input.target) ==> r.target == e.target
    ensures var key := LevelName(level);
      && (input.recommendations.Some? && key in input.recommendations.value ==>
            r.recommendation == Some(CastRecommendation(input.recommendations.value[key])))
      && (input.recommendations.None? || key !in input.recommendations.value ==>
            r.recommendation == Some(map[]))
  {
    var fromBody := if input.recommendations.Some? then LevelRecommendation(input.recommendations.value, level) else None;
    UserExercise(
      e.id,
      Some(OrElse(input.name, e.name)),
      Some(OrElse(input.description, e.description)),
      if TargetTruthy(input.target) then TargetArray(input.target) else e.target,
      Some(OrElse(input.imageUrl, e.imageUrl)),
      Some(fromBody.GetOr(map[])))
  }

  /** An existing overlay entry updated: falsy fields keep their old value;
      the recommendation is merged only when the body has one for the level. */
  function RefreshOverlay(o: UserExercise, input: ExerciseInput, level: ExperienceLevel): (r: UserExercise)
    ensures r.exerciseId == o.exerciseId
    ensures r.name == (if Truthy(input.name) then input.name else o.name)
    ensures r.description == (if Truthy(input.description) then input.description else o.description)
    ensures r.imageUrl == (if Truthy(input.imageUrl) then input.imageUrl else o.imageUrl)
    ensures r.target == (if TargetTruthy(input.target) then TargetArray(input.target) else o.target)
    ensures var key := LevelName(level);
      && (input.recommendations.Some? && key in input.recommendations.value ==>
            && r.recommendation.Some?
            && Declared(r.recommendation.value)
            && (forall k :: k in input.recommendations.value[key] && k in RecommendationPaths ==>
                  k in r.recommendation.value && r.recommendation.value[k] == input.recommendations.value[key][k])
            && (forall k :: o.recommendation.Some? && k in o.recommendation.value && k in RecommendationPaths
                            && k !in input.recommendations.value[key] ==>
                  k in r.recommendation.value && r.recommendation.value[k] == o.recommendation.value[k]))
      && (input.recommendations.None? || key !in input.recommendations.value ==> r.recommendation == o.recommendation)
  {
    o.(name := if Truthy(input.name) then input.name else o.name,
       description := if Truthy(input.description) then input.description else o.description,
       target := if TargetTruthy(input.target) then TargetArray(input.target) else o.target,
       imageUrl := if Truthy(input.imageUrl) then input.imageUrl else o.imageUrl,
       recommendation :=
         if input.recommendations.Some? && LevelName(level) in input.recommendations.value
         then Some(MergeRecommendation(o.recommendation, input.recommendations.value[LevelName(level)]))
         else o.recommendation)
  }

  /** The user's overlay list after a non-admin PUT /:id. */
  function PutOverlay(entries: seq<UserExercise>, e: Exercise, input: ExerciseInput, level: ExperienceLevel)
    : (r: seq<UserExercise>)
    ensures FindOverlay(entries, e.id) == -1 ==>
      && |r| == |entries| + 1 && r[..|entries|] == entries
      && r[|entries|].exerciseId == e.id
      && r[|entries|].name == Some(if Truthy(input.name) then input.name.value else e.name)
      && r[|entries|].target == (if TargetTruthy(input.target) then TargetArray(input.target) else e.target)
      && r[|entries|].recommendation.Some?
    ensures var j := FindOverlay(entries, e.id);
      j >= 0 ==>
        && |r| == |entries|
        && (forall k :: 0 <= k < |r| && k != j ==> r[k] == entries[k])
        && r[j].exerciseId == e.id
        && (!Truthy(input.name) ==> r[j].name == entries[j].name)
        && (!Truthy(input.description) ==> r[j].description == entries[j].description)
        && (!TargetTruthy(input.target) ==> r[j].target == entries[j].target)
        && (!Truthy(input.imageUrl) ==> r[j].imageUrl == entries[j].imageUrl)
        && ((input.recommendations.None? || LevelName(level) !in input.recommendations.value) ==>
              r[j].recommendation == entries[j].recommendation)
    ensures FindOverlay(entries, e.id) == -1 ==> r[|entries|] == NewOverlay(e, input, level)
    ensures FindOverlay(entries, e.id) >= 0 ==> r[FindOverlay(entries, e.id)] == RefreshOverlay(entries[FindOverlay(entries, e.id)], input, level)
  {
    var j := FindOverlay(entries, e.id);
    if j == -1 then entries + [NewOverlay(e, input, level)]
    else entries[j := RefreshOverlay(entries[j], input, level)]
  }

  /** PUT /:id by an admin: the body's fields are assigned, an absent one
      unsetting the path. `exerciseType`, `measurementType` and
      `recommendations` are assigned too, but as plain properties outside the
      schema, so the saved document does not keep them. */
  function AdminAssign(e: Exercise, input: ExerciseInput): (r: Exercise)
    ensures r.id == e.id
    ensures r.name == Trim(input.name.GetOr("")) && r.description == Trim(input.description.GetOr(""))
    ensures r.target == TargetArray(input.target)
    ensures r.imageUrl == input.imageUrl.GetOr("") && r.category == input.category.GetOr("")
  {
    e.(name := Trim(input.name.GetOr("")),
       description := Trim(input.description.GetOr("")),
       target := TargetArray(input.target),
       imageUrl := input.imageUrl.GetOr(""),
       category := input.category.GetOr(""))
  }

  /** An admin's PUT /:id saves exactly when the body itself carries a
      valid name, description, target and category: nothing of the stored
      exercise survives an absent field. */
  lemma AdminAssignConforms(e: Exercise, input: ExerciseInput)
    ensures Conforms(AdminAssign(e, input)) <==>
      && 0 < |Trim(input.name.GetOr(""))| <= NameMaxLength
      && 0 < |Trim(input.description.GetOr(""))| <= DescriptionMaxLength
      && |TargetArray(input.target)| > 0
      && input.category.Some? && input.category.value in Categories
  {
    assert "" !in Categories;
  }

  // ---------------------------------------------------------------------------
  // DELETE /:id

  datatype DeleteKind = HardDelete | HideOnly | Refuse

  /** The permission test of DELETE /:id, given the stored user's `isAdmin`
      and what the route reads as the exercise's `isDefault` and `user`: an
      admin or the owner of a non-default exercise deletes it, a default
      exercise is only hidden, and anyone else is refused. */
  function DeleteDecision(storedAdmin: bool, isDefault: bool, owner: Option<Id>, callerId: Id): (r: DeleteKind)
    ensures r == HardDelete <==> storedAdmin || (!isDefault && owner == Some(callerId))
    ensures r == Refuse <==> !storedAdmin && !isDefault && owner != Some(callerId)
    ensures r == HideOnly <==> !storedAdmin && isDefault
  {
    if storedAdmin || (!isDefault && owner.Some? && owner.value == callerId) then HardDelete
    else if isDefault then HideOnly
    else Refuse
  }

  /** The test as the route runs it: a loaded exercise has neither `isDefault`
      nor `user`, so both read as undefined. Only an admin deletes; anyone
      else is refused, the creator of the exercise included. */
  lemma CreatorCannotDeleteOwnExercise(input: ExerciseInput, id: Id, callerId: Id)
    ensures var stored := Draft(input, id);
      && stored.id == id
      && DeleteDecision(false, false, None, callerId) == Refuse
      && DeleteDecision(false, false, Some(callerId), callerId) == HardDelete
    ensures forall admin :: DeleteDecision(admin, false, None, callerId) == (if admin then HardDelete else Refuse)
  {
  }

  /** What DELETE /:id does to the catalog once the exercise is hidden. */
  function Decided(d: DeleteKind, exercises: seq<Exercise>, j: nat): (r: (Reply, seq<Exercise>))
    requires j < |exercises|
    ensures r.0.status == 403 <==> d.Refuse?
    ensures r.0.status == 200 <==> !d.Refuse?
    ensures r.0.message == Deleted <==> d.HardDelete?
    ensures d.HideOnly? ==> r.0.message == RemovedFromView
    ensures d.Refuse? ==> r.0.message == DeleteForbidden
    ensures !d.HardDelete? ==> r.1 == exercises
    ensures d.HardDelete? ==>
      && |r.1| == |exercises| - 1
      && multiset(r.1) == multiset(exercises) - multiset{exercises[j]}
      && r.1[..j] == exercises[..j] && r.1[j..] == exercises[j + 1..]
  {
    assert exercises == exercises[..j] + [exercises[j]] + exercises[j + 1..];
    match d
    case HardDelete => (Reply(200, Deleted), Splice(exercises, j))
    case HideOnly => (Reply(200, RemovedFromView), exercises)
    case Refuse => (Reply(403, DeleteForbidden), exercises)
  }

  /** `$pull`: every occurrence of `id` goes, the rest stays in order. */
  function PullAll(ids: seq<Id>, id: Id): (r: seq<Id>)
    ensures id !in r
    ensures forall x :: x != id ==> multiset(r)[x] == multiset(ids)[x]
  {
    if ids == [] then []
    else
      assert ids == [ids[0]] + ids[1..];
      (if ids[0] == id then [] else [ids[0]]) + PullAll(ids[1..], id)
  }

  /** Index of the archive record with id `id`, or -1. */
  function FindRecord(archive: seq<DeletedRecord>, id: Id): (i: int)
    ensures -1 <= i < |archive|
    ensures i == -1 <==> forall k :: 0 <= k < |archive| ==> archive[k].id != id
    ensures 0 <= i ==> archive[i].id == id
  {
    FindFirst(archive, (r: DeletedRecord) => r.id == id)
  }

  // ---------------------------------------------------------------------------
  // PUT /:id/user-recommendation

  /** The overlay list after PUT /:id/user-recommendation, as the route
      writes it. With an entry for the exercise, the body is merged into that
      entry's recommendation. Without one, a plain object with an empty
      recommendation is pushed; the push stores a converted copy, so the merge
      that follows lands on the route's local object and the stored entry
      keeps the empty recommendation. */
  function RecommendAsWritten(entries: seq<UserExercise>, exerciseId: Id, update: Recommendation): seq<UserExercise>
  {
    if FindOverlay(entries, exerciseId) >= 0 then UpsertRecommendation(entries, exerciseId, update)
    else entries + [UserExercise(exerciseId, None, None, [], None, Some(map[]))]
  }

  /** With an entry for the exercise, the route does what the model's
      `updateExerciseRecommendation` does: the entry holds every declared key
      sent, and no undeclared one. */
  lemma RecommendAsWrittenWithOverlay(entries: seq<UserExercise>, exerciseId: Id, update: Recommendation)
    requires FindOverlay(entries, exerciseId) >= 0
    ensures RecommendAsWritten(entries, exerciseId, update) == UpsertRecommendation(entries, exerciseId, update)
    ensures var r := RecommendAsWritten(entries, exerciseId, update);
      var i := FindOverlay(r, exerciseId);
      && i >= 0 && r[i].recommendation.Some?
      && Declared(r[i].recommendation.value)
      && forall key :: key in update && key in RecommendationPaths ==>
           key in r[i].recommendation.value && r[i].recommendation.value[key] == update[key]
  {
    UpsertRecommendationHolds(entries, exerciseId, update);
  }

  /** The overlay writers of PUT /:id and PUT /:id/user-recommendation store
      declared recommendation keys only: an overlay list that had none
      undeclared still has none. */
  lemma OverlayWritersKeepDeclared(entries: seq<UserExercise>, e: Exercise, input: ExerciseInput, level: ExperienceLevel,
                                   exerciseId: Id, update: Recommendation)
    requires OverlaysDeclared(entries)
    ensures OverlaysDeclared(PutOverlay(entries, e, input, level))
    ensures OverlaysDeclared(RecommendAsWritten(entries, exerciseId, update))
  {
    UpsertRecommendationHolds(entries, exerciseId, update);
  }

  /** Without an entry, the first recommendation sent for an exercise is
      lost: an entry for the exercise is appended, but it holds none of the
      keys sent, although the reply shows them all. */
  lemma {:induction false} FirstRecommendationIsLost(entries: seq<UserExercise>, exerciseId: Id, update: Recommendation)
    requires FindOverlay(entries, exerciseId) == -1
    ensures var r := RecommendAsWritten(entries, exerciseId, update);
      && |r| == |entries| + 1 && r[..|entries|] == entries
      && FindOverlay(r, exerciseId) == |entries|
      && r[|entries|].recommendation == Some(map[])
      && forall key :: key in update ==> key !in r[|entries|].recommendation.value
  {
    var r := RecommendAsWritten(entries, exerciseId, update);
    FindOverlayFirst(r, exerciseId, |entries|);
  }

  /** Who may restore an archived exercise: an admin, or whoever deleted it. */
  predicate MayRestore(caller: Principal, record: DeletedRecord) {
    caller.isAdmin || record.deletedBy == caller.id
  }

  /** The exercise catalog, the DeletedExercise archive and the users
      collection. */
  class ExerciseService {
    var exercises: seq<Exercise>
    var archive: seq<DeletedRecord>
    var users: seq<User>

    /** `_id` is unique among users, so distinct entries are distinct objects. */
    ghost predicate Valid()
      reads this
    {
      DistinctIds(users)
    }

    constructor (exercises: seq<Exercise>, users: seq<User>)
      requires DistinctIds(users)
      ensures Valid()
      ensures this.exercises == exercises && this.users == users && archive == []
    {
      this.exercises := exercises;
      this.users := users;
      archive := [];
    }

    /** GET /: 404 for an unknown caller, else the visible exercises with the
        caller's overlays laid over them. */
    function ListExercises(caller: Principal): (r: Result<seq<ExerciseView>, Reply>)
      reads this, users
      ensures r.Err? <==> FindById(users, caller.id) == -1
      ensures r.Err? ==> r.error == Reply(404, UserNotFound)
      ensures r.Ok? ==>
        var u := users[FindById(users, caller.id)];
        r.value == ListView(exercises, u.deletedExercises, u.userExercises, u.experienceLevel)
    {
      var i := FindById(users, caller.id);
      if i == -1 then Err(Reply(404, UserNotFound))
      else Ok(ListView(exercises, users[i].deletedExercises, users[i].userExercises, users[i].experienceLevel))
    }

    /** GET /:id: 404 for an unknown exercise; an unknown caller makes the
        route throw (500); otherwise the detail view, which exists exactly
        when the caller has an overlay for the exercise. */
    function GetExercise(caller: Principal, exerciseId: Id): (r: Result<ExerciseView, Reply>)
      reads this, users
      ensures FindExercise(exercises, exerciseId) == -1 ==> r == Err(Reply(404, ExerciseNotFound))
      ensures FindExercise(exercises, exerciseId) >= 0 && FindById(users, caller.id) == -1 ==>
        r == Err(Reply(500, FetchFailed))
      ensures r.Ok? ==> r.value.shown.id == exerciseId
      ensures var j := FindExercise(exercises, exerciseId);
        var i := FindById(users, caller.id);
        j >= 0 && i >= 0 ==> (r.Ok? <==> FindOverlay(users[i].userExercises, exerciseId) >= 0)
      ensures var j := FindExercise(exercises, exerciseId);
        var i := FindById(users, caller.id);
        j >= 0 && i >= 0 ==>
          var k := FindOverlay(users[i].userExercises, exerciseId);
          r == Detail(exercises[j], if k >= 0 then Some(users[i].userExercises[k]) else None, users[i].experienceLevel)
    {
      var j := FindExercise(exercises, exerciseId);
      if j == -1 then Err(Reply(404, ExerciseNotFound))
      else
        var i := FindById(users, caller.id);
        if i == -1 then Err(Reply(500, FetchFailed))
        else
          var k := FindOverlay(users[i].userExercises, exerciseId);
          Detail(exercises[j], if k >= 0 then Some(users[i].userExercises[k]) else None, users[i].experienceLevel)
    }

    /** POST /. A document that fails validation is a 400 listing the
        messages; otherwise it is saved (its owner is not kept), and a non-admin who sent
        recommendations gets an overlay entry holding the one for their
        level (a caller with no user document then gets a 500, the exercise
        staying saved). */
    method CreateExercise(caller: Principal, input: ExerciseInput, newId: Id) returns (reply: Reply)
      requires Valid()
      modifies this`exercises, users
      ensures Valid() && users == old(users) && archive == old(archive)
      ensures var out := CatalogOutcome(input, newId);
        && (out.Err? ==> reply == out.error && exercises == old(exercises))
        && (out.Ok? ==> exercises == old(exercises) + [out.value])
      ensures var i := FindById(users, caller.id);
        |exercises| > |old(exercises)| && !caller.isAdmin && input.recommendations.Some? ==>
          && (i == -1 ==> reply == Reply(500, CreateFailed))
          && (i >= 0 ==>
                && reply.status == 201
                && users[i].userExercises == old(users[i].userExercises) +
                   [UserExercise(newId, None, None, [], None,
                                 LevelRecommendation(input.recommendations.value, old(users[i].experienceLevel)))]
                && users[i].Account() == old(users[i].Account()) && users[i].Hidden() == old(users[i].Hidden())
                && users[i].Ledger() == old(users[i].Ledger()) && users[i].Verification() == old(users[i].Verification()))
      ensures |exercises| > |old(exercises)| && (caller.isAdmin || input.recommendations.None?) ==> reply.status == 201
      ensures reply.status != 201 || caller.isAdmin || input.recommendations.None? ==>
        forall k :: 0 <= k < |users| ==> unchanged(users[k])
      ensures forall k :: 0 <= k < |users| && k != FindById(users, caller.id) ==> unchanged(users[k])
    {
      var out := StoreDraft(input, newId);
      if out.Err? {
        return out.error;
      }
      if !caller.isAdmin && input.recommendations.Some? {
        var i := FindById(users, caller.id);
        if i == -1 {
          reply := Reply(500, CreateFailed);
          return;
        }
        var entry := UserExercise(newId, None, None, [], None,
                                  LevelRecommendation(input.recommendations.value, users[i].experienceLevel));
        AppendOverlay(i, entry);
      }
      reply := Reply(201, "");
    }

    /** The catalog half of POST /: the document is stored when it passes
        validation. */
    method StoreDraft(input: ExerciseInput, newId: Id) returns (out: Result<Exercise, Reply>)
      modifies this`exercises
      ensures out == CatalogOutcome(input, newId)
      ensures out.Err? ==> exercises == old(exercises)
      ensures out.Ok? ==> exercises == old(exercises) + [out.value]
    {
      out := CatalogOutcome(input, newId);
      if out.Ok? {
        exercises := exercises + [out.value];
      }
    }

    /** One user's overlay list gains an entry; nobody else changes. */
    method AppendOverlay(i: nat, entry: UserExercise)
      requires Valid() && i < |users|
      modifies (users[i] as User)`userExercises
      ensures users[i].userExercises == old(users[i].userExercises) + [entry]
      ensures users[i].Account() == old(users[i].Account()) && users[i].Hidden() == old(users[i].Hidden())
      ensures users[i].Ledger() == old(users[i].Ledger()) && users[i].Verification() == old(users[i].Verification())
      ensures forall k :: 0 <= k < |users| && k != i ==> unchanged(users[k])
    {
      var user := users[i];
      user.userExercises := user.userExercises + [entry];
    }

    /** One user hides an exercise: its id joins the hidden list once, and a
        detail line records when; nobody else changes. */
    method HideFor(i: nat, exerciseId: Id, now: Time)
      requires Valid() && i < |users|
      modifies (users[i] as User)`deletedExercises, (users[i] as User)`deletedExercisesDetails
      ensures users[i].deletedExercises == AddToSet(old(users[i].deletedExercises), exerciseId)
      ensures users[i].deletedExercisesDetails == old(users[i].deletedExercisesDetails) + [DeletedDetail(exerciseId, now)]
      ensures forall k :: 0 <= k < |users| && k != i ==> unchanged(users[k])
    {
      var user := users[i];
      user.deletedExercises := AddToSet(user.deletedExercises, exerciseId);
      user.deletedExercisesDetails := user.deletedExercisesDetails + [DeletedDetail(exerciseId, now)];
    }

    /** PUT /:id. An admin rewrites the catalog entry (a 400 when the result
        fails validation); anyone else only ever touches their own overlay
        entry, never the catalog. */
    method UpdateExercise(caller: Principal, exerciseId: Id, input: ExerciseInput) returns (reply: Reply)
      requires Valid()
      modifies this`exercises, users
      ensures Valid() && users == old(users) && archive == old(archive)
      ensures FindExercise(old(exercises), exerciseId) == -1 ==>
        reply == Reply(404, ExerciseNotFound) && exercises == old(exercises)
      ensures !caller.isAdmin ==> exercises == old(exercises)
      ensures var j := FindExercise(old(exercises), exerciseId);
        caller.isAdmin && j >= 0 ==>
          var doc := AdminAssign(old(exercises)[j], input);
          && (Conforms(doc) ==> reply.status == 200 && exercises == old(exercises)[j := doc])
          && (!Conforms(doc) ==> reply == Reply(400, UpdateFailed) && exercises == old(exercises))
      ensures var j := FindExercise(old(exercises), exerciseId);
        var i := FindById(users, caller.id);
        !caller.isAdmin && j >= 0 ==>
          && (i == -1 ==> reply == Reply(400, UpdateFailed))
          && (i >= 0 ==>
                && reply.status == 200
                && users[i].userExercises
                   == PutOverlay(old(users[i].userExercises), old(exercises)[j], input, old(users[i].experienceLevel))
                && users[i].Account() == old(users[i].Account()) && users[i].Hidden() == old(users[i].Hidden())
                && users[i].Ledger() == old(users[i].Ledger()) && users[i].Verification() == old(users[i].Verification()))
      ensures forall k :: 0 <= k < |users| && (caller.isAdmin || k != FindById(users, caller.id)) ==>
        unchanged(users[k])
    {
      var j := FindExercise(exercises, exerciseId);
      if j == -1 {
        reply := Reply(404, ExerciseNotFound);
      } else if caller.isAdmin {
        var doc := AdminAssign(exercises[j], input);
        if Conforms(doc) {
          exercises := exercises[j := doc];
          reply := Reply(200, "");
        } else {
          reply := Reply(400, UpdateFailed);
        }
      } else {
        var i := FindById(users, caller.id);
        if i == -1 {
          reply := Reply(400, UpdateFailed);
        } else {
          var user := users[i];
          user.userExercises := PutOverlay(user.userExercises, exercises[j], input, user.experienceLevel);
          reply := Reply(200, "");
        }
      }
    }

    /** DELETE /:id. Before any permission check the exercise is archived
        and hidden for the caller; then the permission test runs on a
        document without `isDefault` or `user`, so the stored user's admin
        flag deletes it and anyone else gets a 403 (still hidden). */
    method DeleteExercise(caller: Principal, exerciseId: Id, recordId: Id, now: Time) returns (reply: Reply)
      requires Valid()
      modifies this`exercises, this`archive, users
      ensures Valid() && users == old(users)
      ensures FindExercise(old(exercises), exerciseId) == -1 ==>
        && reply == Reply(404, ExerciseNotFound)
        && exercises == old(exercises) && archive == old(archive)
      ensures FindExercise(old(exercises), exerciseId) >= 0 && FindById(users, caller.id) == -1 ==>
        && reply == Reply(500, DeleteFailed)
        && exercises == old(exercises) && archive == old(archive)
      ensures var j := FindExercise(old(exercises), exerciseId);
        var i := FindById(users, caller.id);
        j >= 0 && i >= 0 ==>
          var e := old(exercises)[j];
          && archive == old(archive) + [DeletedRecord(recordId, exerciseId, e, caller.id, now, false)]
          && users[i].deletedExercises == AddToSet(old(users[i].deletedExercises), exerciseId)
          && users[i].deletedExercisesDetails == old(users[i].deletedExercisesDetails) + [DeletedDetail(exerciseId, now)]
          && (reply, exercises) == Decided(DeleteDecision(old(users[i].isAdmin), false, None, caller.id), old(exercises), j)
          && users[i].Account() == old(users[i].Account()) && users[i].userExercises == old(users[i].userExercises)
          && users[i].deletedWorkoutPlans == old(users[i].deletedWorkoutPlans)
          && users[i].Ledger() == old(users[i].Ledger()) && users[i].Verification() == old(users[i].Verification())
      ensures forall k :: 0 <= k < |users| && k != FindById(users, caller.id) ==> unchanged(users[k])
    {
      var j := FindExercise(exercises, exerciseId);
      if j == -1 {
        reply := Reply(404, ExerciseNotFound);
        return;
      }
      var i := FindById(users, caller.id);
      if i == -1 {
        reply := Reply(500, DeleteFailed);
        return;
      }
      var e := exercises[j];
      archive := archive + [DeletedRecord(recordId, exerciseId, e, users[i].id, now, false)];
      HideFor(i, exerciseId, now);
      var outcome := Decided(DeleteDecision(users[i].isAdmin, false, None, caller.id), exercises, j);
      reply := outcome.0;
      exercises := outcome.1;
    }

    /** POST /restore/:id. Only an admin or the user who deleted it may
        restore an archived exercise. The snapshot keeps its `_id`, so
        restoring an exercise that was only hidden clashes with the stored
        one (a 500), as does a snapshot that fails validation. A non-admin's
        hidden list loses the id; the archive record goes. */
    method RestoreExercise(caller: Principal, recordId: Id) returns (reply: Reply)
      requires Valid()
      modifies this`exercises, this`archive, users
      ensures Valid() && users == old(users)
      ensures FindRecord(old(archive), recordId) == -1 ==>
        reply == Reply(404, RecordNotFound) && exercises == old(exercises) && archive == old(archive)
      ensures var r := FindRecord(old(archive), recordId);
        r >= 0 && !MayRestore(caller, old(archive)[r]) ==>
          reply == Reply(403, RestoreForbidden) && exercises == old(exercises) && archive == old(archive)
      ensures var r := FindRecord(old(archive), recordId);
        r >= 0 && MayRestore(caller, old(archive)[r]) ==>
          var snapshot := old(archive)[r].snapshot;
          && (FindExercise(old(exercises), snapshot.id) >= 0 || !Conforms(snapshot) ==>
                reply == Reply(500, RestoreFailed) && exercises == old(exercises) && archive == old(archive))
          && (FindExercise(old(exercises), snapshot.id) == -1 && Conforms(snapshot) ==>
                && reply == Reply(200, Restored)
                && exercises == old(exercises) + [snapshot]
                && archive == Splice(old(archive), r))
      ensures reply.status == 200 && !caller.isAdmin && FindById(users, caller.id) >= 0 ==>
        var i := FindById(users, caller.id);
        var r := FindRecord(old(archive), recordId);
        && users[i].deletedExercises == PullAll(old(users[i].deletedExercises), old(archive)[r].exercise)
        && old(archive)[r].exercise !in users[i].deletedExercises
        && users[i].Account() == old(users[i].Account()) && users[i].userExercises == old(users[i].userExercises)
        && users[i].deletedExercisesDetails == old(users[i].deletedExercisesDetails)
        && users[i].deletedWorkoutPlans == old(users[i].deletedWorkoutPlans)
        && users[i].Ledger() == old(users[i].Ledger()) && users[i].Verification() == old(users[i].Verification())
      ensures forall k :: 0 <= k < |users| && (caller.isAdmin || reply.status != 200 || k != FindById(users, caller.id)) ==>
        unchanged(users[k])
    {
      var r := FindRecord(archive, recordId);
      if r == -1 {
        reply := Reply(404, RecordNotFound);
        return;
      }
      var record := archive[r];
      if !MayRestore(caller, record) {
        reply := Reply(403, RestoreForbidden);
        return;
      }
      if FindExercise(exercises, record.snapshot.id) >= 0 || !Conforms(record.snapshot) {
        reply := Reply(500, RestoreFailed);
        return;
      }
      exercises := exercises + [record.snapshot];
      if !caller.isAdmin {
        var i := FindById(users, caller.id);
        if i >= 0 {
          var user := users[i];
          user.deletedExercises := PullAll(user.deletedExercises, record.exercise);
        }
      }
      archive := Splice(archive, r);
      reply := Reply(200, Restored);
    }

    /** PUT /:id/user-recommendation: 404 for an unknown caller, then for an
        unknown exercise; otherwise the caller's overlay list is written as
        `RecommendAsWritten` says, and the reply shows `shown`: with an entry,
        the merged recommendation as stored, declared keys only; without one,
        the route's plain object, so every key sent. */
    method UpdateUserRecommendation(caller: Principal, exerciseId: Id, body: Recommendation)
      returns (reply: Reply, shown: Recommendation)
      requires Valid()
      modifies users
      ensures Valid()
      ensures FindById(users, caller.id) == -1 ==> reply == Reply(404, UserNotFound)
      ensures FindById(users, caller.id) >= 0 && FindExercise(exercises, exerciseId) == -1 ==>
        reply == Reply(404, ExerciseNotFound)
      ensures var i := FindById(users, caller.id);
        i >= 0 && FindExercise(exercises, exerciseId) >= 0 ==>
          var before := old(users[i].userExercises);
          var k := FindOverlay(before, exerciseId);
          && reply.status == 200
          && users[i].userExercises == RecommendAsWritten(before, exerciseId, body)
          && shown == (if k >= 0 then MergeRecommendation(before[k].recommendation, body) else body)
          && users[i].Account() == old(users[i].Account()) && users[i].Hidden() == old(users[i].Hidden())
          && users[i].Ledger() == old(users[i].Ledger()) && users[i].Verification() == old(users[i].Verification())
      ensures forall k :: 0 <= k < |users| && (reply.status != 200 || k != FindById(users, caller.id)) ==>
        unchanged(users[k])
    {
      shown := map[];
      var i := FindById(users, caller.id);
      if i == -1 {
        reply := Reply(404, UserNotFound);
      } else if FindExercise(exercises, exerciseId) == -1 {
        reply := Reply(404, ExerciseNotFound);
      } else {
        var user := users[i];
        var k := FindOverlay(user.userExercises, exerciseId);
        shown := if k >= 0 then MergeRecommendation(user.userExercises[k].recommendation, body) else body;
        user.userExercises := RecommendAsWritten(user.userExercises, exerciseId, body);
        reply := Reply(200, "");
      }
    }
  }
}
