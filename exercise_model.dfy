/** models/Exercise.js: a catalog exercise, its validators and defaults.
    The schema is strict and declares only the five paths below: the
    `user`, `isDefault`, `recommendations`, `exerciseType` and
    `measurementType` that the routes pass to it are dropped before the
    document is saved, and a loaded document has none of them. */
module ExerciseModel {
  import opened Common
  import opened UserModel

  const NameMaxLength: nat := 50
  const DescriptionMaxLength: nat := 500
  const DefaultImageUrl: string := "https://www.inspireusafoundation.org/wp-content/uploads/2023/03/barbell-bench-press-side-view.gif"
  const Categories: set<string> := {"Strength", "Cardio", "Flexibility"}
  const DefaultCategory: string := "Strength"

  // Validator messages, one per failing path.
  const NameRequired: string := "Exercise name is required"
  const NameTooLong: string := "Name cannot be more than 50 characters"
  const DescriptionRequired: string := "Exercise description is required"
  const DescriptionTooLong: string := "Description cannot be more than 500 characters"
  const TargetEmpty: string := "At least one target muscle group must be specified"
  const CategoryRequired: string := "Exercise category is required"

  /** Mongoose's default message for a value outside an `enum`. */
  function CategoryNotInEnum(value: string): string {
    "`" + value + "` is not a valid enum value for path `category`."
  }

  /** Recommendations keyed by experience-level name, as request bodies
      and replies carry them. */
  type LevelRecommendations = map<string, Recommendation>

  /** A stored exercise: the schema's paths only. An unset string path is "". */
  datatype Exercise = Exercise(
    id: Id,
    name: string,
    description: string,
    target: seq<string>,
    imageUrl: string,
    category: string)

  /** What a document must satisfy to be saved. */
  predicate Conforms(e: Exercise) {
    && 0 < |e.name| <= NameMaxLength
    && 0 < |e.description| <= DescriptionMaxLength
    && |e.target| > 0
    && e.category in Categories
  }

  /** `required` then `maxlength` on a trimmed string path. */
  function LengthError(value: string, maxLength: nat, required: string, tooLong: string): (r: Option<string>)
    ensures r == None <==> 0 < |value| <= maxLength
    ensures value == "" ==> r == Some(required)
    ensures |value| > maxLength ==> r == Some(tooLong)
  {
    if value == "" then Some(required)
    else if |value| > maxLength then Some(tooLong)
    else None
  }

  function CategoryError(category: string): (r: Option<string>)
    ensures r == None <==> category in Categories
    ensures category == "" ==> r == Some(CategoryRequired)
    ensures category != "" && category !in Categories ==> r == Some(CategoryNotInEnum(category))
  {
    if category == "" then Some(CategoryRequired)
    else if category !in Categories then Some(CategoryNotInEnum(category))
    else None
  }

  /** The message of one validator, if it failed. */
  function Message(error: Option<string>): (r: seq<string>)
    ensures r == [] <==> error == None
  {
    if error.Some? then [error.value] else []
  }

  /** No two validator messages are equal: the six fixed ones differ in
      length, and only the enum message ends in a full stop. */
  lemma MessagesDistinct(category: string)
    ensures |NameRequired| == 25 && |NameTooLong| == 38 && |DescriptionRequired| == 32
    ensures |DescriptionTooLong| == 46 && |TargetEmpty| == 50 && |CategoryRequired| == 29
    ensures CategoryNotInEnum(category) !in
      [NameRequired, NameTooLong, DescriptionRequired, DescriptionTooLong, TargetEmpty, CategoryRequired]
  {
    var enum := CategoryNotInEnum(category);
    assert enum[|enum| - 1] == '.';
    assert NameRequired[24] != '.' && NameTooLong[37] != '.' && DescriptionRequired[31] != '.';
    assert DescriptionTooLong[45] != '.' && TargetEmpty[49] != '.' && CategoryRequired[28] != '.';
  }

  /** A message is among the four paths' messages exactly when one of
      the paths failed with it. */
  lemma InMessages(name: Option<string>, description: Option<string>, target: Option<string>, category: Option<string>)
    ensures forall m :: m in Message(name) + Message(description) + Message(target) + Message(category) <==>
      name == Some(m) || description == Some(m) || target == Some(m) || category == Some(m)
  {
  }

  /** The messages of a failed `save`, one per failing path, in schema
      order; none exactly when the document conforms. */
  function ValidationErrors(e: Exercise): (r: seq<string>)
    ensures |r| <= 4
    ensures r == [] <==> Conforms(e)
  {
    var name := LengthError(e.name, NameMaxLength, NameRequired, NameTooLong);
    var description := LengthError(e.description, DescriptionMaxLength, DescriptionRequired, DescriptionTooLong);
    var target := if |e.target| > 0 then None else Some(TargetEmpty);
    var category := CategoryError(e.category);
    Message(name) + Message(description) + Message(target) + Message(category)
  }

  /** Each path's message is among the errors exactly when that path's
      validator fails, and a missing name is reported first. */
  lemma ValidationErrorsPerPath(e: Exercise)
    ensures var r := ValidationErrors(e);
      && (e.name == "" ==> r[0] == NameRequired)
      && (NameRequired in r <==> e.name == "")
      && (NameTooLong in r <==> |e.name| > NameMaxLength)
      && (DescriptionRequired in r <==> e.description == "")
      && (DescriptionTooLong in r <==> |e.description| > DescriptionMaxLength)
      && (TargetEmpty in r <==> e.target == [])
      && (CategoryRequired in r <==> e.category == "")
      && (CategoryNotInEnum(e.category) in r <==> e.category != "" && e.category !in Categories)
  {
    var name := LengthError(e.name, NameMaxLength, NameRequired, NameTooLong);
    var description := LengthError(e.description, DescriptionMaxLength, DescriptionRequired, DescriptionTooLong);
    var target := if |e.target| > 0 then None else Some(TargetEmpty);
    var category := CategoryError(e.category);
    MessagesDistinct(e.category);
    InMessages(name, description, target, category);
  }

  /** A new document: `trim` on name and description, the image and category
      defaults for absent values. Any other value passed to the constructor
      is not a schema path and is not kept. */
  function NewExercise(id: Id, name: Option<string>, description: Option<string>, target: seq<string>,
                       imageUrl: Option<string>, category: Option<string>): (e: Exercise)
    ensures e.id == id && e.target == target
    ensures e.name == Trim(name.GetOr("")) && e.description == Trim(description.GetOr(""))
    ensures Truthy(imageUrl) ==> e.imageUrl == imageUrl.value
    ensures !Truthy(imageUrl) ==> e.imageUrl == DefaultImageUrl
    ensures category.Some? ==> e.category == category.value
    ensures category == None ==> e.category == DefaultCategory
  {
    Exercise(id, Trim(name.GetOr("")), Trim(description.GetOr("")), target,
             if Truthy(imageUrl) then imageUrl.value else DefaultImageUrl,
             category.GetOr(DefaultCategory))
  }

  /** A name of white space only is as good as no name: trimming empties it
      and `required` refuses it. */
  lemma {:induction false} BlankNameIsRequired(s: string)
    requires forall k :: 0 <= k < |s| ==> IsJsSpace(s[k])
    ensures Trim(s) == ""
    ensures LengthError(Trim(s), NameMaxLength, NameRequired, NameTooLong) == Some(NameRequired)
  {
    if s != [] {
      assert TrimStart(s) == TrimStart(s[1..]);
      BlankNameIsRequired(s[1..]);
    }
  }

  /** A new document passes validation exactly when its trimmed name and
      description are non-empty and short enough, its target is non-empty,
      and its category is absent (the default applies) or one of the three. */
  lemma NewExerciseConforms(id: Id, name: Option<string>, description: Option<string>, target: seq<string>,
                            imageUrl: Option<string>, category: Option<string>)
    ensures var e := NewExercise(id, name, description, target, imageUrl, category);
      ValidationErrors(e) == [] <==>
        && 0 < |Trim(name.GetOr(""))| <= NameMaxLength
        && 0 < |Trim(description.GetOr(""))| <= DescriptionMaxLength
        && |target| > 0
        && (category == None || category.value in Categories)
  {
  }

  /** Index of the exercise with id `id` (`findById`), or -1. */
  function FindExercise(exercises: seq<Exercise>, id: Id): (i: int)
    ensures -1 <= i < |exercises|
    ensures i == -1 <==> forall k :: 0 <= k < |exercises| ==> exercises[k].id != id
    ensures 0 <= i ==> exercises[i].id == id
  {
    FindFirst(exercises, (e: Exercise) => e.id == id)
  }
}
