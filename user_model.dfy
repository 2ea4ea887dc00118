/** models/User.js: the user document, its bounded refresh-token ledger
    and its per-exercise overlay entries. */
module UserModel {
  import opened Common

  /** A verification link is valid for 24 hours. */
  const LinkLifetimeMs: int := 24 * 60 * 60 * 1000

  /** Most refresh tokens a user keeps at once. */
  const MaxActiveRefreshTokens: nat := 5

  datatype ExperienceLevel = Beginner | Intermediate | Advanced

  const DefaultExperienceLevel: ExperienceLevel := Beginner

  function LevelName(l: ExperienceLevel): string {
    match l
    case Beginner => "beginner"
    case Intermediate => "intermediate"
    case Advanced => "advanced"
  }

  /** The `enum` validator of `experienceLevel`: only the three names are accepted. */
  function ParseLevel(s: string): (r: Option<ExperienceLevel>)
    ensures r.Some? <==> s in {"beginner", "intermediate", "advanced"}
    ensures r.Some? ==> LevelName(r.value) == s
  {
    if s == "beginner" then Some(Beginner)
    else if s == "intermediate" then Some(Intermediate)
    else if s == "advanced" then Some(Advanced)
    else None
  }

  lemma ParseLevelName(l: ExperienceLevel)
    ensures ParseLevel(LevelName(l)) == Some(l)
  {
  }

  /** A recommendation sub-document (weight, reps, sets, duration, ...): the
      keys that are present and their numeric values. */
  type Recommendation = map<string, int>

  /** The seven numeric paths the nested `recommendation` of an overlay entry
      declares; strict mode drops any other key assigned to it. */
  const RecommendationPaths: set<string> := {"weight", "reps", "sets", "duration", "distance", "intensity", "incline"}

  /** A recommendation whose keys are all declared paths. */
  predicate Declared(rec: Recommendation) {
    rec.Keys <= RecommendationPaths
  }

  /** What assigning an object to an overlay's `recommendation` stores: the
      declared keys with their values, and nothing else. */
  function CastRecommendation(rec: Recommendation): (r: Recommendation)
    ensures Declared(r)
    ensures forall k :: k in rec && k in RecommendationPaths ==> k in r && r[k] == rec[k]
    ensures forall k :: k in r ==> k in rec
  {
    map k | k in rec.Keys * RecommendationPaths :: rec[k]
  }

  /** Casting keeps a declared recommendation as it is, so a stored one casts
      to itself. */
  lemma CastKeepsDeclared(rec: Recommendation)
    requires Declared(rec)
    ensures CastRecommendation(rec) == rec
  {
  }

  /** One entry of `userExercises`: a user's overlay of a catalog exercise.
      Like every array path, `target` defaults to the empty array. */
  datatype UserExercise = UserExercise(
    exerciseId: Id,
    name: Option<string>,
    description: Option<string>,
    target: seq<string>,
    imageUrl: Option<string>,
    recommendation: Option<Recommendation>)

  /** One entry of `deletedExercisesDetails` (the exercise snapshot is not kept). */
  datatype DeletedDetail = DeletedDetail(exerciseId: Id, deletedAt: Time)

  // ---------------------------------------------------------------------------
  // The refresh-token ledger

  /** `addRefreshToken`: at or over the cap the oldest token is dropped, then
      `t` is appended. */
  function AddToken(ledger: seq<Token>, t: Token): (r: seq<Token>)
    ensures |r| > 0 && r[|r| - 1] == t
    ensures |ledger| <= MaxActiveRefreshTokens ==> |r| <= MaxActiveRefreshTokens
    ensures |r| - 1 <= |ledger| && r[..|r| - 1] == ledger[|ledger| - (|r| - 1)..]
  {
    (if |ledger| >= MaxActiveRefreshTokens then ledger[1..] else ledger) + [t]
  }

  lemma AddTokenBelowCap(ledger: seq<Token>, t: Token)
    requires |ledger| < MaxActiveRefreshTokens
    ensures AddToken(ledger, t) == ledger + [t]
  {
  }

  /** A full ledger keeps its length and loses exactly its oldest entry. */
  lemma AddTokenAtCap(ledger: seq<Token>, t: Token)
    requires |ledger| == MaxActiveRefreshTokens
    ensures |AddToken(ledger, t)| == MaxActiveRefreshTokens
    ensures AddToken(ledger, t) == ledger[1..] + [t]
    ensures multiset(AddToken(ledger, t)) == multiset(ledger) - multiset{ledger[0]} + multiset{t}
  {
    assert ledger == [ledger[0]] + ledger[1..];
  }

  /** `removeRefreshToken`: the first occurrence of `t` goes, nothing else. */
  function RemoveToken(ledger: seq<Token>, t: Token): (r: seq<Token>)
    ensures t !in ledger ==> r == ledger
    ensures t in ledger ==> |r| == |ledger| - 1
    ensures multiset(r) == multiset(ledger) - multiset{t}
    ensures forall x :: x in r ==> x in ledger
  {
    if ledger == [] then []
    else if ledger[0] == t then
      assert ledger == [t] + ledger[1..];
      ledger[1..]
    else
      assert ledger == [ledger[0]] + ledger[1..];
      [ledger[0]] + RemoveToken(ledger[1..], t)
  }

  /** Removing `t` cuts out its first occurrence, at `j`. */
  lemma {:induction false} RemoveTokenCutsFirst(ledger: seq<Token>, t: Token, j: nat)
    requires j < |ledger| && ledger[j] == t && t !in ledger[..j]
    ensures RemoveToken(ledger, t) == Splice(ledger, j)
  {
    if j > 0 {
      var tail := ledger[1..];
      assert RemoveToken(ledger, t) == [ledger[0]] + RemoveToken(tail, t) by {
        assert ledger[0] in ledger[..j];
      }
      assert t !in tail[..j - 1] by {
        assert tail[..j - 1] == ledger[1..j];
      }
      RemoveTokenCutsFirst(tail, t, j - 1);
      SpliceOfCons(ledger, j);
    }
  }

  /** Removing is cutting out the element at the first index of `t`, so the
      other tokens keep their order. */
  lemma RemoveTokenIsSpliceAtIndexOf(ledger: seq<Token>, t: Token)
    requires t in ledger
    ensures RemoveToken(ledger, t) == Splice(ledger, IndexOf(ledger, t))
  {
    RemoveTokenCutsFirst(ledger, t, IndexOf(ledger, t));
  }


  /** Removing a token that occurs once leaves no copy of it behind. */
  lemma RemoveTokenOfUnique(ledger: seq<Token>, t: Token)
    requires multiset(ledger)[t] <= 1
    ensures t !in RemoveToken(ledger, t)
  {
    var r := RemoveToken(ledger, t);
    assert multiset(r)[t] == 0;
  }

  /** No token occurs twice in a ledger. */
  ghost predicate NoDuplicates(ledger: seq<Token>) {
    forall t :: multiset(ledger)[t] <= 1
  }

  /** Adding a token not yet present keeps the ledger free of duplicates and
      brings in no token but that one. */
  lemma AddFreshTokenKeepsDistinct(ledger: seq<Token>, t: Token)
    requires NoDuplicates(ledger) && t !in ledger
    ensures NoDuplicates(AddToken(ledger, t))
    ensures forall x :: x in AddToken(ledger, t) ==> x in ledger || x == t
  {
    var kept := if |ledger| >= MaxActiveRefreshTokens then ledger[1..] else ledger;
    if |ledger| >= MaxActiveRefreshTokens {
      assert ledger == [ledger[0]] + kept;
    }
    var r := AddToken(ledger, t);
    assert r == kept + [t];
    assert multiset(r) == multiset(kept) + multiset{t};
    assert multiset(kept) <= multiset(ledger);
    forall x ensures multiset(r)[x] <= 1 {
      if x == t {
        assert multiset(ledger)[t] == 0;
      }
    }
    forall x | x in r ensures x in ledger || x == t {
      assert multiset(r)[x] > 0;
    }
  }

  /** The ledger invariant on values: within the cap, no token twice, and
      no token both active and retired. */
  ghost predicate LedgerOk(ledger: seq<Token>, retired: set<Token>) {
    && |ledger| <= MaxActiveRefreshTokens
    && NoDuplicates(ledger)
    && (forall t :: t in ledger ==> t !in retired)
  }

  /** Removing a token and retiring it keeps the invariant and leaves no
      copy of it in the ledger, whether or not it was there. */
  lemma RemovalKeepsLedgerOk(ledger: seq<Token>, retired: set<Token>, t: Token)
    requires LedgerOk(ledger, retired)
    ensures LedgerOk(RemoveToken(ledger, t), retired + {t})
    ensures t !in RemoveToken(ledger, t)
  {
    var removed := RemoveToken(ledger, t);
    RemoveTokenOfUnique(ledger, t);
    assert NoDuplicates(removed) by {
      forall x ensures multiset(removed)[x] <= 1 {
        assert multiset(removed)[x] <= multiset(ledger)[x];
      }
    }
  }

  /** A rotation (remove the presented token, add a fresh one) keeps the
      invariant once the presented token is retired, keeps the ledger's
      length, and leaves no copy of the presented token behind. */
  lemma RotationKeepsLedgerOk(ledger: seq<Token>, retired: set<Token>, presented: Token, added: Token)
    requires LedgerOk(ledger, retired) && presented in ledger
    requires added !in ledger && added !in retired
    ensures var r := AddToken(RemoveToken(ledger, presented), added);
      && LedgerOk(r, retired + {presented})
      && |r| == |ledger|
      && presented !in r
  {
    var removed := RemoveToken(ledger, presented);
    RemovalKeepsLedgerOk(ledger, retired, presented);
    assert added !in removed;
    AddTokenBelowCap(removed, added);
    AddFreshTokenKeepsDistinct(removed, added);
    var r := AddToken(removed, added);
    assert r == removed + [added];
    forall x | x in r ensures x !in retired + {presented} {
      if x != added {
        assert x in removed;
      }
    }
  }

  // ---------------------------------------------------------------------------
  // Overlay entries

  /** `recommendation = { ...old, ...update }` on an overlay entry: keys of
      `update` win, and the assignment stores only the declared paths. */
  function MergeRecommendation(prior: Option<Recommendation>, update: Recommendation): (r: Recommendation)
    ensures r.Keys == ((if prior.Some? then prior.value.Keys else {}) + update.Keys) * RecommendationPaths
    ensures forall k :: k in update && k in RecommendationPaths ==> r[k] == update[k]
    ensures forall k :: prior.Some? && k in prior.value && k in RecommendationPaths && k !in update ==> r[k] == prior.value[k]
  {
    CastRecommendation((if prior.Some? then prior.value else map[]) + update)
  }

  /** Every overlay entry's stored recommendation has declared keys only. */
  predicate OverlaysDeclared(entries: seq<UserExercise>) {
    forall k :: 0 <= k < |entries| && entries[k].recommendation.Some? ==> Declared(entries[k].recommendation.value)
  }

  /** Index of the overlay entry for `exerciseId`, or -1. */
  function FindOverlay(entries: seq<UserExercise>, exerciseId: Id): (i: int)
    ensures -1 <= i < |entries|
    ensures i == -1 <==> forall k :: 0 <= k < |entries| ==> entries[k].exerciseId != exerciseId
    ensures 0 <= i ==> entries[i].exerciseId == exerciseId
  {
    FindFirst(entries, (e: UserExercise) => e.exerciseId == exerciseId)
  }

  /** `updateExerciseRecommendation` on the `userExercises` list. */
  function UpsertRecommendation(entries: seq<UserExercise>, exerciseId: Id, update: Recommendation): seq<UserExercise>
  {
    var i := FindOverlay(entries, exerciseId);
    if i >= 0 then
      entries[i := entries[i].(recommendation := Some(MergeRecommendation(entries[i].recommendation, update)))]
    else
      entries + [UserExercise(exerciseId, None, None, [], None, Some(CastRecommendation(update)))]
  }

  /** With an overlay for the exercise: that entry's recommendation is merged,
      every other entry and every other field stays, and no entry is added. */
  lemma UpsertRecommendationExisting(entries: seq<UserExercise>, exerciseId: Id, update: Recommendation)
    requires FindOverlay(entries, exerciseId) >= 0
    ensures var i := FindOverlay(entries, exerciseId);
      var r := UpsertRecommendation(entries, exerciseId, update);
      && |r| == |entries|
      && (forall k :: 0 <= k < |r| && k != i ==> r[k] == entries[k])
      && r[i] == entries[i].(recommendation := r[i].recommendation)
      && r[i].recommendation.Some?
      && Declared(r[i].recommendation.value)
      && (forall key :: key in update && key in RecommendationPaths ==>
            key in r[i].recommendation.value && r[i].recommendation.value[key] == update[key])
      && (forall key :: entries[i].recommendation.Some? && key in entries[i].recommendation.value
                        && key in RecommendationPaths && key !in update ==>
            key in r[i].recommendation.value && r[i].recommendation.value[key] == entries[i].recommendation.value[key])
  {
  }

  /** Without an overlay: exactly one entry `{exerciseId, recommendation}` is
      appended and the others are untouched. */
  lemma UpsertRecommendationAbsent(entries: seq<UserExercise>, exerciseId: Id, update: Recommendation)
    requires forall k :: 0 <= k < |entries| ==> entries[k].exerciseId != exerciseId
    ensures var r := UpsertRecommendation(entries, exerciseId, update);
      && |r| == |entries| + 1
      && r[..|entries|] == entries
      && r[|entries|] == UserExercise(exerciseId, None, None, [], None, Some(CastRecommendation(update)))
  {
  }

  /** After the update there is an overlay for the exercise holding every
      declared key of `update` with its value, and no undeclared key; an
      overlay list whose recommendations were declared stays so. */
  lemma UpsertRecommendationHolds(entries: seq<UserExercise>, exerciseId: Id, update: Recommendation)
    ensures var r := UpsertRecommendation(entries, exerciseId, update);
      var i := FindOverlay(r, exerciseId);
      && i >= 0
      && r[i].recommendation.Some?
      && Declared(r[i].recommendation.value)
      && forall key :: key in update && key in RecommendationPaths ==>
           key in r[i].recommendation.value && r[i].recommendation.value[key] == update[key]
    ensures OverlaysDeclared(entries) ==> OverlaysDeclared(UpsertRecommendation(entries, exerciseId, update))
  {
    var r := UpsertRecommendation(entries, exerciseId, update);
    var i := FindOverlay(entries, exerciseId);
    if i >= 0 {
      assert forall k :: 0 <= k < i ==> r[k] == entries[k];
      assert FindOverlay(r, exerciseId) == i by {
        FindOverlayFirst(r, exerciseId, i);
      }
    } else {
      assert FindOverlay(r, exerciseId) == |entries| by {
        FindOverlayFirst(r, exerciseId, |entries|);
      }
    }
  }

  lemma FindOverlayFirst(entries: seq<UserExercise>, exerciseId: Id, i: nat)
    requires i < |entries| && entries[i].exerciseId == exerciseId
    requires forall k :: 0 <= k < i ==> entries[k].exerciseId != exerciseId
    ensures FindOverlay(entries, exerciseId) == i
  {
  }

  // ---------------------------------------------------------------------------
  // The user document

  class User {
    const id: Id
    var username: string
    var email: string
    var passwordHash: string
    var experienceLevel: ExperienceLevel
    var isAdmin: bool
    var hasSeenGuide: bool
    /** Oldest first. */
    var activeRefreshTokens: seq<Token>
    var userExercises: seq<UserExercise>
    var deletedExercises: seq<Id>
    var deletedExercisesDetails: seq<DeletedDetail>
    var deletedWorkoutPlans: seq<Id>
    // Read and written by the routes, although the schema does not declare them.
    var isEmailVerified: bool
    var emailVerificationToken: Option<Token>
    var emailVerificationExpires: Option<Time>
    /** Refresh tokens of this user that a rotation, a logout or a new
        login has taken out of use (bookkeeping for the proofs only). */
    ghost var retiredTokens: set<Token>

    /** The ledger is within the cap, free of duplicates, and holds no token
        that was taken out of use. */
    ghost predicate LedgerValid()
      reads this
    {
      LedgerOk(activeRefreshTokens, retiredTokens)
    }

    /** The account fields: names, password hash, level and flags. */
    ghost function Account(): (string, string, string, ExperienceLevel, bool, bool)
      reads this
    {
      (username, email, passwordHash, experienceLevel, isAdmin, hasSeenGuide)
    }

    /** The hidden-exercise and hidden-plan lists. */
    ghost function Hidden(): (seq<Id>, seq<DeletedDetail>, seq<Id>)
      reads this
    {
      (deletedExercises, deletedExercisesDetails, deletedWorkoutPlans)
    }

    /** The overlay list and the hidden lists. */
    ghost function Lists(): (seq<UserExercise>, seq<Id>, seq<DeletedDetail>, seq<Id>)
      reads this
    {
      (userExercises, deletedExercises, deletedExercisesDetails, deletedWorkoutPlans)
    }

    /** The refresh-token ledger and the tokens it has retired. */
    ghost function Ledger(): (seq<Token>, set<Token>)
      reads this
    {
      (activeRefreshTokens, retiredTokens)
    }

    /** The e-mail verification fields. */
    ghost function Verification(): (bool, Option<Token>, Option<Time>)
      reads this
    {
      (isEmailVerified, emailVerificationToken, emailVerificationExpires)
    }

    /** The three verification paths as a request reads them from a stored
        user when the schema does not declare them (models/User.js:29-52):
        strict mode saves none of them, so each reads as undefined. */
    predicate VerificationUnset()
      reads this
    {
      !isEmailVerified && emailVerificationToken == None && emailVerificationExpires == None
    }

    /** A new user document with the schema's defaults. */
    constructor (id: Id, username: string, email: string, passwordHash: string)
      ensures this.id == id && this.username == username && this.email == email
      ensures this.passwordHash == passwordHash
      ensures experienceLevel == DefaultExperienceLevel && !isAdmin && !hasSeenGuide
      ensures activeRefreshTokens == [] && userExercises == [] && deletedExercises == []
      ensures deletedExercisesDetails == [] && deletedWorkoutPlans == []
      ensures !isEmailVerified && emailVerificationToken == None && emailVerificationExpires == None
      ensures retiredTokens == {} && LedgerValid()
    {
      this.id := id;
      this.username := username;
      this.email := email;
      this.passwordHash := passwordHash;
      experienceLevel := DefaultExperienceLevel;
      isAdmin := false;
      hasSeenGuide := false;
      activeRefreshTokens := [];
      userExercises := [];
      deletedExercises := [];
      deletedExercisesDetails := [];
      deletedWorkoutPlans := [];
      isEmailVerified := false;
      emailVerificationToken := None;
      emailVerificationExpires := None;
      retiredTokens := {};
    }

    /** `addRefreshToken`: `shift` when full, then `push`. */
    method AddRefreshToken(t: Token)
      modifies this`activeRefreshTokens
      ensures activeRefreshTokens == AddToken(old(activeRefreshTokens), t)
    {
      if |activeRefreshTokens| >= MaxActiveRefreshTokens {
        activeRefreshTokens := activeRefreshTokens[1..];
      }
      activeRefreshTokens := activeRefreshTokens + [t];
    }

    /** The ledger steps of a refresh-token rotation: `indexOf` and `splice`
        cut the presented token out, `addRefreshToken` appends its successor,
        and the presented token joins the retired ones. */
    method RotateRefreshToken(presented: Token, successor: Token)
      requires LedgerValid() && presented in activeRefreshTokens
      requires successor !in activeRefreshTokens && successor !in retiredTokens
      modifies this`activeRefreshTokens, this`retiredTokens
      ensures LedgerValid()
      ensures activeRefreshTokens == AddToken(RemoveToken(old(activeRefreshTokens), presented), successor)
      ensures |activeRefreshTokens| == |old(activeRefreshTokens)|
      ensures presented !in activeRefreshTokens
      ensures retiredTokens == old(retiredTokens) + {presented}
    {
      RemoveTokenIsSpliceAtIndexOf(activeRefreshTokens, presented);
      RotationKeepsLedgerOk(activeRefreshTokens, retiredTokens, presented, successor);
      var index := IndexOf(activeRefreshTokens, presented);
      activeRefreshTokens := Splice(activeRefreshTokens, index);
      AddRefreshToken(successor);
      retiredTokens := retiredTokens + {presented};
    }

    /** Logout's ledger step: `removeRefreshToken`, after which the token
        counts as retired. */
    method RetireRefreshToken(t: Token)
      requires LedgerValid()
      modifies this`activeRefreshTokens, this`retiredTokens
      ensures LedgerValid()
      ensures activeRefreshTokens == RemoveToken(old(activeRefreshTokens), t)
      ensures t !in activeRefreshTokens
      ensures retiredTokens == old(retiredTokens) + {t}
    {
      ghost var retired := retiredTokens + {t};
      RemovalKeepsLedgerOk(activeRefreshTokens, retiredTokens, t);
      RemoveRefreshToken(t);
      retiredTokens := retired;
    }

    /** `removeRefreshToken`: `indexOf`, then `splice` if found. */
    method RemoveRefreshToken(t: Token)
      modifies this`activeRefreshTokens
      ensures activeRefreshTokens == RemoveToken(old(activeRefreshTokens), t)
    {
      var index := IndexOf(activeRefreshTokens, t);
      if index > -1 {
        RemoveTokenIsSpliceAtIndexOf(activeRefreshTokens, t);
        activeRefreshTokens := Splice(activeRefreshTokens, index);
      }
    }

    /** `updateExerciseRecommendation`: merge into the existing overlay entry
        or push a new one. */
    method UpdateExerciseRecommendation(exerciseId: Id, update: Recommendation)
      modifies this`userExercises
      ensures userExercises == UpsertRecommendation(old(userExercises), exerciseId, update)
    {
      var index := FindOverlay(userExercises, exerciseId);
      if index != -1 {
        var entry := userExercises[index];
        var merged := MergeRecommendation(entry.recommendation, update);
        userExercises := userExercises[index := entry.(recommendation := Some(merged))];
      } else {
        userExercises := userExercises + [UserExercise(exerciseId, None, None, [], None, Some(CastRecommendation(update)))];
      }
    }

    /** The three fields that a successful email verification sets. */
    method MarkEmailVerified()
      modifies this`isEmailVerified, this`emailVerificationToken, this`emailVerificationExpires
      ensures isEmailVerified && emailVerificationToken == None && emailVerificationExpires == None
    {
      isEmailVerified := true;
      emailVerificationToken := None;
      emailVerificationExpires := None;
    }

    /** A new verification link: its token, valid for the next 24 hours
        (`expiresIn: '24h'`). */
    method SetVerificationLink(token: Token, now: Time)
      modifies this`emailVerificationToken, this`emailVerificationExpires
      ensures emailVerificationToken == Some(token)
      ensures emailVerificationExpires == Some(now + LinkLifetimeMs)
    {
      emailVerificationToken := Some(token);
      emailVerificationExpires := Some(now + LinkLifetimeMs);
    }
  }

  // ---------------------------------------------------------------------------
  // Lookups over the users collection (`findOne` returns the first match)

  function FindById(users: seq<User>, id: Id): (i: int)
    ensures -1 <= i < |users|
    ensures i == -1 <==> forall k :: 0 <= k < |users| ==> users[k].id != id
    ensures 0 <= i ==> users[i].id == id && forall k :: 0 <= k < i ==> users[k].id != id
  {
    if users == [] then -1
    else if users[0].id == id then 0
    else
      var j := FindById(users[1..], id);
      if j == -1 then -1 else j + 1
  }

  /** `_id` is the collection's primary key: no two documents share it, so
      no two entries are the same object either. */
  predicate DistinctIds(users: seq<User>) {
    forall i, j :: 0 <= i < j < |users| ==> users[i].id != users[j].id
  }

  /** Distinct ids make distinct documents. */
  lemma OthersAreOtherUsers(users: seq<User>, i: nat)
    requires DistinctIds(users) && i < |users|
    ensures forall k :: 0 <= k < |users| && k != i ==> users[k] != users[i]
  {
    forall k | 0 <= k < |users| && k != i
      ensures users[k] != users[i]
    {
      if k < i { assert users[k].id != users[i].id; } else { assert users[i].id != users[k].id; }
    }
  }

  /** The usernames of the collection, in order. */
  function Usernames(users: seq<User>): (r: seq<string>)
    reads users
    ensures |r| == |users| && forall k :: 0 <= k < |users| ==> r[k] == users[k].username
  {
    seq(|users|, k reads users requires 0 <= k < |users| => users[k].username)
  }

  /** The e-mail addresses of the collection, in order. */
  function Emails(users: seq<User>): (r: seq<string>)
    reads users
    ensures |r| == |users| && forall k :: 0 <= k < |users| ==> r[k] == users[k].email
  {
    seq(|users|, k reads users requires 0 <= k < |users| => users[k].email)
  }

  /** `findOne({ username })`. */
  function FindByUsername(users: seq<User>, username: string): (i: int)
    reads users
    ensures -1 <= i < |users|
    ensures i == -1 <==> forall k :: 0 <= k < |users| ==> users[k].username != username
    ensures 0 <= i ==> users[i].username == username
  {
    var names := Usernames(users);
    assert forall k :: 0 <= k < |users| ==> users[k].username == names[k];
    IndexOf(names, username)
  }

  /** `findOne({ email })`. */
  function FindByEmail(users: seq<User>, email: string): (i: int)
    reads users
    ensures -1 <= i < |users|
    ensures i == -1 <==> forall k :: 0 <= k < |users| ==> users[k].email != email
    ensures 0 <= i ==> users[i].email == email
  {
    var addresses := Emails(users);
    assert forall k :: 0 <= k < |users| ==> users[k].email == addresses[k];
    IndexOf(addresses, email)
  }

  /** The `unique` index on `username`. */
  predicate UniqueUsernames(users: seq<User>)
    reads users
  {
    forall i, j :: 0 <= i < j < |users| ==> users[i].username != users[j].username
  }

  /** The `unique` index on `email`. */
  predicate UniqueEmails(users: seq<User>)
    reads users
  {
    forall i, j :: 0 <= i < j < |users| ==> users[i].email != users[j].email
  }
}
