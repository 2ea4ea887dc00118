# Workout tracker backend: a Dafny model

This project models the core of an Express/Mongoose backend for a workout
tracker. It covers:

- **Accounts and sessions.** The user document keeps a ledger of at most five
  refresh tokens. The auth routes log in, rotate and revoke those tokens,
  verify e-mail addresses and update the account. The token blacklist forgets
  each entry fifteen minutes after it is created. The authentication and
  admin middlewares decide who gets through. The User schema is strict too:
  it declares no e-mail verification path, and a stored overlay
  recommendation keeps only its seven declared keys.
- **The exercise catalog and plans.** This covers who sees which exercises
  and workout plans, and who may change or delete them. A per-user overlay
  can be laid over a catalog exercise. The Exercise schema is strict and
  declares five paths, so a stored exercise records no owner and no default
  flag, and the exercise routes' owner and default tests read undefined. A
  default plan can be hidden or deleted outright. Plan names must be unique.
- **Workouts.** This covers the checks and mapping behind creating a workout,
  the partial update, the per-user progress record, the exercise-history
  query, and the detachment of workouts from a deleted plan.

One Dafny module stands for each source file:

| module | source file |
|---|---|
| `Common` | shared values: optional fields, JavaScript truthiness, `indexOf`, `splice`, `$addToSet`, `String.prototype.trim` |
| `UserModel` | models/User.js |
| `TokenBlacklist` | models/TokenBlacklist.js |
| `AuthMiddleware` | middleware/auth.js |
| `AdminAuth` | middleware/adminAuth.js |
| `EmailVerification` | controllers/emailVerificationController.js |
| `Session` | routes/auth.js |
| `ExerciseModel` | models/Exercise.js |
| `Exercises` | routes/exercises.js |
| `WorkoutPlanModel` | models/WorkoutPlan.js |
| `WorkoutPlans` | routes/workoutPlans.js |
| `WorkoutModel` | models/Workout.js |
| `Workouts` | routes/workouts.js (with the record of models/WorkoutProgress.js) |
| `WorkoutController` | controllers/workoutController.js |

**How state is modelled.**

- Code that updates documents in place becomes classes with `modifies` clauses.
  - The user document is `UserModel.User`.
  - Each route file holds its collections in a class: `Session.AuthService`, `Exercises.ExerciseService`, `WorkoutPlans.PlanRoutes` and `Workouts.WorkoutRoutes`.
  - The collection classes are `WorkoutPlanModel.PlanCollection` and `WorkoutModel.WorkoutCollection`.
- Each method is proved against a pure function of the old state.
- Values are datatypes: exercises, plans, workouts, progress records and blacklist entries.

**What comes in as a parameter.** A route's inputs that come from outside the database are parameters:

- the caller (`Principal`, the `req.user` the handlers read);
- the clock (`now`, milliseconds);
- freshly generated ids and tokens;
- the outcome of `jwt.verify` (`Verified(id) | Expired | Invalid`);
- the outcome of `bcrypt.compare`;
- whether an e-mail was sent.

A document whose insertion order matters (`findOne` returns the first match)
is an element of a `seq`.

## Model

| member | source | states |
|---|---|---|
| Common.IndexOf | models/User.js:64 | `indexOf`: -1 exactly when absent; otherwise the index of the first occurrence |
| Common.AddToSet | routes/exercises.js:297-300 | `$addToSet`: the id is present afterwards, an id already there is not duplicated, and no other element's count changes |
| Common.TrimStartIsSuffix | models/Exercise.js:8-13 | the part `trim` keeps after stripping leading white space is a suffix of the input |
| Common.TrimIsInterior | models/Exercise.js:8-13 | `trim: true` keeps a contiguous piece of the value, with only white space cut off on either side, and the piece neither starts nor ends with white space |
| Common.TrimIdempotent | models/Exercise.js:8-13 | trimming an already trimmed value changes nothing |
| UserModel.ParseLevel | models/User.js:34-38 | the `experienceLevel` enum accepts exactly `beginner`, `intermediate` and `advanced` |
| UserModel.ParseLevelName | models/User.js:34-38 | each of the three levels is accepted under its own name |
| UserModel.AddToken | models/User.js:55-60 | `addRefreshToken`: the token ends up last; a ledger within the cap of five stays within it; what comes before it is the newest part of the old ledger, in order |
| UserModel.AddTokenBelowCap | models/User.js:55-60 | below the cap the token is simply appended |
| UserModel.AddTokenAtCap | models/User.js:55-59 | at the cap the oldest token (index 0) is dropped: the length stays five and exactly that token is exchanged for the new one |
| UserModel.RemoveToken | models/User.js:63-68 | `removeRefreshToken`: an absent token leaves the ledger unchanged; otherwise the ledger is one shorter and has lost exactly one copy of the token |
| UserModel.RemoveTokenIsSpliceAtIndexOf | models/User.js:63-68 | removing is `splice(indexOf(t), 1)`: the other tokens keep their order |
| UserModel.RemoveTokenOfUnique | models/User.js:63-68 | a token held once is gone after removal |
| UserModel.AddFreshTokenKeepsDistinct | models/User.js:55-60 | adding a token not yet held keeps the ledger free of duplicates and brings in only that token |
| UserModel.RemovalKeepsLedgerOk | routes/auth.js:320-322 | removing and retiring a token keeps the ledger invariant (at most five, no duplicates, nothing retired) |
| UserModel.RotationKeepsLedgerOk | routes/auth.js:287-289 | a rotation keeps the ledger invariant and its length, and the presented token is no longer held |
| UserModel.MergeRecommendation | models/User.js:74-77 | the shallow merge `{...old, ...new}` assigned to the nested path: its keys are those of both maps that the schema declares, a declared key of the update takes the update's value, any other declared key keeps its old value, and no undeclared key is stored |
| UserModel.CastRecommendation | models/User.js:14-22 | assigning an object to the nested `recommendation` path keeps exactly its keys among weight, reps, sets, duration, distance, intensity and incline, each with its value, and drops every other key |
| UserModel.CastKeepsDeclared | models/User.js:14-22 | an object holding only declared keys is stored as it is |
| UserModel.FindOverlay | models/User.js:72 | `findIndex` over the overlay entries by exercise id: -1 exactly when there is none |
| UserModel.UpsertRecommendationExisting | models/User.js:72-77 | with an overlay entry: only its recommendation changes, to the merge; it holds only declared keys, every declared key sent takes the sent value and the other declared keys keep theirs; no entry is added and every other entry is unchanged |
| UserModel.UpsertRecommendationAbsent | models/User.js:78-84 | without one: exactly one entry `{exerciseId, recommendation}` is appended, its recommendation the update cast to the declared keys; the others are untouched |
| UserModel.UpsertRecommendationHolds | models/User.js:71-85 | afterwards the exercise has an overlay whose recommendation holds only declared keys and every declared key of the update with its value; an overlay list whose recommendations hold only declared keys keeps that property |
| UserModel.User.constructor | models/User.js:29-52 | a new user has the schema defaults: level `beginner`, not admin, guide unseen, empty lists, unverified |
| UserModel.User.AddRefreshToken | models/User.js:55-60 | the ledger becomes `AddToken` of the old one |
| UserModel.User.RemoveRefreshToken | models/User.js:63-68 | the ledger becomes `RemoveToken` of the old one |
| UserModel.User.RotateRefreshToken | routes/auth.js:287-289 | `splice(indexOf)` then `addRefreshToken`: the ledger invariant holds, the length is kept, the presented token is gone and retired |
| UserModel.User.RetireRefreshToken | routes/auth.js:320-322 | logout's ledger step keeps the invariant and leaves the token out of the ledger |
| UserModel.User.UpdateExerciseRecommendation | models/User.js:71-85 | the overlay list becomes the upsert of the old one |
| UserModel.User.MarkEmailVerified | routes/auth.js:47-49 | a verified user has no pending token or expiry |
| UserModel.User.SetVerificationLink | routes/auth.js:194-195 | the new link's token is stored with an expiry 24 hours from now |
| UserModel.FindById | routes/auth.js:270 | `findById`: the first user with that id, or -1 when there is none |
| UserModel.FindByUsername | routes/auth.js:175 | `findOne({ username })`: -1 exactly when no user has that name |
| UserModel.FindByEmail | routes/auth.js:130 | `findOne({ email })`: -1 exactly when no user has that address |
| TokenBlacklist.Create | models/TokenBlacklist.js:5-16 | `create` succeeds exactly for a non-empty token not already live (required, unique); on success it appends one entry stamped `now` and changes the membership of no other token |
| TokenBlacklist.RequestedExpiryIgnored | models/TokenBlacklist.js:5-16 | the `expiresAt` a caller passes makes no difference, since the schema has no such field |
| TokenBlacklist.CreatePreservesInvariants | models/TokenBlacklist.js:8-13 | inserting keeps live tokens unique and every entry stamped no later than now |
| TokenBlacklist.BlacklistedForFifteenMinutes | models/TokenBlacklist.js:11-14 | a token blacklisted at `now` is found exactly until `now` + 15 minutes |
| TokenBlacklist.ContainsShrinksOverTime | models/TokenBlacklist.js:14 | expiry only removes entries: a token found later was found earlier |
| AuthMiddleware.Authenticate | middleware/auth.js:6-21 | the request passes exactly when the header is present and verifies, with `req.user` the token's id claim; a missing header, an expired and an invalid token get their three 401 replies |
| AuthMiddleware.DenialsAre401 | middleware/auth.js:7-20 | every refusal is a 401, and `tokenExpired` is set exactly for an expired token |
| AuthMiddleware.DependsOnlyOnVerdict | middleware/auth.js:6-21 | two tokens that verify alike are treated alike: no blacklist or user lookup takes part |
| AdminAuth.AdminGate | middleware/adminAuth.js:5-11 | only a user object flagged `isAdmin` passes; everything else, a missing user included, is the 403 |
| AdminAuth.AdminGateRefusesAuthenticatedRequests | middleware/adminAuth.js:7-9 | behind the auth middleware, which sets `req.user` to the id string, the gate refuses every request, admins included |
| EmailVerification.CooldownIsFiveMinutesAfterSending | controllers/emailVerificationController.js:66-72 | a link sent at `t` (expiry `t` + 24h) blocks a new one exactly until `t` + 5 minutes |
| EmailVerification.NoPendingLinkNoCooldown | controllers/emailVerificationController.js:66-68 | with no pending link, `lastSent` is 0 and the cooldown never applies |
| EmailVerification.VerifyEmail | controllers/emailVerificationController.js:15-50 | expired and malformed links get their 400s; otherwise it is a 200 exactly when the user's id, e-mail, stored token and live expiry all match; the user is then verified with no pending link, and nobody else changes |
| EmailVerification.ResendVerification | controllers/emailVerificationController.js:52-83 | 404 for an unknown e-mail, 400 when already verified, 429 exactly inside the cooldown, 200 exactly when outside it and the e-mail goes out |
| EmailVerification.ResendAsWrittenNeverRefuses | controllers/emailVerificationController.js:52-83 | with the verification paths unset, as the strict schema leaves them, a known e-mail never gets the 400 or the 429: the reply is the 200 or the 500 of the send |
| Session.LoggedOutRefreshTokenBlockedForFifteenMinutes | routes/auth.js:320-335 | after logout, the refresh token is blacklisted for exactly fifteen minutes, although seven days are asked for |
| Session.AuthService.constructor | routes/auth.js:1-15 | the collections start from valid users and an empty blacklist |
| Session.AuthService.Login | routes/auth.js:170-243 | an unknown user and a wrong password get the same 400; an unverified user gets the 403 and a new 24-hour link, with the ledger untouched; a success leaves the ledger exactly `[new refresh token]`, with the earlier sessions retired; no other user changes |
| Session.AuthService.LoginAs | routes/auth.js:182-223 | the login steps after the lookup: the reply is `LoginReply` of the stored verification flag and the password verdict, the verification check before the password check, then the new session |
| Session.LoginReply | routes/auth.js:182-215 | the login verdict: 200 exactly when verified and the password matches, the 403 "verify first" exactly when unverified, the 400 exactly when verified with a wrong password |
| Session.NoSessionAsWritten | models/User.js:29-52 | as written the User schema declares no verification path, so a loaded user reads as unverified and every login gets the 403, whatever the password |
| Session.AuthService.IssueVerificationLink | routes/auth.js:184-196 | the unverified user's new link: its token and an expiry 24 hours ahead |
| Session.AuthService.StartSession | routes/auth.js:220-223 | `activeRefreshTokens = []` then `addRefreshToken`: the ledger is the new token alone |
| Session.AuthService.Refresh | routes/auth.js:246-310 | the guards in order: 400 missing, 401 blacklisted, 401 failed verification, 404 no user, 401 not in the ledger; a success swaps the presented token for the new one (length kept) and blacklists it; a failure changes nothing; a token rotated away once is refused with 401 forever after |
| Session.AuthService.Rotate | routes/auth.js:283-296 | the rotation's state change: the ledger, the retired set and one new blacklist entry |
| Session.AuthService.Logout | routes/auth.js:313-343 | 404 for an unknown user; 500 when a blacklist insertion fails (the ledger is unsaved); on 200 the access token and any refresh token sent are blacklisted and the refresh token is out of the ledger |
| Session.AuthService.LogoutAs | routes/auth.js:320-343 | logout for a found user: 500 with the blacklist as far as it got and the user unchanged, or 200 with both tokens blacklisted and the refresh token out of the ledger; the account, lists and verification fields never change |
| Session.AuthService.EndSession | routes/auth.js:320-322 | logout's ledger step for the caller |
| Session.AuthService.RevokeTokens | routes/auth.js:320-335 | logout's two blacklist insertions, the refresh token's first, each able to fail |
| Session.AuthService.VerifyEmail | routes/auth.js:18-61 | the route checks id, stored token and expiry, not the e-mail claim: 200 exactly on a match, the user then verified with no pending link |
| Session.AuthService.ResendVerification | routes/auth.js:125-167 | 404, 400 when already verified, 429 in the cooldown; otherwise a new 24-hour link is stored, and the reply is 200 or, when the e-mail fails, 500 |
| Session.AuthService.UpdateUser | routes/auth.js:367-410 | 404, then 400 for a username or e-mail taken by another user; an empty name or an unknown level fails validation (500); otherwise the three fields are set; uniqueness of names and e-mails is preserved |
| Session.AuthService.SetProfile | routes/auth.js:390-394 | the assignments of PUT /user keep usernames and e-mails unique |
| Session.AuthService.ChangePassword | routes/auth.js:413-436 | 404, 400 for a wrong current password, otherwise the new hash is stored and the refresh-token ledger is left as it was |
| ExerciseModel.LengthError | models/Exercise.js:8-19 | `required` then `maxlength` on a trimmed string path: no error exactly when the value is non-empty and within the limit |
| ExerciseModel.CategoryError | models/Exercise.js:34-39 | no error exactly when the category is one of `Strength`, `Cardio`, `Flexibility` |
| ExerciseModel.Message | models/Exercise.js:8-39 | a validator contributes a message exactly when it fails |
| ExerciseModel.MessagesDistinct | models/Exercise.js:8-39 | the six fixed validator messages have six different lengths, and no category's enum message equals any of them, so each message names its validator |
| ExerciseModel.ValidationErrors | models/Exercise.js:7-39 | at most four messages, and none exactly when the document conforms |
| ExerciseModel.ValidationErrorsPerPath | models/Exercise.js:7-39 | one message per failing path: each path's required or length message is in the list exactly when that validator fails, the target and category messages likewise, and a missing name's message comes first |
| ExerciseModel.NewExercise | models/Exercise.js:7-41 | a new document keeps only the schema's paths: name and description trimmed, the GIF URL when no image is given, `Strength` when no category is given, the target and id as passed |
| ExerciseModel.BlankNameIsRequired | models/Exercise.js:8-13 | a name of white space only trims to "" and is refused as required |
| ExerciseModel.NewExerciseConforms | models/Exercise.js:7-39 | a new document saves exactly when its trimmed name (1-50) and description (1-500) fit, its target is non-empty, and its category is absent or in the enum |
| ExerciseModel.FindExercise | routes/exercises.js:165 | `Exercise.findById`: -1 exactly when no exercise has the id |
| Exercises.VisibleExercises | routes/exercises.js:22-29 | the `find` of GET /: no stored exercise has a `user` or `isDefault`, so the owner/default conditions admit every document and the result is exactly the catalog entries not in the caller's `deletedExercises` |
| Exercises.MergeOverlayAsWritten | routes/exercises.js:32-47 | the merge of GET / as written: name, description and image from the overlay when truthy, else the catalog's; the target always the overlay's, empty or not; `recommendations` has only the user's level, holding the overlay's recommendation (`{}` when unset); id and category kept |
| Exercises.OverlayWithoutTargetHidesBaseTarget | routes/exercises.js:39 | with the merge as written, an overlay made by user-recommendation (empty `target`) hides the catalog's target, and the view no longer conforms |
| Exercises.MergeOverlay | routes/exercises.js:39 | the corrected half of the first Finding: the target falls back to the catalog's when the overlay has none; name, description and image from the overlay when truthy, else the catalog's; `recommendations` has only the user's level, holding the overlay's recommendation |
| Exercises.MergeOverlayKeepsTarget | routes/exercises.js:39 | with the fallback, an exercise that has a target is never shown without one |
| Exercises.MergesDifferOnlyOnEmptyTarget | routes/exercises.js:39 | the written and the corrected merge agree exactly unless the overlay's target is empty and the catalog's is not |
| Exercises.ViewOf | routes/exercises.js:32-47 | an exercise keeps its id and category; with no overlay it is shown as stored with no `recommendations`; with one, it is the as-written merge with the user's first overlay for it |
| Exercises.ListView | routes/exercises.js:22-47 | GET /: one as-written view per visible exercise, in catalog order |
| Exercises.ListShowsExactlyVisible | routes/exercises.js:22-47 | every visible exercise appears as its view; everything shown comes from a visible exercise; nothing the caller hid appears |
| Exercises.Detail | routes/exercises.js:171-198 | GET /:id: with an overlay, the view takes its target and its truthy name, description and image, and `recommendations` holds only the level's key with the overlay's recommendation (a nested path, `{}` when unset, so the catalog is never consulted); without one, reading the stored exercise's absent `recommendations` is the 500 |
| Exercises.DetailAgreesWithList | routes/exercises.js:162-198 | GET /:id sends an exercise the caller has an overlay for exactly as GET / lists it, and cannot send one without an overlay |
| Exercises.Draft | routes/exercises.js:128-138 | the POST / document as stored: the target as an array, name and description trimmed, image and category defaulted; the owner, kinds and recommendations passed are not schema paths and are not kept |
| Exercises.CatalogOutcome | routes/exercises.js:140-157 | a 400 exactly when the document fails validation, otherwise the document to store |
| Exercises.NewOverlay | routes/exercises.js:225-234 | a first overlay entry: each body field when given, else the catalog's; the target when truthy, else the catalog's; the level's recommendation from the body cast to the declared keys, else `{}` (the catalog has none) |
| Exercises.RefreshOverlay | routes/exercises.js:235-247 | an existing overlay entry: each truthy body field replaces the old one, falsy ones keep it; the recommendation is merged, over the declared keys only, when the body has one for the level, and otherwise kept |
| Exercises.PutOverlay | routes/exercises.js:220-249 | a non-admin PUT: without an overlay, exactly one entry is appended, the `NewOverlay`; with one, only that entry changes, to its `RefreshOverlay`; either way every stored recommendation holds declared keys only (`OverlayWritersKeepDeclared`) |
| Exercises.AdminAssign | routes/exercises.js:215-217 | an admin PUT assigns the five schema paths from the body (name and description trimmed, target as an array, image, category), an absent one unsetting the path; the id is kept |
| Exercises.AdminAssignConforms | routes/exercises.js:215-217 | an admin PUT saves exactly when the body itself carries a fitting name and description, a target and a category of the enum |
| Exercises.DeleteDecision | routes/exercises.js:314-323 | the corrected half of the fourth Finding, the permission test over a stored owner and default flag: a hard delete exactly for a stored admin or the owner of a non-default exercise; a 403 exactly for anyone else on a non-default exercise; the default exercise hidden only otherwise |
| Exercises.CreatorCannotDeleteOwnExercise | routes/exercises.js:314-323 | the as-written half of the fourth Finding: the stored exercise has no owner or default flag, so for a non-admin the test refuses, the creator included, whereas with the owner recorded it would delete; only a stored admin deletes |
| Exercises.Decided | routes/exercises.js:314-323 | a 403 "Not authorized" exactly for a refusal, "removed from your view" for a hide, "deleted" exactly for a hard delete; the catalog is unchanged unless the exercise is hard-deleted, and then exactly that entry is cut out, the rest kept in order (as a multiset, one copy fewer) |
| Exercises.PullAll | routes/exercises.js:73-75 | `$pull`: the id is gone and every other id keeps its count |
| Exercises.FindRecord | routes/exercises.js:58 | `DeletedExercise.findById`: -1 exactly when no record has the id |
| Exercises.RecommendAsWrittenWithOverlay | routes/exercises.js:361-378 | with an entry for the exercise, the route writes exactly the upsert, and the entry holds only declared keys and every declared key sent, with the sent value |
| Exercises.OverlayWritersKeepDeclared | routes/exercises.js:220-249 | both routes that write an overlay, the non-admin PUT and PUT /:id/user-recommendation, keep every stored recommendation within the schema's declared keys |
| Exercises.FirstRecommendationIsLost | routes/exercises.js:363-380 | without one, the entry appended holds an empty recommendation: none of the keys sent is stored |
| Exercises.ExerciseService.constructor | routes/exercises.js:1-12 | the catalog and users as given, an empty archive |
| Exercises.ExerciseService.ListExercises | routes/exercises.js:15-53 | 404 exactly for an unknown caller, otherwise the as-written list view over the caller's hidden list, overlays and level |
| Exercises.ExerciseService.GetExercise | routes/exercises.js:162-202 | 404 for an unknown exercise, a 500 for an unknown caller; otherwise exactly the `Detail` with the caller's first overlay for it and their level, so a 200 exactly when the caller has an overlay for the exercise, the view carrying its id |
| Exercises.LevelRecommendation | routes/exercises.js:142-148 | the recommendation of the overlay a non-admin's POST / pushes: present exactly when the body has one for the user's level, and then that one with only its declared keys |
| Exercises.ExerciseService.CreateExercise | routes/exercises.js:112-159 | the 400 or the stored `Draft`; a non-admin who sent recommendations gets exactly one overlay entry with the level's recommendation cast to the declared keys (a 500 with no user document, the exercise staying saved); a 201 otherwise; the user's account, hidden lists, ledger and verification stay, and nobody else changes |
| Exercises.ExerciseService.StoreDraft | routes/exercises.js:128-140 | the catalog gains the document exactly when it validates |
| Exercises.ExerciseService.AppendOverlay | routes/exercises.js:142-148 | the user's overlay list gains one entry; nobody else changes |
| Exercises.ExerciseService.HideFor | routes/exercises.js:297-312 | the id joins `deletedExercises` at most once, a detail line is appended, nobody else changes |
| Exercises.ExerciseService.UpdateExercise | routes/exercises.js:206-269 | 404 for an unknown exercise; an admin replaces the entry by `AdminAssign`, or gets a 400 when it fails validation; a non-admin never changes the catalog, only their own overlay list (`PutOverlay`, declared recommendation keys only), their account, hidden lists, ledger and verification staying |
| Exercises.ExerciseService.DeleteExercise | routes/exercises.js:272-328 | 404; a 500 for an unknown caller; otherwise the snapshot is archived (not default) and the id hidden for the caller before the permission check, which reads no owner and no default flag: the stored admin deletes, anyone else gets the 403; only the caller's hidden-exercise lists change |
| Exercises.ExerciseService.RestoreExercise | routes/exercises.js:56-84 | 404 for no record, 403 unless admin or the deleter, a 500 when the snapshot's id is taken or it fails validation; otherwise the snapshot returns to the catalog, the record goes, and a non-admin's hidden list loses the id, nothing else of theirs changing |
| Exercises.ExerciseService.UpdateUserRecommendation | routes/exercises.js:345-384 | 404 for an unknown user, 404 for an unknown exercise; otherwise a 200, the overlay list as the route writes it (`RecommendAsWritten`), the reply's recommendation the body merged over an existing entry's (declared keys only) or, without one, the body as sent, and no other field or user changes |
| WorkoutPlanModel.NewPlan | models/WorkoutPlan.js:5-40 | a new plan has its name trimmed, type "other" when none is given, is not shared; it passes the validators exactly when the trimmed name is non-empty, a non-default plan has a user, and a given type is one of the four |
| WorkoutPlanModel.FindPlan | models/WorkoutPlan.js:96 | the index of the plan with that id, or -1 exactly when none has it |
| WorkoutPlanModel.SaveError | models/WorkoutPlan.js:71-92 | saving fails exactly when the validators refuse the document or, for a new document or a changed name, another plan of the same user or a default plan has the name; validation is reported first |
| WorkoutPlanModel.Saved | models/WorkoutPlan.js:71-92 | a new document is appended; a stored one replaces its own entry and nothing else changes |
| WorkoutPlanModel.UnchangedNameSkipsUniqueness | models/WorkoutPlan.js:72 | re-saving a stored plan under its own name can only fail validation |
| WorkoutPlanModel.SaveKeepsNamesUniquePerOwner | models/WorkoutPlan.js:57-92 | every successful save keeps each user's plan names distinct, which the unique `{name, user}` index demands |
| WorkoutPlanModel.SaveKeepsStoreOk | models/WorkoutPlan.js:71-92 | a successful save keeps ids distinct and every stored plan valid |
| WorkoutPlanModel.SpliceKeepsStoreOk | models/WorkoutPlan.js:95-108 | removing one plan keeps ids distinct and every stored plan valid, and adds no plan |
| WorkoutPlanModel.PlanCollection.Save | models/WorkoutPlan.js:71-92 | the error is `SaveError`; on error nothing changes, otherwise the collection becomes `Saved` |
| WorkoutPlanModel.PlanCollection.HandlePlanDeletion | models/WorkoutPlan.js:95-108 | "Plan not found" exactly for an unknown id; otherwise that plan goes, default or not, the others keep their order, and no plan with that id is left |
| WorkoutPlans.VisiblePlans | routes/workoutPlans.js:33-46 | a plan is listed exactly when the caller owns it, or it is a default plan the caller has not hidden |
| WorkoutPlans.FindSameName | routes/workoutPlans.js:56-63 | the first plan with that name that is the caller's or default, no such plan coming before it, or -1 exactly when there is none |
| WorkoutPlans.Overwrite | routes/workoutPlans.js:65-72 | id, name, owner and sharing are kept, exercises become the given list or empty, the plan is default exactly when an admin asks for it |
| WorkoutPlans.Replace | routes/workoutPlans.js:116-122 | only name, exercises, date and type change; the name becomes the trimmed given name |
| WorkoutPlans.DuplicateCheckNeverFires | routes/workoutPlans.js:173-178 | as written, an exercise already in the plan is appended again and then occurs at least twice |
| WorkoutPlans.AppendExercise | routes/workoutPlans.js:174 | the corrected half of the second Finding: a 400 exactly when the id is already listed; otherwise the list is the old list followed by the id |
| WorkoutPlans.AppendExerciseKeepsDistinct | routes/workoutPlans.js:173-178 | with the corrected check, a duplicate-free list stays duplicate-free and the new id occurs once |
| WorkoutPlans.Populate | models/WorkoutPlan.js:65-68 | the populated list holds only catalog documents of listed ids, at most one per id |
| WorkoutPlans.AsWrittenAlwaysAppends | routes/workoutPlans.js:173-178 | as written, an ObjectId is always appended: no document string equals it |
| WorkoutPlans.RemoveFirst | routes/workoutPlans.js:268-278 | the removal over a list: a 404 exactly when the id is not listed; otherwise the first occurrence is cut out and the multiset loses exactly one copy of the id |
| WorkoutPlans.PopulatedIds | models/WorkoutPlan.js:65-68 | the ids of the populated list, one per resolving id in order: exactly the listed ids whose exercise exists |
| WorkoutPlans.RemoveAsWritten | routes/workoutPlans.js:262-279 | DELETE /:id/exercises/:exerciseId as written: a 404 exactly when the id is not listed or its exercise is gone; otherwise the populated list without the first occurrence, which drops one copy of the id and every dangling id |
| WorkoutPlans.RemoveWithoutDanglingIds | routes/workoutPlans.js:269-279 | when every listed id resolves, the written removal is the plain removal of the first occurrence |
| WorkoutPlans.AllResolved | models/WorkoutPlan.js:65-68 | when every listed id resolves, populating loses nothing |
| WorkoutPlans.DanglingIdIsNotFound | routes/workoutPlans.js:269-275 | an id still listed whose exercise was deleted cannot be removed: the route answers 404 |
| WorkoutPlans.SharePermission | routes/workoutPlans.js:306-310 | a 403 exactly for a default plan and a caller who is not an admin |
| WorkoutPlans.PlanRoutes.constructor | routes/workoutPlans.js:14 | the routes start over the given store, users and catalog |
| WorkoutPlans.PlanRoutes.HiddenPlans | routes/workoutPlans.js:38 | the caller's hidden default plans, empty for an unknown caller |
| WorkoutPlans.PlanRoutes.ListPlans | routes/workoutPlans.js:33-46 | GET / lists exactly the stored plans `Listed` for the caller and their hidden list |
| WorkoutPlans.PlanRoutes.GetPlan | routes/workoutPlans.js:17-30 | a plan is returned exactly when one with that id is owned by the caller (so never a default plan); else 404 |
| WorkoutPlans.PlanRoutes.CreatePlan | routes/workoutPlans.js:49-94 | 400 without a name; a same-name plan of the caller or a default plan is overwritten (200) and otherwise a new plan appended (201); a plan the validators refuse gives a 400 and changes nothing |
| WorkoutPlans.PlanRoutes.OverwritePlan | routes/workoutPlans.js:65-74 | saving a plan under its own name replaces it (200), or a 400 when validation fails |
| WorkoutPlans.PlanRoutes.InsertPlan | routes/workoutPlans.js:77-89 | a plan whose name nobody else holds is appended (201), or a 400 when validation fails |
| WorkoutPlans.PlanRoutes.UpdatePlan | routes/workoutPlans.js:97-129 | 404 for an unknown plan; 403 for a default plan and a non-admin, or someone else's plan; otherwise the plan is `Replace`d, or a 400 when the save fails |
| WorkoutPlans.PlanRoutes.DeletePlan | routes/workoutPlans.js:191-217 | 404; a default plan and a non-admin: the plan stays and joins the caller's hidden list; admin or owner: the plan is deleted; anyone else gets 403; no other user changes |
| WorkoutPlans.PlanRoutes.AddExercise | routes/workoutPlans.js:155-188 | 400 without an id, 404 for an unknown exercise, 404 for an unknown plan; otherwise the written duplicate test over the populated list, so an ObjectId is appended with a 200 even when already listed |
| WorkoutPlans.PlanRoutes.RemoveExercise | routes/workoutPlans.js:257-289 | 404 for an unknown plan; otherwise the plan's list becomes `RemoveAsWritten` of it (the removal over the populated list, saved whole), or its 404 |
| WorkoutPlans.PlanRoutes.SaveExercises | routes/workoutPlans.js:178-179 | re-saving a stored plan with a new exercise list always succeeds and changes only that list |
| WorkoutModel.SetErrors | models/Workout.js:26-43 | a set has no error exactly when weight, reps and completion time are all present and the completion time is a valid date |
| WorkoutModel.SetsErrors | models/Workout.js:26-43 | a list of sets has no error exactly when every set conforms |
| WorkoutModel.EntryErrors | models/Workout.js:20-52 | an exercise entry has no error exactly when it names an exercise, has a valid completion time and all its sets conform |
| WorkoutModel.AsDate | models/Workout.js:44-47 | casting an optional time to the `Date` path: unset exactly when absent, never an invalid date |
| WorkoutModel.DateErrors | models/Workout.js:35-38 | a date path has no error exactly when it holds a valid date; unset gives the required message, an invalid date the cast message |
| WorkoutModel.EntriesErrorsContain | models/Workout.js:20-52 | every message of one entry is among the messages of the entry list |
| WorkoutModel.EntriesErrors | models/Workout.js:20-52 | a list of entries has no error exactly when every entry conforms |
| WorkoutModel.ValidationErrors | models/Workout.js:5-75 | a workout has no validation error exactly when user, plan name, start and end time are present and every entry conforms; a missing date gives the required message, an invalid one the cast message |
| WorkoutModel.DetachPlan | models/Workout.js:78-86 | same length; no workout refers to the plan any more; each one that did loses `plan` and takes the plan name, every other is unchanged |
| WorkoutModel.CountWithPlan | models/Workout.js:79-80 | the number of workouts the update matches, zero exactly when none refers to the plan |
| WorkoutModel.DetachPlanIdempotent | models/Workout.js:78-86 | a second pass changes nothing and matches no workout |
| WorkoutModel.WorkoutCollection.constructor | models/Workout.js:88 | the collection holds the given workouts |
| WorkoutModel.WorkoutCollection.HandlePlanDeletion | models/Workout.js:78-86 | the collection becomes `DetachPlan` of the old one and the count reported is `CountWithPlan` |
| Workouts.RequestError | routes/workouts.js:41-47 | "Missing required fields" exactly when the plan name is falsy or exercises, start or end time are missing; then "Invalid exercises data" exactly when the exercises are not a list or an empty one; no error only for a non-empty list |
| Workouts.BuildEntry | routes/workouts.js:53-61 | an entry keeps its exercise, gets `new Date(completedAt)` as completion time (an invalid date when none was sent) and maps its sets one for one |
| Workouts.NewDate | routes/workouts.js:57-59 | `new Date(t)`: a valid date holding `t` when a time is sent, an invalid date when none is, never unset |
| Workouts.MissingCompletedAtFailsCast | routes/workouts.js:53-61 | an entry sent without a completion time is built with an invalid date, which gives the cast message and not the required one, for the entry and for each of its sets |
| Workouts.BuildWorkout | routes/workouts.js:49-67 | the workout belongs to the caller, keeps the plan, and has one entry per requested exercise with as many sets, each built by `BuildEntry` |
| Workouts.CreateOutcome | routes/workouts.js:37-81 | a guard's 400; a 500 when an entry has no sets to map; a 400 "Validation error" carrying the non-empty validation messages of the built workout; otherwise exactly the built workout, which conforms |
| Workouts.CreateWithoutCompletedAtIsCastError | routes/workouts.js:37-81 | a POST whose guards pass but one of whose entries lacks a completion time is refused with the 400 "Validation error", and its messages include the cast message for `completedAt` |
| Workouts.CreatedWorkoutMirrorsRequest | routes/workouts.js:49-69 | a created workout is the caller's and has as many exercises, and sets per exercise, as the non-empty request |
| Workouts.Insert | routes/workouts.js:28 | inserting into a newest-first list keeps it newest first and adds exactly that workout |
| Workouts.InsertBelowHead | routes/workouts.js:28 | inserting an older workout below the head keeps the head first |
| Workouts.SortNewestFirst | routes/workouts.js:28 | `sort({ startTime: -1 })` is newest first and a permutation of its input |
| Workouts.UserWorkouts | routes/workouts.js:16-34 | GET /user returns exactly the caller's workouts, newest first |
| Workouts.OwnedOfPlan | routes/workouts.js:86-89 | exactly the caller's workouts of that plan |
| Workouts.HeadIsNewest | routes/workouts.js:90 | the head of a newest-first list starts no earlier than any element |
| Workouts.LastWorkout | routes/workouts.js:84-102 | a 200 "No workouts found" exactly when the caller has no workout of the plan; otherwise one of them that starts no earlier than any other |
| Workouts.Matching | routes/workouts.js:125-128 | exactly the caller's workouts that contain the exercise |
| Workouts.HistoryWorkouts | routes/workouts.js:125-130 | at most five workouts, each the caller's and containing the exercise |
| Workouts.HistoryIsNewestFive | routes/workouts.js:125-130 | the history holds min(5, matches) workouts newest first, and no matching workout newer than the last one shown is left out |
| Workouts.PrefixHoldsNewer | routes/workouts.js:129-130 | a prefix of a newest-first list is newest first and holds everything newer than its last element |
| Workouts.HistoryEntryOf | routes/workouts.js:134-141 | a history line carries the workout's start and the sets and notes of the first entry for the exercise |
| Workouts.ExerciseHistory | routes/workouts.js:105-148 | 400 for an empty or "undefined" id, 400 for an id that is not an ObjectId, 404 for an unknown exercise; otherwise one line per picked workout, in order |
| Workouts.ProgressSetOf | routes/workouts.js:171-174 | a set keeps its completion time or is stamped now |
| Workouts.ProgressEntries | routes/workouts.js:169-175 | one entry per input entry with its exercise and as many sets, each completed at its own time or now |
| Workouts.UpdatedProgress | routes/workouts.js:166-187 | id, user and version are kept, `lastUpdated` is now, the plan and the entries are the body's, the start is kept when none is given, and every counter is the body's, an absent one left unset |
| Workouts.NewProgress | routes/workouts.js:188-208 | the new record is the caller's at version 0 with the given plan and the body's entries, starts now when no start is given, was updated now, and has every counter set to the body's value, 0 when absent |
| Workouts.FindProgress | routes/workouts.js:165 | the caller's first record, with no record of theirs before it, or -1 exactly when they have none |
| Workouts.SecondRecordBreaksOnePerUser | routes/workouts.js:229-270 | adding a record for a caller who has one leaves two records for that user |
| Workouts.NewRecordStaysBehindOlder | routes/workouts.js:285-308 | after POST /progress/new adds a record for a caller who had one, GET /progress still finds the older record |
| Workouts.FetchOwned | routes/workouts.js:311-330 | 404 exactly for an unknown id; 403 for a workout of another user; otherwise the index of the caller's workout |
| Workouts.FindWorkout | routes/workouts.js:313 | the index of the workout with that id, or -1 exactly when none has it |
| Workouts.CastEntries | routes/workouts.js:343 | one stored entry per entry sent, each completion time cast to a date (unset when absent) and each set cast likewise, one for one |
| Workouts.ApplyPatch | routes/workouts.js:341-348 | id and owner are kept; each field absent from the body is unchanged and each present one is replaced by the body's value (the entries cast one for one) |
| Workouts.EmptyPatchChangesNothing | routes/workouts.js:341-348 | an empty body leaves the workout as it is |
| Workouts.WorkoutRoutes.constructor | routes/workouts.js:13 | the routes start over the given workouts, progress records and catalog |
| Workouts.WorkoutRoutes.CreateWorkout | routes/workouts.js:37-81 | the outcome is `CreateOutcome`; a created workout is appended and a refusal changes nothing |
| Workouts.WorkoutRoutes.SaveProgress | routes/workouts.js:150-227 | a 500 when the body cannot be mapped or the record fails validation; the caller's record is updated (200) unless a `__v` other than its version makes it a 409; a caller without one gets a new record; one record per user is preserved |
| Workouts.WorkoutRoutes.CreateProgress | routes/workouts.js:229-270 | a 500 when the body cannot be mapped or fails validation; otherwise a new record is appended (201) whatever the caller holds |
| Workouts.WorkoutRoutes.ClearProgress | routes/workouts.js:273-281 | always 200; the caller's first record goes if there is one, and with one record per user none of theirs is left |
| Workouts.WorkoutRoutes.ActiveProgress | routes/workouts.js:285-308 | `findOne({ user })`: null exactly when the caller has no record; otherwise their first record in collection order, no record of theirs coming before it |
| Workouts.WorkoutRoutes.GetWorkout | routes/workouts.js:332-335 | only the caller's own workout with that id is returned; 404 exactly when no workout has the id |
| Workouts.WorkoutRoutes.UpdateWorkout | routes/workouts.js:337-356 | `getWorkout`'s refusal, or the patched workout is stored, or a 400 when it then fails validation and nothing changes |
| Workouts.WorkoutRoutes.DeleteWorkout | routes/workouts.js:358-366 | `getWorkout`'s refusal, or the workout is removed and the others keep their order |
| WorkoutController.CreateWorkout | controllers/workoutController.js:5-52 | the route's guards give the same 400s; a created workout is the caller's and conforms (every completion time a valid date), its counters are 0 and its notes empty |
| WorkoutController.CreateAgreesWithRoute | controllers/workoutController.js:5-52 | the controller accepts exactly the requests POST / accepts and builds the same workout except for notes and counters |
| WorkoutController.GetUserWorkouts | controllers/workoutController.js:54-64 | exactly the caller's workouts, in collection order, since `date` is no path of the schema |
| WorkoutController.ListAgreesWithRoute | controllers/workoutController.js:54-64 | the controller lists the same workouts as GET /user, each as often, only the order may differ |
| WorkoutController.GetWorkout | controllers/workoutController.js:66-78 | 404 exactly when no workout has the id; otherwise that workout, whoever owns it |
| WorkoutController.ControllerSkipsOwnership | controllers/workoutController.js:66-78 | where the route answers 403, the controller returns the other user's workout |
| WorkoutController.Patched | controllers/workoutController.js:82-86 | the workout the update leaves: the route's patch of the body's fields, and the owner replaced too when the body names one; the id is kept |
| WorkoutController.UpdateWorkout | controllers/workoutController.js:80-94 | 400 when a path being set fails its validator, 404 for an unknown id; otherwise only that workout changes, to `Patched` by the body, even its owner |
| WorkoutController.UpdateKeepsConformance | controllers/workoutController.js:85 | validating only the paths being set keeps a collection of valid workouts valid |
| WorkoutController.ControllerUpdatesOthersWorkouts | controllers/workoutController.js:80-94 | where the route answers 403, a valid update of another user's workout succeeds |
| WorkoutController.DeleteWorkout | controllers/workoutController.js:96-106 | 404 exactly when no workout has the id; otherwise that one workout goes and nothing else |

## Left out

- JWT signing and verification, and bcrypt hashing and comparison, are cryptographic library calls. A token is an opaque fresh string, `jwt.verify` is its verdict (`Verified(id) | Expired | Invalid`) and a password comparison is a boolean, all passed in as parameters. Session.AuthService.Fresh is stronger than the source: utils/tokenUtils.js:10-14 signs only `{id}` with an `iat` in whole seconds, so a refresh in the same second as the login or the previous refresh re-issues the token it was sent; routes/auth.js:288-296 then puts that token back in the ledger and blacklists it, and the client's "new" token gets the 401 for fifteen minutes. Login, LoginAs, StartSession, Rotate and Refresh require a fresh token and so leave this case out.
- Sending e-mail (SMTP, templates) is I/O. Whether a send succeeds is a parameter. As written, controllers/emailVerificationController.js uses `jwt` without importing it, so its verify handler always ends in a 500; its resend handler answers its 404 guard first (the 400 and 429 cannot fire as written, see the verification line below), but then calls a `resendVerificationEmail` that utils/emailService.js does not export, so every request that passes them ends in a 500. The model gives both the verdict and the send outcome as parameters, as the code evidently intends.
- `express-rate-limit` on the resend endpoint is a library; it is not part of this model.
- Registration (POST /register), GET /user and the account-deletion cascade of DELETE /user are not part of this model. They are single persistence calls, and the cascade runs its deletions concurrently with `Promise.all`.
- Concurrency and atomicity are left out: handlers run one at a time. In particular, rotation is not claimed to be atomic against a concurrent refresh.
- Mongoose mechanics are left out: query casting, `save` round trips and the TTL monitor's sweep delay. A blacklist entry counts as gone the moment its fifteen minutes end. `populate` is modelled only where a route reads or saves the populated list (`WorkoutPlans.Populate`, `WorkoutPlans.PopulatedIds`); a populated reply body is not.
- A 500 reply carries its fixed message prefix and, in general, not the library error text appended to it. The two progress routes are the exception: their replies also carry the start of that text, the `TypeError` of mapping absent exercises or "WorkoutProgress validation failed", but not the per-path details that follow it.
- `AuthMiddleware.Authenticate` sets `req.user` to the token's id string, as written. Every route reads `req.user.id` and `req.user.isAdmin` from it, so the route handlers take an explicit `Principal(id, isAdmin)` instead, the object the code evidently expects.
- `AuthMiddleware.Authenticate` never consults the token blacklist, as written. A blacklisted access token therefore still passes, and no property claims otherwise.
- Session.AuthService.VerifyEmail: the verify-email route compares the stored token but not the token's e-mail claim, as written; only the controller variant (`EmailVerification.VerifyEmail`) compares the e-mail.
- `Date` casting is modelled only for a missing time: times are integers of milliseconds, `new Date(undefined)` is an invalid date whose cast fails, and a date string that fails to cast is not modelled.
- WorkoutModel.ValidationErrors: the messages are listed in schema order; the order Mongoose reports a cast error in, relative to the required errors of other paths, is not claimed, only which messages are present.
- `lastSetValues` of a progress record is passed through unchanged by both progress routes and is not part of the record here.
- Workouts.IsValidObjectId: only the two string shapes `ObjectId.isValid` accepts are modelled, and no id is cast.
- Share and import (routes/workoutPlans.js:292-380) call `findPlanById`, `getShareLink`, `createImportCopy` and `findByShareId`, which models/WorkoutPlan.js does not define, and run inside a MongoDB transaction; only the permission test `WorkoutPlans.SharePermission` is modelled.
- The second POST /:id/exercises handler (routes/workoutPlans.js:220-254) is registered after the first with the same path and is never reached, so only the first one is modelled.
- POST /default, in both routes/exercises.js and routes/workoutPlans.js, sits behind `adminAuth`, and as written `adminAuth` rejects every request that passed `auth` (`AdminAuth.AdminGateRefusesAuthenticatedRequests`); these handlers are left out.
- GET /deleted (routes/exercises.js:331-342) is registered after GET /:id and is never reached; it is left out.
- `WorkoutModel.WorkoutCollection.HandlePlanDeletion` also sets `planDeleted`, a path the schema does not declare, which strict mode drops; the model does not carry it.
- Workouts.HistoryEntryOf: a picked workout whose earlier entry has no exercise id makes the source's `find` throw a `TypeError`; the model assumes every stored entry names its exercise, which the schema requires.
- Workouts.FetchOwned: a stored workout without a user makes the source's `toString` throw, which the model gives as a 500; the schema requires a user, so this is not stated further.
- Exercises.TargetArray, Exercises.Draft, Exercises.CatalogOutcome and Exercises.ExerciseService.CreateExercise: a POST / body without `target` builds `[undefined]`, a one-element array that passes the schema's non-empty check, so the source stores it with a 201; the model has no unset array element and stores `[]`, which it refuses with the 400 "At least one target muscle group must be specified".
- The `exerciseType` and `measurementType` POST / derives from the category (routes/exercises.js:116-126), the `user` it passes and an admin's `recommendations` are not paths of the Exercise schema, so strict mode drops them and no stored exercise has them; they are not modelled, and every route that reads them reads undefined. Likewise the `timestamps` the schema adds are not modelled.
- WorkoutPlans.PlanRoutes.HiddenPlans and WorkoutPlans.PlanRoutes.ListPlans read the hidden-plan list from the stored user; routes/workoutPlans.js:38 reads it from `req.user`, which the model's `Principal` does not carry (its `id` and `isAdmin` only).
- ExerciseModel.LengthError counts a string's Unicode scalar values, while Mongoose's `maxlength` counts UTF-16 code units, so a name of more than 25 characters outside the Basic Multilingual Plane that the source refuses can pass here.
- Workouts.RequestError: a `startTime` of 0 is falsy, so the source's guard treats it as missing; the model treats any given time, 0 included, as present.
- WorkoutController.UpdateWorkout: a body that sets `planName` to null cannot be written; an update either sets a string or leaves the path alone.
- Recommendations are maps from names to integers. Storing one keeps only the seven keys the User schema declares (`UserModel.CastRecommendation`); a value that fails to cast to a `Number` is not modelled.
- Session.AuthService.Login, Session.AuthService.LoginAs, Session.AuthService.ResendVerification, EmailVerification.ResendVerification: models/User.js:29-52 declares none of `isEmailVerified`, `emailVerificationToken` and `emailVerificationExpires`, so strict mode drops them on save and a loaded user reads all three as undefined. As written, every login therefore ends in the 403 (`Session.NoSessionAsWritten`) and the resend handlers never answer 400 or 429 (`EmailVerification.ResendAsWrittenNeverRefuses`). These members model the account as if the three paths were declared, the behaviour the code evidently intends; their contracts about the verified flag, the 400 and the 429 hold only then.
- Session.AuthService.VerifyEmail, EmailVerification.VerifyEmail: as written, the `findOne` filter on the undeclared `emailVerificationToken` and the update of the undeclared verification paths depend on the Mongoose version's `strictQuery` setting; the model gives the behaviour with the paths declared.
- controllers/exerciseController.js, controllers/userController.js, routes/userRoutes.js, the migrations, server.js and the test scripts are not part of this model: they are single persistence calls, wiring, one-shot scripts or I/O.

## Findings

| source | as written | input that shows it | evidently intended | confidence | as-written member | corrected member |
|---|---|---|---|---|---|---|
| routes/exercises.js:39 | the GET / merge takes `userExercise.target \|\| exercise.target`; an array is truthy even when empty, so the overlay's target always wins | a user whose only overlay for an exercise was created by PUT /:id/user-recommendation (no target of its own) lists the exercises: that exercise is shown with an empty target, which the schema forbids | fall back to the catalog's target when the overlay has none | not executed | Exercises.OverlayWithoutTargetHidesBaseTarget | Exercises.MergeOverlayKeepsTarget |
| routes/workoutPlans.js:174 | the duplicate test compares `ex.toString()` with the id string, but the `findOne` hook has populated the list, so each `ex` is a document whose string is an object rendering, never a 24-digit id | POST /:id/exercises with an exercise id already in the plan: the test is false and the id is appended a second time | compare the stored ids, and answer 400 when the id is already listed | not executed | WorkoutPlans.DuplicateCheckNeverFires | WorkoutPlans.AppendExerciseKeepsDistinct |
| routes/exercises.js:363-373 | without an overlay for the exercise, the route pushes a plain object and then merges the body into that object; `push` stores a converted copy, so the stored entry keeps the empty recommendation | PUT /:id/user-recommendation with `{"sets": 3}` by a user with no overlay for the exercise: the reply shows `{"sets": 3}`, the stored entry holds `{}` | store the merged recommendation in the new entry, as `updateExerciseRecommendation` in models/User.js does | not executed | Exercises.FirstRecommendationIsLost | UserModel.UpsertRecommendationHolds |
| routes/exercises.js:314-323 | the permission test reads `exercise.isDefault` and `exercise.user`, but models/Exercise.js:7-39 declares neither path, so POST / drops the owner it passes and a loaded exercise reads both as undefined | a non-admin creates exercise X with POST / and then sends DELETE /X: X is archived and hidden for them, and the reply is a 403 "Not authorized to delete this exercise"; X stays in the catalog | declare `user` and `isDefault` in the schema, so that the creator of a custom exercise deletes it and a default one is only hidden | not executed | Exercises.CreatorCannotDeleteOwnExercise | Exercises.DeleteDecision |
| models/User.js:29-52 | the User schema declares none of `isEmailVerified`, `emailVerificationToken` and `emailVerificationExpires`, so strict mode drops all three and a loaded user is never verified; routes/auth.js:182 then refuses every login | a user registers, follows the verification link and logs in with the right password: the reply is the 403 "verify your email" with a new link, on every attempt | declare the three paths in the schema, so that a verified user can log in | not executed | Session.NoSessionAsWritten | Session.LoginReply |
