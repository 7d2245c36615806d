# Skill Swap: a verified model of the swap lifecycle and its clients

Skill Swap is a web application where members list the skills they offer and the skills
they want, find each other in a public directory, and propose one-to-one swaps. A swap
request names one offered and one wanted skill and carries a message. The responder
accepts or rejects it. The requester may withdraw it while it is pending. Either party
completes an accepted swap by rating the other party from 1 to 5 stars, and that rating
updates the rated member's average. An admin account can list all users and all swaps, and
can ban or unban members.

This project models the server's controllers and record schemas in Dafny, together with
the decision logic of the four client screens that drive them. It proves what each
operation does to the store and what it answers.

## Structure

| module | file | what it holds |
|---|---|---|
| `Wrappers` | `wrappers.dfy` | `Option` |
| `Js` | `js.dfy` | JSON values and request bodies, JavaScript truthiness, `trim`, `toLowerCase`, `includes`, `slice`, decimal printing of integers |
| `Seqs` | `seqs.dfy` | order-preserving `Filter`, duplicates, a stable descending insertion sort |
| `Casting` | `casting.dfy` | how the document mapper casts a JSON value for String, [String], Boolean and ObjectId paths |
| `UserModel` | `user_model.dfy` | the User record, its defaults, the email pattern, the 1..5 rating bound, the mean kept in `avgRating` |
| `SwapModel` | `swap_model.dfy` | the Swap record, the status enum and its default |
| `Store` | `store.dfy` | class `Db` holding both collections, the store invariant `Consistent`, `find`/`findOne` loops, populated swap views |
| `SwapController` | `swap_controller.dfy` | create, list, accept/reject, withdraw and rate |
| `UserController` | `user_controller.dfy` | the public directory, the own profile, the profile merge |
| `AdminController` | `admin_controller.dfy` | all users, ban toggle, all swaps newest first |
| `AuthController` | `auth_controller.dfy` | registration and login, including admin provisioning |
| `SwapRequestsPage` | `swap_requests_page.dfy` | swap list filters, the other party, the status colour, the action buttons |
| `ProfilePage` | `profile_page.dfy` | the profile editor's field, skill and visibility handlers |
| `HomePage` | `home_page.dfy` | the directory search and its pages of three |
| `Modals` | `modals.dfy` | the swap request form and the rating form |

Each request handler is modelled twice:

- a pure function `...Outcome(s, ...)` from the store contents `State(users, swaps)` to an
  `Outcome(reply, after)`, which carries the contract: every guard, the status code it
  produces, and the exact new store;
- a method on `Store.Db` that performs the same steps in the same order on the store
  object's maps.

Each method is proved to produce the function's outcome. Each method also keeps the store
invariant `Consistent`, through a lemma `...PreservesConsistency`. That invariant says:

- every user record passed its validators;
- `avgRating` is the mean of `ratings`;
- no two users share an email;
- every stored swap has non-empty skill lists and a message that is not blank.

Lemmas relate several calls to each other, e.g. create then accept then rate, or toggling a
ban twice.

The things a handler cannot see are parameters:

- the caller's id, which the authentication middleware supplies;
- the new record's id;
- the creation time;
- the configured admin email and password;
- the password hash function and its comparison.

The admin middleware's `role == 'admin'` test is the precondition `AdminController.IsAdmin`.

Some points where the code and its design description differ. The model follows the code:

- `updateSwapStatus` lets the responder set any of the four statuses from any status. The
  design describes restricted transitions. See `SwapController.ResponderCanReopenCompletedSwap`.
- In a swap with oneself, the requester branch of `rateSwap` wins and the rater is credited
  with their own rating. See `SwapController.SelfSwapRatingCreditsRater`.
- `availability` is a free `String` in the schema. The model does not restrict it to the
  three options the profile form offers.
- `isBanned` is read and written by `login` and `toggleBanUser`, but the User schema does not
  declare it. It is modelled as a stored boolean that starts `false`.

## Model

| member | source | states |
|---|---|---|
| `SwapController.CreateOutcome` | backend/controllers/swapController.js:8-42 | The guards in source order: requesterSkills is not a non-empty array → 400; then the same for responderSkills → 400; a falsy message → 400; a non-string message → 500; a blank message → 400; a responder or skill that does not cast → 400 validation error. Exactly when all pass → 201, and the store gains one swap with the caller as requester, the cast responder and skills, the message, `pending` and the creation time. Every refusal leaves the store unchanged. |
| `SwapController.CreateSwapRequest` | backend/controllers/swapController.js:8-42 | The handler on the store object, step by step: its reply and new store are `CreateOutcome`'s, and the store stays consistent. |
| `SwapController.CreatePreservesConsistency` | backend/controllers/swapController.js:13-31 | A created swap satisfies the store invariant: both skill lists non-empty, the message not blank. |
| `SwapController.SelfSwapAccepted` | backend/models/Swap.js:4-13 | Nothing forbids requester = responder: such a request is stored with 201. |
| `SwapController.GetUserSwaps` | backend/controllers/swapController.js:47-57 | 200 with exactly the swaps in which the caller is requester or responder, each once, each populated from the current users. |
| `SwapController.UpdateStatusOutcome` | backend/controllers/swapController.js:62-80 | A path id that is not 24 hexadecimal digits → 500, because `findById` throws inside the `try`. An upper-case id finds the swap stored under its lower-case form. Missing swap → 404. Caller not the responder → 401. A status outside the enum → 500 (the save's enum validator). Otherwise 200, and only that swap's status changes, to the requested value whatever it was before. Every refusal leaves the store unchanged. |
| `SwapController.UpdateSwapStatus` | backend/controllers/swapController.js:62-80 | The handler on the store object: it produces `UpdateStatusOutcome` and keeps the store consistent. |
| `SwapController.ResponderCanReopenCompletedSwap` | backend/controllers/swapController.js:67-72 | No transition guard: the responder can set a completed swap back to pending. |
| `SwapController.UpdateStatusPreservesConsistency` | backend/controllers/swapController.js:71-72 | A status change keeps the store invariant. |
| `SwapController.DeleteOutcome` | backend/controllers/swapController.js:85-105 | A malformed path id → 500 from the cast; an upper-case id is looked up in lower case. Missing → 404. Not the requester → 401, checked before the status, so it also holds for non-pending swaps. Requester but not pending → 400. 200 iff requester and pending, and then exactly that swap is removed. |
| `SwapController.DeleteSwapRequest` | backend/controllers/swapController.js:85-105 | The handler on the store object: it produces `DeleteOutcome` and keeps the store consistent. |
| `SwapController.DeletePreservesConsistency` | backend/controllers/swapController.js:97 | Removing a swap keeps the store invariant. |
| `SwapController.RatedParty` | backend/controllers/swapController.js:124-133 | The rater is the requester → the responder is rated; this branch is tested first. Else the rater is the responder → the requester is rated. A result exists iff the rater is a party. |
| `SwapController.WithRating` | backend/controllers/swapController.js:141-149 | The rated record gets `ratings ++ [Rating(rater, value, trimmed feedback)]` and `avgRating` = the mean of all its ratings. No other field changes. |
| `SwapController.RatedState` | backend/controllers/swapController.js:141-154 | The store after a successful rating: the rated party's record as `WithRating` gives it, and the swap `completed`. |
| `SwapController.RateOutcome` | backend/controllers/swapController.js:110-162 | The guards in order: a malformed path id → 500 "Server Error" from the cast, and an upper-case id is looked up in lower case; missing → 404; not `accepted` → 400, before membership; not a party → 401; rated user missing → 404; a value outside 1..5 → 500 because the user save fails, so the swap stays `accepted`. 200 iff every guard passes, and then the store is `RatedState`. Every refusal leaves the store unchanged. |
| `SwapController.RateSwap` | backend/controllers/swapController.js:110-162 | The handler on the store object: it produces `RateOutcome` and keeps the store consistent. |
| `SwapController.Rerate` | backend/controllers/swapController.js:146-149 | The push, the `reduce` and the division compute exactly `WithRating`. |
| `SwapController.SaveRating` | backend/controllers/swapController.js:151-154 | The two saves, the rated user and then the swap, leave the store that the 200 reply of `RateOutcome` describes. |
| `SwapController.SecondRatingRefused` | backend/controllers/swapController.js:120-122 | After a successful rating the swap is completed, so any further rating of it, by anyone, gets 400 "Can only rate accepted swaps." |
| `SwapController.SelfSwapRatingCreditsRater` | backend/controllers/swapController.js:127-128 | In a self-swap the rater's own ratings list gains the rating. |
| `SwapController.RatingUpdatesMeanIncrementally` | backend/controllers/swapController.js:146-149 | The list grows by exactly one, and the new mean is (n · old mean + value) / (n + 1). |
| `SwapController.RatedRecordValid` | backend/models/User.js:10-15 | A record rated with a value in 1..5 still passes the rating bound, and its mean is still exact. |
| `SwapController.RatePreservesConsistency` | backend/controllers/swapController.js:141-154 | A rating keeps the store invariant. |
| `SwapController.RateCommits` | backend/controllers/swapController.js:151-156 | When every guard passes, the reply is 200 "Rating submitted and swap completed." and the new store is consistent. |
| `SwapController.CreateAcceptRateScenario` | backend/controllers/swapController.js:8-162 | Create, accept by the responder, rate 5 by the requester → each step succeeds, the swap ends `completed`, the responder's ratings gain the rating, and their mean is updated. |
| `SwapController.CreateDeleteScenario` | backend/controllers/swapController.js:85-105 | Creating and then withdrawing a request restores the store. A second withdrawal gets 404. |
| `SwapController.DeleteFreshPending` | backend/controllers/swapController.js:89-98 | Withdrawing a freshly added pending swap by its requester gives 200 and the previous store, and a repeat gets 404. |
| `SwapModel.ParseStatus` | backend/models/Swap.js:28-32 | A string passes the enum iff it is the name of one of the four statuses, and it then denotes that status. |
| `UserModel.NewUserValid` | backend/models/User.js:22-72 | A new record with a name and a matching email is valid. It has no ratings, `avgRating` 0, location "", availability "Weekends", `isPublic` true, no skills, not banned, and the given role. |
| `UserModel.EmailHasOneAt` | backend/models/User.js:31-34 | An address that matches the pattern has exactly one `@`, and it is not the first character. |
| `UserModel.TopLevelLabelsHaveNoAt` | backend/models/User.js:32 | The `(\.\w{2,3})+` tail of the pattern contains no `@`. |
| `UserModel.EmailExample` | backend/models/User.js:32 | `a@b.co` matches the pattern. |
| `UserModel.FoldIsSum` | backend/controllers/swapController.js:148 | The `reduce` with accumulator `acc` yields `acc` plus the sum of the values. |
| `UserModel.MeanAppend` | backend/controllers/swapController.js:146-149 | Appending one rating moves the mean to the weighted combination of the old mean and the new value. |
| `UserModel.SumBounds` | backend/models/User.js:10-15 | With every value in 1..5 the sum lies between n and 5n. |
| `UserModel.MeanInRange` | backend/models/User.js:10-15 | With every value in 1..5 a non-empty mean lies in [1, 5]. |
| `Casting.CastString` | backend/models/User.js:23-26 | A String path keeps strings, converts numbers and booleans, and refuses null, arrays and objects. |
| `Casting.TruthyCastsNonEmpty` | backend/models/User.js:23-26 | A truthy value that casts to a string casts to a non-empty one. |
| `Casting.CastStrings` | backend/models/Swap.js:15-23 | An array casts iff every element casts, element by element, keeping its length. |
| `Casting.CastStringArray` | backend/models/User.js:50-51 | A [String] path casts an array element-wise and wraps a single string. |
| `Casting.CastBoolean` | backend/models/User.js:56-59 | The Boolean path accepts exactly true, "true", 1, "1", "yes" as true, exactly false, "false", 0, "0", "no" as false, and refuses the rest. |
| `Casting.CastObjectId` | backend/models/Swap.js:9-13 | An ObjectId path accepts exactly the strings of 24 hexadecimal digits, stored in lower case. |
| `Casting.PathKey` | backend/controllers/swapController.js:64 | `findById` on a route id: defined iff the id has 24 hexadecimal digits, and then it is the id in lower case. |
| `Casting.PathKeyExamples` | backend/controllers/adminController.js:21 | "abc" is refused. An upper-case 24-digit id gives its lower-case form, which is a stored id. |
| `Store.UserWithEmail` | backend/controllers/authController.js:23 | `findOne({ email })` finds a user iff one has that email, and the one it finds has it. |
| `Store.Db.FindOne` | backend/controllers/authController.js:23 | The loop over the collection returns `UserWithEmail`. |
| `Store.Db.FindUsers` | backend/controllers/userController.js:9 | Every returned entry is a stored user satisfying the filter, every such user is returned, and none twice. |
| `Store.Db.FindSwaps` | backend/controllers/swapController.js:49-51 | The same for swaps, each returned populated from the current users. |
| `Store.Populate` | backend/controllers/swapController.js:51 | `populate` gives the referenced user's id and name when the user exists, and `null` otherwise. |
| `Store.ReplaceUserKeepsConsistency` | backend/models/User.js:30 | Replacing a record by a valid one with the same email keeps every record valid and the emails unique. |
| `Store.Db.constructor` | backend/models/User.js:22-72 | An empty store is consistent. |
| `UserController.GetAllPublicUsers` | backend/controllers/userController.js:6-15 | 200 with exactly the users whose `isPublic` is true, each once. |
| `UserController.GetUserProfile` | backend/controllers/userController.js:20-36 | A missing caller → 404 and no profile. Otherwise 200 with the caller's own record. |
| `UserController.MergeProfile` | backend/controllers/userController.js:48-57 | The merge succeeds iff every assigned value casts. Only name, location, the two skill lists, availability and isPublic can change. A falsy text or list value keeps the stored one. A truthy name, location or availability becomes its String cast. A truthy skill list becomes its [String] cast: an array element-wise, any other value wrapped as one element. isPublic changes only when supplied, and then it becomes the cast value. |
| `UserController.UpdateProfileOutcome` | backend/controllers/userController.js:41-72 | Missing caller → 404. A cast failure → 500. Otherwise 200, and exactly the caller's record is replaced by the merge. |
| `UserController.UpdateUserProfile` | backend/controllers/userController.js:41-72 | The handler on the store object: it produces `UpdateProfileOutcome` and keeps the store consistent. |
| `UserController.AssignFields` | backend/controllers/userController.js:48-57 | The six in-place assignments, with a cast-failure flag, compute exactly `MergeProfile`. |
| `UserController.AssignText` | backend/controllers/userController.js:48-49 | A keep-or-replace assignment on a String path: the value kept, and whether its cast failed. |
| `UserController.AssignSkills` | backend/controllers/userController.js:50-51 | The same on a [String] path. |
| `UserController.AssignVisibility` | backend/controllers/userController.js:55-57 | The `isPublic !== undefined` assignment on a Boolean path. |
| `UserController.EmptyTextKeepsStoredValues` | backend/controllers/userController.js:48-52 | Empty strings for name, location and availability leave the record as it was. |
| `UserController.EmptyArrayClearsSkills` | backend/controllers/userController.js:50-51 | An empty array is truthy, so it clears a skill list. |
| `UserController.FalseHidesProfile` | backend/controllers/userController.js:55-57 | `isPublic: false` is applied. |
| `UserController.PhotoBodyChangesNothing` | backend/controllers/userController.js:59 | A body carrying only `profilePhoto` changes nothing. |
| `UserController.MergeIdempotent` | backend/controllers/userController.js:48-57 | Applying the same update twice has the effect of applying it once. |
| `UserController.MergeKeepsRecordValid` | backend/controllers/userController.js:48-62 | A merged record is still valid, and its email is unchanged. |
| `UserController.UpdatePreservesConsistency` | backend/controllers/userController.js:41-72 | A profile update keeps the store invariant. |
| `AdminController.GetAllUsers` | backend/controllers/adminController.js:7-14 | 200 with every stored user, unfiltered, each once. |
| `AdminController.BanMessage` | backend/controllers/adminController.js:30 | The message says "banned" iff the new flag is true, and "unbanned" iff it is false. |
| `AdminController.ToggleBanOutcome` | backend/controllers/adminController.js:19-34 | A malformed path id → 500 "Server Error" from the cast, and no change; an upper-case id is looked up in lower case. A missing user → 404 and no change. Otherwise 200, only that user's `isBanned` is negated, and the message is "banned" iff the new flag is set. |
| `AdminController.ToggleBanUser` | backend/controllers/adminController.js:19-34 | The handler on the store object: it flips the flag in place, produces `ToggleBanOutcome` and keeps the store consistent. |
| `AdminController.ToggleTwiceRestores` | backend/controllers/adminController.js:27 | Toggling twice restores the store, and the two replies say opposite things. |
| `AdminController.ToggleChangesOnlyTheFlag` | backend/controllers/adminController.js:26-28 | Every other user is unchanged, and the toggled user differs in `isBanned` only. |
| `AdminController.TogglePreservesConsistency` | backend/controllers/adminController.js:27-28 | A toggle keeps the store invariant. |
| `AdminController.GetAllSwaps` | backend/controllers/adminController.js:39-49 | 200 with every swap, each once, each populated from the current store, ordered by `createdAt` descending. |
| `Seqs.SortDescending` | backend/controllers/adminController.js:44 | The sort returns a permutation of its input. |
| `Seqs.SortIsDescending` | backend/controllers/adminController.js:44 | The sort's output is ordered by key, largest first. |
| `Seqs.SortKeepsNoDuplicates` | backend/controllers/adminController.js:44 | Sorting a list without repeats gives a list without repeats. |
| `AuthController.PhotoFor` | backend/controllers/authController.js:29-30 | The avatar URL is the placeholder base followed by the upper-cased first character of the name, or the bare base for an empty name. |
| `AuthController.RegisterOutcome` | backend/controllers/authController.js:14-52 | The admin email → 400 "This email is reserved.". A taken email → 400 "User already exists". Invalid fields → 500. 201 iff none of these applies, and then exactly one member record is added, with the hashed password and `PhotoFor(name)`. Every refusal leaves the store unchanged. |
| `AuthController.Register` | backend/controllers/authController.js:14-52 | The handler on the store object: it produces `RegisterOutcome` and keeps the store consistent. |
| `AuthController.RegisteredPhotoShowsInitial` | backend/controllers/authController.js:29-37 | A registered member's photo URL ends with `text=` followed by the upper-cased initial. |
| `AuthController.SecondRegistrationRefused` | backend/controllers/authController.js:23-27 | Registering the same email again gets 400 and adds nothing. |
| `AuthController.RegisterPreservesConsistency` | backend/controllers/authController.js:32-37 | Registration keeps the store invariant, emails included. |
| `AuthController.LoginOutcome` | backend/controllers/authController.js:57-114 | Admin credentials are checked first. An existing admin record is reused; otherwise exactly one is created with role admin, the name "Admin" and the admin photo, or the reply is 500. The ban flag is never read on this path. Otherwise: 401 iff the email is unknown or the password does not match; 403 iff it matches and the user is banned; 200 iff it matches and the user is not banned. Only admin provisioning changes the store. |
| `AuthController.Login` | backend/controllers/authController.js:57-114 | The handler on the store object: it produces `LoginOutcome` and keeps the store consistent. |
| `AuthController.BannedWrongPasswordGets401` | backend/controllers/authController.js:96-100 | A banned user with a wrong password gets 401, not 403. |
| `AuthController.AdminLoginIgnoresBan` | backend/controllers/authController.js:61-85 | Even a banned admin record logs in with the admin credentials, and the store does not change. |
| `AuthController.AdminLoginIdempotent` | backend/controllers/authController.js:63-77 | A second admin login creates nothing more and issues the token for the same record. |
| `AuthController.RegisterThenLogin` | backend/controllers/authController.js:14-114 | A member who has just registered logs in with the same password, provided the hash comparison accepts it. |
| `AuthController.LoginPreservesConsistency` | backend/controllers/authController.js:70-76 | Login, including admin provisioning, keeps the store invariant. |
| `SwapRequestsPage.OtherParty` | frontend/src/pages/SwapRequestsPage.jsx:92 | The responder when the viewer is the requester, otherwise the requester. |
| `SwapRequestsPage.FilteredSwaps` | frontend/src/pages/SwapRequestsPage.jsx:89-96 | A swap is listed iff both parties are present, the other party's name contains the query ignoring case, and the status filter is `all` or equals the status. |
| `SwapRequestsPage.FilteredSwapsKeepOrder` | frontend/src/pages/SwapRequestsPage.jsx:89-96 | The filter works swap by swap: the filtered concatenation is the concatenation of the filtered parts, so input order is kept. |
| `SwapRequestsPage.NoFilterShowsAllPresent` | frontend/src/pages/SwapRequestsPage.jsx:89-96 | With `all` and an empty query, exactly the swaps with both parties are shown, in order. |
| `SwapRequestsPage.StatusColor` | frontend/src/pages/SwapRequestsPage.jsx:78-86 | Anything that is not a status name is gray. |
| `SwapRequestsPage.StatusColorsDistinct` | frontend/src/pages/SwapRequestsPage.jsx:78-86 | The four statuses get four different colours, none of them gray. |
| `SwapRequestsPage.PendingOffersOneAction` | frontend/src/pages/SwapRequestsPage.jsx:171-181 | A pending swap shows exactly one of Accept/Reject and Delete. |
| `SwapRequestsPage.AcceptRejectSucceed` | frontend/src/pages/SwapRequestsPage.jsx:171-176 | When Accept/Reject is shown for a current swap, the server carries out both actions with 200. |
| `SwapRequestsPage.DeleteSucceeds` | frontend/src/pages/SwapRequestsPage.jsx:177-181 | When Delete is shown for one of the viewer's swaps, the server removes it with 200. |
| `SwapRequestsPage.RateGuardsPass` | frontend/src/pages/SwapRequestsPage.jsx:182-187 | Complete & Rate on one of the viewer's swaps never meets 400, 401 or 404. With a value in 1..5 it gets 200. |
| `ProfilePage.InputChange` | frontend/src/pages/ProfilePage.jsx:22-25 | The named field takes the value, and every other field is unchanged. |
| `ProfilePage.SkillAdd` | frontend/src/pages/ProfilePage.jsx:27-41 | When the trimmed input is non-empty and not yet listed, it is appended and its box cleared. Otherwise nothing changes. The other list and the other box are untouched. |
| `ProfilePage.SkillAddKeepsNoDuplicates` | frontend/src/pages/ProfilePage.jsx:31-39 | Adding never introduces a repeated skill. |
| `ProfilePage.BoxClearedIffAdded` | frontend/src/pages/ProfilePage.jsx:35-38 | A non-empty box is cleared iff the add happens. |
| `ProfilePage.SkillAddKeepsTrimmed` | frontend/src/pages/ProfilePage.jsx:28-32 | If every listed skill is trimmed and non-empty, it stays so after an add. |
| `ProfilePage.SkillRemove` | frontend/src/pages/ProfilePage.jsx:43-49 | Every occurrence of the skill goes. The others stay, in their order and with their repeats: the list is the order-preserving `Filter` of the old one. The other list is untouched. |
| `ProfilePage.RemoveUndoesAdd` | frontend/src/pages/ProfilePage.jsx:27-49 | Removing the skill just added restores the profile. |
| `ProfilePage.RemoveAbsentIsNoOp` | frontend/src/pages/ProfilePage.jsx:43-49 | Removing an unlisted skill changes nothing. |
| `ProfilePage.IsPublicFromSelect` | frontend/src/pages/ProfilePage.jsx:132 | The flag is true iff the selected value is "true". |
| `ProfilePage.SelectRoundTrip` | frontend/src/pages/ProfilePage.jsx:132 | Reading back the option shown for a flag gives that flag. |
| `HomePage.FilterUsers` | frontend/src/pages/HomePage.jsx:42-56 | A user is listed iff it is not the viewer, not an admin, matches the query (if any) in its name or any skill ignoring case, and has the chosen availability (unless `All`). |
| `HomePage.NeverListsSelfOrAdmin` | frontend/src/pages/HomePage.jsx:44 | The viewer and admins are never listed, whatever the search. |
| `HomePage.OnFilterChange` | frontend/src/pages/HomePage.jsx:42-60 | Every filter change shows the new result from page 1. |
| `HomePage.TotalPages` | frontend/src/pages/HomePage.jsx:62 | The number of pages is ⌈n / 3⌉: the smallest t with 3t ≥ n. |
| `HomePage.Page` | frontend/src/pages/HomePage.jsx:63 | Page p holds at most three users: elements (p−1)·3 up to p·3 of the list, clipped to its length. |
| `HomePage.PagesInRangeAreNonEmpty` | frontend/src/pages/HomePage.jsx:62-63 | A page is non-empty iff its number is at most the page count. |
| `HomePage.PagesPartitionList` | frontend/src/pages/HomePage.jsx:62-63 | The pages, read in order, are the list: nothing is lost, repeated or reordered. |
| `HomePage.FilterChangeShowsFirstPage` | frontend/src/pages/HomePage.jsx:59-63 | After a filter change the page shows the first three users of the new result. |
| `Modals.RequestInit` | frontend/src/components/Modals.jsx:22-24 | The form opens with the first offered and the first wanted skill, or "" for an empty list, and an empty message. |
| `Modals.RequestSubmit` | frontend/src/components/Modals.jsx:26-38 | A payload is sent iff neither skill nor the untrimmed message is empty. It carries the skills under the singular keys only. |
| `Modals.FreshFormBlocked` | frontend/src/components/Modals.jsx:24-31 | A form that has just opened cannot be sent. |
| `Modals.SubmittedRequestAlwaysRefused` | frontend/src/components/Modals.jsx:32-37 | Every payload the form sends is answered 400 "You must offer at least one skill." by the create handler, and nothing is stored. |
| `Modals.CorrectedSubmit` | frontend/src/components/Modals.jsx:26-38 | The payload with `requesterSkills`/`responderSkills` as one-element arrays passes both array guards. |
| `Modals.CorrectedRequestCreatesSwap` | frontend/src/components/Modals.jsx:32-37 | With that payload, a complete form with a non-blank message and a well-formed target id creates exactly the pending swap it describes. |
| `Modals.BlankMessagePassesClientOnly` | frontend/src/components/Modals.jsx:28 | A message of spaces passes the client's check but gets the server's 400 "A message is required.", even with the corrected payload. |
| `Modals.RatingStep` | frontend/src/components/Modals.jsx:123-135 | A click selects its star, entering hovers it, leaving clears the hover, and typing replaces the feedback. |
| `Modals.RatingRunInRange` | frontend/src/components/Modals.jsx:92-125 | From the initial (0, 0), after any events, rating and hover stay in 0..5. |
| `Modals.NoClickNoRating` | frontend/src/components/Modals.jsx:92-125 | Only a click selects: without clicks the rating stays 0. |
| `Modals.RatingSubmit` | frontend/src/components/Modals.jsx:96-103 | Submission is refused iff the rating is 0. Otherwise it sends the rating and the feedback. |
| `Modals.SubmittedRatingInBounds` | frontend/src/components/Modals.jsx:96-116 | Any submitted rating lies in 1..5, the bound the rating record enforces. |
| `Modals.FilledStarsArePrefix` | frontend/src/components/Modals.jsx:121-126 | If star k is filled, every star below k is filled too. |
| `Modals.RatingFromListCompletesSwap` | frontend/src/pages/SwapRequestsPage.jsx:65-76 | A rating submitted from the Complete & Rate button of one of the viewer's swaps gets 200 from the server. |
| `Js.TrimEmptyIffBlank` | backend/controllers/swapController.js:19 | `trim()` gives "" iff the string is all white space. |
| `Js.TrimIdempotent` | frontend/src/pages/ProfilePage.jsx:28 | Trimming twice is trimming once. |
| `Js.Slice` | frontend/src/pages/HomePage.jsx:63 | `slice` with indices in range is the subsequence, and it is empty from past the end. |
| `Seqs.Filter` | frontend/src/pages/HomePage.jsx:44-56 | `filter` keeps exactly the elements satisfying the predicate, and no more than it was given. |
| `Seqs.FilterAppend` | frontend/src/pages/SwapRequestsPage.jsx:89-96 | Filtering distributes over concatenation, i.e. it preserves order. |

## Left out

- Networking, Express routing, the database driver, `async`/`await` and `try`/`catch`
  plumbing. Each handler is one sequential step on in-memory maps, so the read-then-save
  race between concurrent requests is not represented.
- JSON Web Tokens (`generateToken`, the 30-day expiry) and the authentication middleware.
  The caller's id is a parameter, and a successful login or registration returns the id
  the token would be issued for.
- bcrypt. The `pre('save')` hook and `matchPassword` are replaced by the parameters `hash`
  and `matches`. The model assumes that every save of a fetched user succeeds when its
  validators pass. What the hook does to a record fetched without its password field is not
  modelled.
- Reply bodies other than the status code and the message. Not modelled: the returned
  documents' exact JSON, the `details` of validation errors, field projections such as the
  populated `'name profilePhoto'`, and the password's `select: false`.
- The exact text of the database's own error messages. The 500 replies that echo
  `error.message` carry fixed constants such as "User validation failed", "Cast to
  ObjectId failed" and "Swap validation failed".
- Timestamps. `createdAt` is a parameter of creation, and `updatedAt` is not modelled.
- The order in which `find` returns documents is left unspecified: the model proves
  membership, completeness and no repeats only. Among swaps with equal `createdAt`, the
  sort's tie order is also unspecified: the model proves a permutation ordered by key.
- The ObjectId format beyond "24 hexadecimal digits". Ids are strings. Casts of exotic
  values (objects with an `_id`, 12-byte strings, `null` array elements, dates) are refused
  rather than modelled, both in request bodies and in the route ids of `updateSwapStatus`,
  `deleteSwapRequest`, `rateSwap` and `toggleBanUser`.
- UserController.MergeProfile: a `null` `isPublic` is treated as a cast failure (500), whereas
  the document mapper stores `null` and saves successfully.
- Numbers: only integers. Fractional or exponent-printed numbers in request bodies are not
  modelled, and `avgRating` is an exact rational rather than a floating-point value.
- Case mapping is ASCII only, in `toLowerCase`, `toUpperCase` and the search filters.
- Non-string `status`, `rating`, `feedback`, `email`, `password` or `name` in request bodies,
  and absent fields in those bodies. These handlers take typed parameters, so the behaviour
  of such values is not modelled. For example, an absent `status` sets the field to
  `undefined`, which the enum validator skips, so `updateSwapStatus` saves and answers 200
  with the status unset.
- An unset `ADMIN_EMAIL` or `ADMIN_PASSWORD`. The configuration is always a pair of strings.
- The schema gap for `isBanned`. The field is not declared in the schema, yet it is read and
  written by the handlers. Whether the document mapper actually persists it is not decided
  here.
- The rating form's `alert` and the request form's console message. Both are I/O.
- The admin dashboard, the authentication context, the API client, the route guards, the
  login and register pages, the header, the notification and skill-tag components, the
  star display's `toFixed`, and all rendering and styling. These are presentation,
  browser storage or timers, and `AdminDashboard.jsx`, `AuthContext.jsx`, `api.js` and
  `Rating.jsx` are not part of this model.
- `getMe` (`authController.js:119-126`). It is a plain lookup outside the decision chains
  (it is the same lookup as `UserController.GetUserProfile` without the 404 branch).

## Findings

| source | as written | input that shows it | evidently intended | confidence | as-written member | corrected member |
|---|---|---|---|---|---|---|
| frontend/src/components/Modals.jsx:32-37 against backend/controllers/swapController.js:10,13-15 | The request form sends the chosen skills as single strings under `requesterSkill` and `responderSkill`, but the create handler reads `requesterSkills` and `responderSkills` and requires them to be non-empty arrays. | Any complete form, e.g. skills "Guitar" and "Piano" with message "Hi": the body has no `requesterSkills`, so the reply is 400 "You must offer at least one skill." and no swap is stored. | Send `requesterSkills: [requesterSkill]` and `responderSkills: [responderSkill]`. The handler then stores the pending swap described by the form. | not executed | `Modals.SubmittedRequestAlwaysRefused` | `Modals.CorrectedRequestCreatesSwap` |
