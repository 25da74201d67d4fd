# My Lanyard — a verified model of its rule sets

My Lanyard is a web application for authoring icons, cards, lanyards (ordered
card collections) and tags. An Express/Sequelize backend serves it, and a
React/Redux client drives it. Most of the code is request and view plumbing.
Under the plumbing sit several small, deterministic rule sets. This project
models those rule sets in Dafny as pure functions over immutable data and
proves what they promise. Where the code does something its authors evidently
did not intend, the project also proves that.

The modules follow the source files:

| module | models |
|---|---|
| `Policy` | `userCanViewItem` and `byUserOrSystem` (`backend/utils/misc.js`) |
| `ApiErrors` | the error constructors of `backend/utils/errors.js` |
| `TaggingModel` | the Tagging record, its validator and its `afterUpdate` hook (`backend/db/models/tagging.js`) |
| `RequestValidation` | `validateRequest`, `finishBadRequest` and `finishNotFound` (`backend/utils/validation.js`) |
| `TaggingRoutes` | `maybeGetTagging` and the tagging create/list/read/delete handlers (`backend/utils/tagging.js`) |
| `IconRoutes` | `maybeGetIcon`, `getIconValues` and the icon handlers (`backend/routes/api/icons.js`) |
| `Seeder` | `getIconName` and the seeded admin id (`backend/db/seeders/20230222054815-demo-users.js`) |
| `ItemsReducer` | `createItemsReducer` and its action creators (`frontend/src/store/reducers/utils/items.js`) |
| `SelectionReducer` | `createSelectionReducer` and `deselectAll` (`frontend/src/store/reducers/utils/selection.js`) |
| `Selectors` | the item, selection and session selectors (`frontend/src/store/selectors.js`) |
| `SingleSelected` | the effect of `useSingleSelected` (`frontend/src/hooks/single-selected.js`) |
| `Session` | the session reducer and `trackSession`/`untrackSession` (`frontend/src/store/reducers/auth.js`) |
| `ErrorIssues` | `handleApiErrors`, `getIdForError` and `dismissErrors` (`frontend/src/store/reducers/utils/errors.js`) |
| `Filters` | the list filter of `useFilters` (`frontend/src/hooks/filters.js`) |
| `ClassNames`, `StyleProps` | the class-name builder (`frontend/src/css/classname.js`) |
| `Wrappers`, `Strings`, `JsValues` | shared support: `Option`/`Result`; decimal printing, substring search, join and split; JavaScript values with truthiness, `typeof`, property reads and template-literal string conversion |

These modelling choices hold throughout:
- A database table is a finite map from primary key to row.
- The authenticated caller is a plain user id parameter. It stands in for
  `requireAuth` (backend/utils/auth.js:60-70), which as written does not
  deliver a user (see "## Left out").
- Whatever the code reads from the outside comes in as a parameter: the clock,
  the express-validator outcome, a parsed response body.
- A thrown exception is the `Err` branch of a `Result`.
- A JavaScript value is the `JsValue` datatype. Its `Truthy` and `ToJsString`
  follow the language's rules for the values that occur in these files.

## Model

| member | source | states |
|---|---|---|
| Policy.UserCanViewItem | backend/utils/misc.js:3-13 | An item by the system author is visible to everyone. Any other item is visible exactly when the caller's id equals its author id. |
| Policy.ByUserOrSystem | backend/utils/misc.js:21-25 | The query scope always includes the system author id. A falsy user id (absent or 0) leaves the system id alone in the scope; any other user id is added after it. |
| Policy.SystemItemsVisibleToAll | backend/utils/misc.js:5-10 | An item by the system author is visible to every caller, including an anonymous one. |
| Policy.OwnerOnlyVisibility | backend/utils/misc.js:5-13 | For any other author, an item is visible exactly when the caller is that author. |
| Policy.AnonymousSeesOnlySystem | backend/utils/misc.js:6-12 | A null or undefined caller, replaced by -Infinity, sees an item exactly when the system authored it. |
| Policy.ViewIsReflexive | backend/utils/misc.js:12 | Every defined user id may view its own items. |
| Policy.ScopeMatchesVisibility | backend/utils/misc.js:5-25 | For a truthy user id, an author is in the list query's scope exactly when the per-item check lets that user view the author's items. |
| Policy.ZeroUserScopeMismatch | backend/utils/misc.js:5-25 | For user id 0 the two checks disagree: the item check lets user 0 view its own items, but the query scope drops the falsy id. |
| ApiErrors.NotAllowed | backend/utils/errors.js:2-5 | Status 403 with the fixed "does not have access" message. |
| ApiErrors.NotRecognized | backend/utils/errors.js:6-9 | Status 401 with the fixed "not recognized" message. |
| ApiErrors.NotFound | backend/utils/errors.js:10-13 | Status 404. The message starts with the resource name and ends with " was not be found". |
| ApiErrors.Conflict | backend/utils/errors.js:14-17 | Status 409. The message starts with the email and ends with " already in use.". |
| ApiErrors.RecoverRaise | backend/utils/errors.js:1-18 | The kind of error, and its name or email argument, can be read back from the status and the message. |
| ApiErrors.RecoverNotFound | backend/utils/errors.js:10-13 | A not-found error gives back exactly the resource name it was built from. |
| ApiErrors.RecoverConflict | backend/utils/errors.js:14-17 | A conflict error gives back exactly the email it was built from. |
| ApiErrors.RaiseInjective | backend/utils/errors.js:1-18 | Different kinds or arguments never produce the same error object. |
| TaggingModel.References | backend/db/models/tagging.js:76-78 | The number of truthy target references is at most 3. It is 0 exactly when no target is set. |
| TaggingModel.Validate | backend/db/models/tagging.js:13-83 | A row is accepted exactly when it has an author and a tag and at most one target reference. Each failed rule contributes its own message, and only when that rule fails. |
| TaggingModel.Create | backend/db/models/tagging.js:74-83 | An insert succeeds exactly when validation passes. It adds the row unchanged, keeps an all-valid store all valid, and reports the validation messages on failure. |
| TaggingModel.Update | backend/db/models/tagging.js:64-83 | An invalid patch is rejected with the validator's messages. A valid one writes the patched row and leaves every other row alone. The row survives exactly when it still references a target. |
| TaggingModel.UpdateKeepsSingleTarget | backend/db/models/tagging.js:64-83 | Starting from an all-valid store, a successful update keeps the store valid, and a surviving row references exactly one target. |
| TaggingModel.UpdatePreservesAllSingleTarget | backend/db/models/tagging.js:64-83 | Updates preserve the invariant that every row references exactly one target. |
| TaggingModel.ValidatorRejectsSeveral | backend/db/models/tagging.js:75-82 | Two or three references are rejected with the "exactly one object" message. |
| TaggingModel.ValidatorAcceptsNone | backend/db/models/tagging.js:78-80 | A tagging with no reference at all passes validation. |
| TaggingModel.ClearingLastReferenceDestroys | backend/db/models/tagging.js:65-71 | A valid update that clears the last reference removes the row. |
| TaggingModel.HookKeepsReferencedRow | backend/db/models/tagging.js:69 | A valid update that leaves a reference stores exactly the patched row, and the hook does nothing more. |
| TaggingRoutes.MaybeGetTagging | backend/utils/tagging.js:15-29 | A missing row is "Tagging" not found. A defined author id different from the row's author is "not allowed". Otherwise the row itself is returned. An undefined author id skips the ownership check. |
| TaggingRoutes.InstanceIdErrors | backend/utils/tagging.js:31-33 | The instance-id check reports nothing exactly when the id is present and truthy. |
| TaggingRoutes.CreateTagging | backend/utils/tagging.js:39-63 | Creation succeeds exactly when the instance id is truthy and both lookups succeed. The new row has the caller as author, the resolved tag, and only the router's own foreign key set. It is valid and references exactly one target. A falsy instance id is rejected with the check's message. |
| TaggingRoutes.CreateTaggingAsWritten | backend/utils/tagging.js:43-45 | As written, a falsy instance id is reported, and every other request ends in the TypeError of destructuring `undefined`. |
| TaggingRoutes.CreateTaggingAsWrittenNeverSucceeds | backend/utils/tagging.js:39-63 | As written, no request creates a tagging. A request that passes validation is answered with status 500. |
| TaggingRoutes.CreatePreservesAllSingleTarget | backend/utils/tagging.js:54-58 | Creating a tagging keeps every row referencing exactly one target. |
| TaggingRoutes.ListTaggings | backend/utils/tagging.js:68-83 | The listing holds exactly the caller's rows, unchanged. |
| TaggingRoutes.ListedIffReadable | backend/utils/tagging.js:68-95 | A tagging is listed for the caller exactly when the ownership gate lets the caller read it by id. |
| TaggingRoutes.GetTagging | backend/utils/tagging.js:85-95 | A read succeeds exactly on the caller's own row and returns it. A missing id is "Tagging" not found. |
| TaggingRoutes.DeleteTagging | backend/utils/tagging.js:118-127 | A delete succeeds exactly when the row exists and the caller authored it. It removes that row only. A failure is always one of the plain `errors.js` objects, never a validation array. |
| TaggingRoutes.DeleteTouchesOnlyTarget | backend/utils/tagging.js:118-127 | After a successful delete, every other row is present exactly when it was before, with the same contents. |
| IconRoutes.MaybeGetIcon | backend/routes/api/icons.js:27-39 | A missing icon is "Icon" not found, and an icon the caller may not view is "not allowed". The icon is returned exactly when it exists and is viewable. |
| IconRoutes.GetIconValues | backend/routes/api/icons.js:41-53 | Copies exactly the body's `name` and `imageUrl` keys that are present, with their values, and nothing else. |
| IconRoutes.PatchIcon | backend/routes/api/icons.js:128-144 | Validation errors come first. After them, a missing icon is "Icon" not found and an icon the caller may not view is "not allowed". The patch succeeds exactly when there are no validation errors, the icon exists and is viewable, and every name or imageUrl in the body is storable. A successful patch changes only the target icon's name and imageUrl, each only when the body has it. The author and every other icon stay the same. |
| IconRoutes.DeleteIcon | backend/routes/api/icons.js:149-161 | A delete succeeds exactly when the icon exists and the caller may view it, and it removes only that icon. |
| IconRoutes.SystemIconsMutableByAnyone | backend/routes/api/icons.js:128-161 | Update and delete are gated by view permission only, so any signed-in caller may change or remove a system icon. |
| IconRoutes.GetIcon | backend/routes/api/icons.js:111-123 | A read succeeds exactly when the icon exists and is viewable, and it returns the stored icon. |
| IconRoutes.ListIcons | backend/routes/api/icons.js:93-109 | The listing contains only stored icons, unchanged, authored by the system or by a truthy caller. Every system icon is included. |
| IconRoutes.ListedIffReadable | backend/routes/api/icons.js:93-123 | For a truthy caller, an icon is listed exactly when the caller can read it by id. |
| IconRoutes.CreateIcon | backend/routes/api/icons.js:68-88 | With the validated body handed to the handler, creation succeeds exactly when there are no validation errors and both columns are storable. The new icon's author is the caller, and its name and URL come from the body. |
| IconRoutes.CreateIgnoresBodyAuthor | backend/routes/api/icons.js:79-83 | An `authorId` in the body changes nothing: the caller is the author. |
| IconRoutes.CreateIconAsWritten | backend/routes/api/icons.js:72-75 | As written, validation errors are reported, and every valid body ends in the TypeError of destructuring `undefined`. |
| IconRoutes.CreateIconAsWrittenAlwaysFails | backend/routes/api/icons.js:68-88 | As written, a valid body is answered with the unexplained 500 and no icon is created. |
| IconRoutes.CreateIconSucceedsOnValidBody | backend/routes/api/icons.js:68-88 | With the validated body handed back, a body with a string name and URL creates the icon. |
| RequestValidation.Reasons | backend/utils/validation.js:34-44 | Every reason is the `msg` of some entry, and there are no more reasons than entries. The list is empty exactly when no entry carries a `msg`. |
| RequestValidation.ReasonsOfMessages | backend/utils/validation.js:34-44 | When every entry has a `msg`, the reasons are exactly those msgs, in order. |
| RequestValidation.FinishBadRequest | backend/utils/validation.js:14-62 | The status is 400 or 500, the body repeats it, and the message is always "Request validation failed". The status is 400 exactly for an array with at least one `msg`, and then the reasons are the msgs. Otherwise it is 500 with the single unexplained reason. |
| RequestValidation.BadRequestOfMessages | backend/utils/validation.js:14-62 | A non-empty array of `{msg}` entries becomes a 400 whose reasons are the msgs in order. |
| RequestValidation.ErrorsAndStringsAreUnexplained | backend/utils/validation.js:17-54 | A thrown `Error` or string always ends as the 500 with the single unexplained reason. |
| RequestValidation.FinishNotFound | backend/utils/validation.js:64-70 | Status 404 with the not-found message of `errors.js` and no reasons. |
| RequestValidation.ValidateRequestAsWritten | backend/utils/validation.js:4-12 | Throws the validation errors exactly when there are some. Otherwise it resolves to nothing. |
| RequestValidation.ValidateRequest | backend/utils/validation.js:4-12 | Throws the validation errors exactly when there are some. Otherwise it yields the request body its callers destructure. |
| Seeder.ReplaceUnderscores | backend/db/seeders/20230222054815-demo-users.js:186 | Every `_` becomes a space and every other character stays in place, so no `_` is left. |
| Seeder.GetIconName | backend/db/seeders/20230222054815-demo-users.js:185-187 | An icon name never contains `_`. |
| Seeder.StripsJpg | backend/db/seeders/20230222054815-demo-users.js:185-187 | A plain file name longer than ".jpg" and ending in it loses exactly that suffix, and then its underscores become spaces. |
| Seeder.StripsOnlyOnce | backend/db/seeders/20230222054815-demo-users.js:185-187 | Only one ".jpg" is removed: "a.jpg.jpg" gives "a.jpg". |
| Seeder.KeepsOtherExtensions | backend/db/seeders/20230222054815-demo-users.js:185-187 | A plain name without the exact ".jpg" suffix keeps its extension. |
| Seeder.NoUnderscoreKept | backend/db/seeders/20230222054815-demo-users.js:186 | A name without `_` is not changed by the underscore replacement. |
| Seeder.PlainNameKept | backend/db/seeders/20230222054815-demo-users.js:185-187 | A plain name without `_` whose last character is not the "g" of ".jpg" is its own icon name. |
| Seeder.UpperCaseKept | backend/db/seeders/20230222054815-demo-users.js:185-187 | The suffix match is case-sensitive: "a.JPG" stays "a.JPG". |
| Seeder.FinalSegmentOnly | backend/db/seeders/20230222054815-demo-users.js:185-187 | A directory prefix is dropped, and only the final path segment names the icon. |
| Seeder.NoSeparatorInName | backend/db/seeders/20230222054815-demo-users.js:185-187 | For a path not ending in `/`, the name contains no `/`. |
| Seeder.SystemAuthorMismatch | backend/db/seeders/20230222054815-demo-users.js:22 | The seeded admin (id 1) is not the policy's system author (-1). To every other caller, signed in or not, the seeded assets are private. |
| ItemsReducer.Reduce | frontend/src/store/reducers/utils/items.js:8-32 | RESET gives the empty map. TRACKED adds exactly the payload's ids to the keys. UNTRACKED removes exactly the payload's ids. Any other type leaves the state unchanged. |
| ItemsReducer.Reset | frontend/src/store/reducers/utils/items.js:35-40 | Well formed. The reducer of its prefix empties any state with it. |
| ItemsReducer.TrackItems | frontend/src/store/reducers/utils/items.js:42-47 | Well formed. The reducer of its prefix adds exactly the items' ids to any state's keys. |
| ItemsReducer.TrackItem | frontend/src/store/reducers/utils/items.js:49-51 | Well formed. The reducer of its prefix stores the item under its id and changes nothing else, in any state. |
| ItemsReducer.UntrackItems | frontend/src/store/reducers/utils/items.js:53-58 | Well formed. The reducer of its prefix removes exactly the listed ids from any state. |
| ItemsReducer.UntrackItem | frontend/src/store/reducers/utils/items.js:60-62 | Well formed. The reducer of its prefix removes that one id from any state. |
| ItemsReducer.Track | frontend/src/store/reducers/utils/items.js:15-21 | A key is present exactly when it was already there or some payload entry has that id. Its value is the last such entry, or else the old value. |
| ItemsReducer.Untrack | frontend/src/store/reducers/utils/items.js:22-28 | Removes exactly the listed ids and keeps every other entry unchanged. |
| ItemsReducer.ResetEmpties | frontend/src/store/reducers/utils/items.js:12-14 | RESET yields the empty map. |
| ItemsReducer.TrackedStoresEntries | frontend/src/store/reducers/utils/items.js:15-21 | After TRACKED, a key is present exactly when it was before or some payload entry has it. A key absent from the payload keeps its entry. |
| ItemsReducer.LaterDuplicateWins | frontend/src/store/reducers/utils/items.js:16-18 | Of two payload entries with one id, the later is stored. |
| ItemsReducer.TrackItemStoresOne | frontend/src/store/reducers/utils/items.js:49-51 | `trackItem(x)` stores `x` under its id and changes nothing else. |
| ItemsReducer.UntrackedRemovesIds | frontend/src/store/reducers/utils/items.js:22-28 | UNTRACKED leaves the state minus exactly the listed ids. |
| ItemsReducer.UntrackAbsentIsNoop | frontend/src/store/reducers/utils/items.js:60-62 | Untracking an absent id changes nothing. |
| ItemsReducer.TrackThenUntrack | frontend/src/store/reducers/utils/items.js:15-28 | Tracking and then untracking an id leaves it absent. |
| ItemsReducer.PrefixedTypesDiffer | frontend/src/store/reducers/utils/items.js:4-6 | Two different prefixes never build the same action type. |
| ItemsReducer.OtherPrefixIgnored | frontend/src/store/reducers/utils/items.js:4-31 | A reducer returns the state unchanged for every action built by another prefix's creators. |
| ItemsReducer.ReducePreservesKeyed | frontend/src/store/reducers/utils/items.js:8-32 | Every transition keeps each entry stored under its own id. |
| ItemsReducer.UnknownTypeKeepsState | frontend/src/store/reducers/utils/items.js:29-31 | Any unrecognised action type leaves the contents as they are. |
| SelectionReducer.DeselectAll | frontend/src/store/reducers/utils/selection.js:1-8 | A selection list built with DESELECT_ALL as its extra reset type is cleared by it, whatever the list's prefix. |
| SelectionReducer.Reset | frontend/src/store/reducers/utils/selection.js:44-49 | Whatever the extra reset type, the reducer of its prefix clears every selection. |
| SelectionReducer.Pick | frontend/src/store/reducers/utils/selection.js:51-56 | Unless the extra reset type matches, the reducer of its prefix maps the id to true and keeps everything else. |
| SelectionReducer.Forget | frontend/src/store/reducers/utils/selection.js:58-63 | Unless the extra reset type matches, the reducer of its prefix removes the id and keeps everything else. |
| SelectionReducer.Reduce | frontend/src/store/reducers/utils/selection.js:17-42 | An action whose type matches the extra reset type clears every selection. |
| SelectionReducer.PickSelects | frontend/src/store/reducers/utils/selection.js:28-32 | `pick(id)` maps id to true, adds only that key, and leaves every other value as it was. |
| SelectionReducer.PickIdempotent | frontend/src/store/reducers/utils/selection.js:28-32 | Picking twice is the same as picking once. |
| SelectionReducer.ForgetRemovesOnly | frontend/src/store/reducers/utils/selection.js:33-37 | `forget(id)` removes that key and nothing else. Forgetting an absent id changes nothing. |
| SelectionReducer.ResetClears | frontend/src/store/reducers/utils/selection.js:25-27 | RESET clears every selection. |
| SelectionReducer.ReducePreservesAllTrue | frontend/src/store/reducers/utils/selection.js:17-42 | Every transition keeps all stored values `true`, so the state stays a set of ids. |
| SelectionReducer.ResetSuffixNotPickOrForget | frontend/src/store/reducers/utils/selection.js:13-15 | A type ending in "/reset" is never a prefix's SELECTED or DESELECTED type. |
| SelectionReducer.DeselectAllIgnoredWithoutAlias | frontend/src/store/reducers/utils/selection.js:20-40 | Without an extra reset type, DESELECT_ALL leaves any other prefix's selections unchanged. |
| SelectionReducer.AliasTypeClears | frontend/src/store/reducers/utils/selection.js:20-22 | A non-empty type given as the extra reset clears everything when dispatched. |
| SelectionReducer.AliasListIsNoAlias | frontend/src/store/reducers/utils/selection.js:20 | An array given as the extra reset never matches a type, so the reducer behaves as if it had none. |
| SelectionReducer.DeselectAllIgnoredByCardSelections | frontend/src/store/reducers/cards.js:16-18 | As built with `[DESELECT_ALL]`, the card selections ignore `deselectAll()`. |
| SelectionReducer.DeselectAllClearsCardSelections | frontend/src/store/reducers/cards.js:16-18 | Built with `DESELECT_ALL` itself, the card selections are cleared by `deselectAll()`. |
| Selectors.SelectItem | frontend/src/store/selectors.js:3 | Finds an entry exactly when the id is stored, and returns the stored entry. |
| Selectors.SelectItems | frontend/src/store/selectors.js:4 | Lists every stored entry and nothing that is not stored. |
| Selectors.SelectSelections | frontend/src/store/selectors.js:11 | The selections list is exactly the set of selected keys. |
| Selectors.SelectAfterTrack | frontend/src/store/selectors.js:1-6 | After `trackItem(x)`, the item selector returns `x` under its id. |
| Selectors.SelectAfterUntrack | frontend/src/store/selectors.js:1-6 | After `untrackItem(id)`, the item selector finds nothing under id. |
| Selectors.ListedIffSelectable | frontend/src/store/selectors.js:1-6 | In a state keyed by id, an entry is listed exactly when the item selector returns it for its id. |
| Selectors.StatusFollowsPickAndForget | frontend/src/store/selectors.js:10 | Selection status is true after `pick(id)` and false after `forget(id)`. |
| Selectors.StatusIsMembership | frontend/src/store/selectors.js:8-13 | In an all-true state, an id's status is its membership in the selections list. |
| Selectors.AuthStatusFollowsSession | frontend/src/store/selectors.js:19-21 | Signed in after LOGIN exactly when the user value is truthy. Signed out after LOGOUT and initially. |
| Session.Initial | frontend/src/store/reducers/auth.js:6 | The initial session is falsy: no one is signed in. |
| Session.TrackSession | frontend/src/store/reducers/auth.js:13-18 | Whatever the session was, reducing with it gives the user. |
| Session.UntrackSession | frontend/src/store/reducers/auth.js:20-25 | Whatever the session was, reducing with it gives null, so no one is signed in. |
| Session.Reduce | frontend/src/store/reducers/auth.js:6-105 | LOGIN stores the payload and LOGOUT stores null. Any other type keeps a defined session. An undefined session becomes the initial `null`, through the parameter default. Only a LOGIN with an undefined payload yields undefined. |
| Session.LoginThenLogout | frontend/src/store/reducers/auth.js:13-25 | `trackSession(u)` yields session `u`. Then `untrackSession()` returns to the initial session, whatever came before. |
| SingleSelected.ForgetAll | frontend/src/hooks/single-selected.js:12-14 | Dispatching `forget` for each id removes exactly those ids. |
| SingleSelected.Effect | frontend/src/hooks/single-selected.js:10-18 | The snapshot becomes the current selection. With at most one id selected nothing changes. With more than one, exactly the previous snapshot's ids are forgotten. |
| SingleSelected.NewIdsSurvive | frontend/src/hooks/single-selected.js:11-15 | An id missing from the previous snapshot is never forgotten. |
| SingleSelected.SecondPickReplacesFirst | frontend/src/hooks/single-selected.js:10-18 | From previous {a} and current {a, b}, only b stays selected. |
| SingleSelected.EmptySnapshotKeepsBoth | frontend/src/hooks/single-selected.js:8-18 | The rule does not guarantee one selection: with an empty snapshot, two ids selected together both stay. |
| SingleSelected.FirstRunClearsSeveral | frontend/src/hooks/single-selected.js:8-15 | The snapshot starts as the selection at mount, so a first run that sees several ids forgets them all. |
| ErrorIssues.DismissErrors | frontend/src/store/reducers/utils/errors.js:1-8 | It is the reset action of the "all-errors" prefix. An items reducer with that prefix is emptied by it. |
| ErrorIssues.DismissErrorsIgnoredByErrorLists | frontend/src/store/reducers/utils/errors.js:1-8 | `dismissErrors()` leaves the state of every error list unchanged, unless the list's prefix is "all-errors". |
| ErrorIssues.NextId | frontend/src/store/reducers/utils/errors.js:53-63 | A new, first or zero timestamp becomes the id. Within the same timestamp the id is the previous id plus one. The generator remembers both. |
| ErrorIssues.NextIdKeepsValid | frontend/src/store/reducers/utils/errors.js:53-63 | Every id is at least the clock reading, and the generator's invariant is kept. |
| ErrorIssues.SameMillisecondIncreases | frontend/src/store/reducers/utils/errors.js:57-61 | Within one nonzero millisecond, each id is one more than the one before. |
| ErrorIssues.IdsCollideAcrossMilliseconds | frontend/src/store/reducers/utils/errors.js:50-63 | Ids are not unique: t and t+1 in millisecond t, and then t+1 again in millisecond t+1. |
| ErrorIssues.BuildIssues | frontend/src/store/reducers/utils/errors.js:24-38 | One issue per content, in order, carrying that content. Ids within one millisecond are consecutive. |
| ErrorIssues.BatchIdsCollide | frontend/src/store/reducers/utils/errors.js:31-37 | Within a single response, reasons read at times t, t and t+1 get ids t, t+1 and t+1. |
| ErrorIssues.IssueContents | frontend/src/store/reducers/utils/errors.js:23-38 | Reading or iterating fails exactly for null, undefined, or an object with a truthy `length`. An array gives its elements, or the message alone when it is empty. A non-empty string gives one issue per character. Every other value, including the empty string, gives the message alone. |
| ErrorIssues.HandleApiErrors | frontend/src/store/reducers/utils/errors.js:10-48 | Issues are dispatched, through TRACKED, exactly when the response is JSON and not yet handled, its body has both `message` and `reasons`, and the reasons can be read as a list. A caught value that is not a `Response` is rethrown untouched, and when nothing is dispatched the id generator is unchanged. |
| ErrorIssues.HandledResponseIgnored | frontend/src/store/reducers/utils/errors.js:15 | A response already marked handled is rethrown with nothing dispatched. |
| ErrorIssues.ProcessingMarksHandled | frontend/src/store/reducers/utils/errors.js:15-16 | Processing marks the response handled, so a second pass dispatches nothing. |
| ErrorIssues.RethrownUnlessTypeError | frontend/src/store/reducers/utils/errors.js:10-48 | The caught value is rethrown, except exactly when the content type is missing or the body cannot be read. Then a TypeError is thrown instead. |
| ErrorIssues.EmptyReasonsGiveMessage | frontend/src/store/reducers/utils/errors.js:15-30 | For any content type that contains "application/json", empty reasons yield exactly one issue, carrying the message. |
| ErrorIssues.ReasonsGiveOneIssueEach | frontend/src/store/reducers/utils/errors.js:15-37 | For any content type that contains "application/json", non-empty reasons yield one issue per reason, in order. |
| ErrorIssues.BackendBody | backend/utils/validation.js:56-61 | The backend's error body has a `message` and no `reasons` key. |
| ErrorIssues.BackendBodiesYieldNoIssues | frontend/src/store/reducers/utils/errors.js:12-22 | Whatever its content type and handled flag, no backend error response becomes an issue on the client. |
| Filters.FilterItems | frontend/src/hooks/filters.js:19-41 | The result is an order-preserving subsequence of the items. It holds every copy of each item the predicate accepts, and nothing else. |
| Filters.NoFilterKeepsAll | frontend/src/hooks/filters.js:20-40 | With no search text and no tag, the list is returned whole. |
| Filters.NamelessExcludedBySearch | frontend/src/hooks/filters.js:20-22 | Under a non-empty search, an item without a name (defaulting to "") is never kept. |
| Filters.FilterIdempotent | frontend/src/hooks/filters.js:19-41 | Filtering an already filtered list with the same inputs changes nothing. |
| Filters.RunFilter | frontend/src/hooks/filters.js:17-42 | A run stores the filtered list and switches the hook to showing it. |
| Filters.Shown | frontend/src/hooks/filters.js:82 | The hook shows the filtered list once it is favoured, and the current input list before that. |
| Filters.TagChanged | frontend/src/hooks/filters.js:49-56 | Changing the tag runs the filter. Re-selecting the same tag changes nothing. |
| Filters.UnfilteredBeforeFirstRun | frontend/src/hooks/filters.js:10-82 | Before any run, the shown list is the current input, whatever list the hook started with. |
| Filters.ShownAfterRun | frontend/src/hooks/filters.js:17-82 | After a run, the shown list is an order-preserving subsequence of the items. It holds every copy of each item the predicate accepts, and nothing else. |
| ClassNames.CheckDimension | frontend/src/css/classname.js:405-461 | Passes exactly when the value's string form is in the whitelist. Otherwise it throws an error naming the value. |
| ClassNames.InvalidMessage | frontend/src/css/classname.js:456-460 | The thrown message begins "Invalid dimension: " followed by the value's string form. |
| ClassNames.ZeroIsValid | frontend/src/css/classname.js:159-163 | `false`, rewritten to 0, prints as "0", which the whitelist allows. |
| ClassNames.FixedClasses | frontend/src/css/classname.js:155-183 | Undefined and null add nothing, and `false` adds the 0 class. Any other value is accepted exactly when it is a valid dimension, and then adds one `fixed-` class. |
| ClassNames.LimitedClasses | frontend/src/css/classname.js:185-215 | Accepted exactly when every truthy bound is a valid dimension. It then adds a `min-` and a `max-` class for the truthy bounds. |
| ClassNames.SideClasses | frontend/src/css/classname.js:235-309 | The margin and padding helpers throw exactly when given null. The `= {}` default covers undefined only. |
| ClassNames.ToSides | frontend/src/css/classname.js:218-228 | A truthy non-object becomes `{ all: value }` with no sides. Any other value is kept. |
| ClassNames.SpacingClasses | frontend/src/css/classname.js:217-233 | Throws exactly when the margin or the padding is truthy and the other is null. With both falsy it returns undefined. |
| ClassNames.BorderClasses | frontend/src/css/classname.js:311-388 | Throws exactly when given null. |
| ClassNames.BorderWidths | frontend/src/css/classname.js:327-385 | No width class is the "bordered" marker. |
| ClassNames.OutlineClasses | frontend/src/css/classname.js:390-396 | Always returns undefined: the function has no return statement. |
| ClassNames.DisplayClasses | frontend/src/css/classname.js:55-71 | One class per truthy argument. When `text` is truthy its `text-` class comes last. The `text-` class is present exactly when `text` is truthy, or when the display itself is that same string. |
| ClassNames.PositionClassesContents | frontend/src/css/classname.js:73-97 | One class per truthy argument. The position is first, unchanged, exactly when it is truthy. Each truthy side's class sits at its own slot, in the order top, right, bottom, left. |
| ClassNames.PositionSideMembers | frontend/src/css/classname.js:73-97 | `top-`, `right-`, `bottom-` and `left-` classes are each present exactly when that side is truthy, or when the position itself is that same string. |
| ClassNames.FlexClasses | frontend/src/css/classname.js:99-121 | The result holds the `flex-` class if flex is truthy, then one direction class, then the `align-` and `justify-` classes. Each optional class is at its own slot exactly when its prop is truthy. |
| ClassNames.GapClasses | frontend/src/css/classname.js:123-139 | A truthy gap gives one string: the row-gap and column-gap classes of that gap, joined by a space. Otherwise the `row-gap-` and `column-gap-` classes are each present exactly when their prop is truthy. |
| ClassNames.FontClassesContents | frontend/src/css/classname.js:141-153 | The `font-size-` and `font-weight-` classes are each present exactly when their prop is truthy. The size class comes first. |
| ClassNames.FlexBecomesFlexbox | frontend/src/css/classname.js:55-64 | A truthy display of "flex" becomes "flexbox". Any other truthy display is pushed unchanged. |
| ClassNames.OneDirectionClass | frontend/src/css/classname.js:99-121 | Exactly one direction class is emitted, right after the optional `flex-` class. It is "row" by default and gets "-reverse" when reversed. Every other class names the flex, alignment or justification. |
| ClassNames.GapOverridesRowAndColumn | frontend/src/css/classname.js:123-139 | A truthy gap yields one combined class, and rowGap and colGap are ignored. |
| ClassNames.NonNumericEntries | frontend/src/css/classname.js:406-412 | The fraction entries are three characters with a '/' in the middle. |
| ClassNames.AllowedIsListed | frontend/src/css/classname.js:406-454 | Every whitelist entry is a fraction, "full", or the decimal form of 0..32 or of 40..96 in steps of 8. |
| ClassNames.ListedIsAllowed | frontend/src/css/classname.js:406-454 | Each such fraction, "full" and decimal form is a whitelist entry. |
| ClassNames.AllowedMembers | frontend/src/css/classname.js:406-456 | Whitelist membership is exactly the description above. |
| ClassNames.NotAllowedUnlessDigits | frontend/src/css/classname.js:405-461 | A string that is not all digits, not a fraction and not "full" is rejected. |
| ClassNames.HalfIsInvalid | frontend/src/css/classname.js:155-168 | A fixed height or width of 0.5 throws. |
| ClassNames.PixelsAreInvalid | frontend/src/css/classname.js:155-168 | A fixed height or width of "2px" throws. |
| ClassNames.NegativeIntegerInvalid | frontend/src/css/classname.js:456 | A negative integer prints with a '-' and is rejected. |
| ClassNames.AllowedIntegerListed | frontend/src/css/classname.js:406-456 | Each allowed integer's decimal form is in the whitelist. |
| ClassNames.ListedIntegerAllowed | frontend/src/css/classname.js:406-456 | Only allowed integers print to a whitelist entry. |
| ClassNames.NaturalDimension | frontend/src/css/classname.js:406-456 | A natural number's decimal form is listed exactly when the number is allowed. |
| ClassNames.ValidIntegerDimension | frontend/src/css/classname.js:405-461 | An integer dimension is accepted exactly when it is 0..32 or a multiple of 8 from 40 to 96. |
| ClassNames.SpecificMarkerOnce | frontend/src/css/classname.js:235-309 | "specific-margin" or "specific-padding" occurs once when any side is set, and never otherwise. |
| ClassNames.ScalarMarginIsAll | frontend/src/css/classname.js:217-233 | A scalar margin is read as `{ all }`: one `margin-` class, next to an empty padding list. |
| ClassNames.SidesOfUndefined | frontend/src/css/classname.js:235 | An undefined side list takes the `{}` default and adds no class. |
| ClassNames.SidesOfAllOnly | frontend/src/css/classname.js:235-271 | A side list with only `all` gives exactly one `kind-all` class. |
| ClassNames.NullMarginThrows | frontend/src/css/classname.js:217-235 | A null margin beside a truthy padding throws. |
| ClassNames.BorderedIffAllOrSide | frontend/src/css/classname.js:311-326 | "bordered" appears exactly when `all` or a side is set, so x or y alone never add it. When it appears, the color class follows it. The color defaults to "dark" when undefined. |
| ClassNames.TrueBorderIsOne | frontend/src/css/classname.js:327-385 | A width of `true` is written as 1 for `all`, `x`, `y`, `top`, `right`, `bottom` and `left`. For example, `x: true` gives "border-x-1". |
| StyleProps.Flatten | frontend/src/css/classname.js:400 | The flattened list contains no arrays, at any depth. |
| StyleProps.KeepStrings | frontend/src/css/classname.js:401 | Each string is kept exactly as many times as it occurs in the input, and nothing else is kept. |
| StyleProps.KeepStringsAppend | frontend/src/css/classname.js:401 | Filtering distributes over concatenation, so the kept strings stay in input order. |
| StyleProps.FlattenIdempotent | frontend/src/css/classname.js:400 | Flattening twice is the same as flattening once. |
| StyleProps.ConvertToClassNameString | frontend/src/css/classname.js:398-403 | The strings at any depth are joined by single spaces: for every input with at least one string, splitting the class name on spaces gives the space-separated pieces of each string in order, so a string holding several classes contributes each of them. When no string holds a space, the pieces are the strings themselves. With no string at all, the class name is empty. |
| StyleProps.ClassPairSplits | frontend/src/css/classname.js:398-403 | A single string holding two classes, such as the `row-gap-… column-gap-…` pair, splits back into both classes. |
| StyleProps.ClassNameSplitsBack | frontend/src/css/classname.js:398-403 | Classes without spaces are recovered, in order, by splitting the class name on spaces. |
| StyleProps.NonStringsDropped | frontend/src/css/classname.js:401 | Numbers, booleans, null, undefined and objects never reach the class name. |
| StyleProps.CheckedLists | frontend/src/css/classname.js:43-48 | The throwing helpers all pass exactly when the style props are acceptable. |
| StyleProps.ClassLists | frontend/src/css/classname.js:34-52 | The class lists are built exactly when the style props are acceptable. The first item is `className`, and the outline result and the extra class names come last. |
| StyleProps.StyleClasses | frontend/src/css/classname.js:36-51 | With the outline prop split off, the class lists are built exactly when the props are acceptable. |
| StyleProps.AcceptedWithoutOutline | frontend/src/css/classname.js:30 | The outline prop has no bearing on acceptance. |
| StyleProps.Rest | frontend/src/css/classname.js:31 | `...rest` holds exactly the non-style props, with their values. |
| StyleProps.WithClassName | frontend/src/css/classname.js:34-52 | The result is the non-style props plus `className`, which holds the joined class lists. |
| StyleProps.PrepareStyles | frontend/src/css/classname.js:1-53 | Succeeds exactly when no helper throws. The result's keys are the non-style props plus `className`, each non-style prop keeps its value, and `className` is a string. |
| StyleProps.OutlineNeverContributes | frontend/src/css/classname.js:390-396 | The outline prop never changes the result. |
| StyleProps.OtherPropsPassThrough | frontend/src/css/classname.js:31-35 | A non-style prop comes out unchanged, whatever its value. |
| StyleProps.InvalidHeightReported | frontend/src/css/classname.js:34-52 | An invalid fixed height is the error reported, ahead of every later helper. |

## Findings

| source | as written | input that shows it | evidently intended | confidence | as-written member | corrected member |
|---|---|---|---|---|---|---|
| backend/routes/api/icons.js:72-75 | `validateRequest` (backend/utils/validation.js:4-12) resolves to `undefined` once validation passes, and the create handler destructures `{ name, imageUrl }` from that result. This throws a TypeError, which `finishBadRequest` answers with the unexplained 500. The module as shipped fails earlier: icons.js:55-63 calls check builders that validation.js:72-76 does not export, and `requireAuth` at icons.js:70 throws or yields `undefined` before line 72 runs. The claim concerns lines 72-75 once those are repaired. | `POST /api/icons` with body `{ "name": "a", "imageUrl": "http://x" }` | the validated body (the request's body) is destructured, and the icon is created with the caller as author | high; not executed | IconRoutes.CreateIconAsWrittenAlwaysFails | IconRoutes.CreateIconSucceedsOnValidBody |
| backend/utils/tagging.js:43-45 | the tagging create handler destructures `{ instanceId }` from the same `undefined`, so no tagging is ever created. As shipped, `requireAuth` at tagging.js:41 throws or yields `undefined` before line 43 runs; the claim concerns lines 43-45 once that is repaired. | `POST /tagging/7` with body `{ "instanceId": 3 }` | the validated `instanceId` is used to create a row that references exactly one target | high; not executed | TaggingRoutes.CreateTaggingAsWrittenNeverSucceeds | TaggingRoutes.CreateTagging |
| frontend/src/store/reducers/cards.js:16-18 | the card selections get `[DESELECT_ALL]`, an array, as their extra reset type. `type === OTHER_RESET` is never true for an array, so `deselectAll()` does not clear them. As shipped, cards.js:12 calls `createStatusReducer`, which items.js does not export, so the module throws on import before line 16 runs; the claim concerns lines 16-18 once that is repaired. | selections `{3: true}` and the action `deselectAll()` | `DESELECT_ALL` itself is passed, and `deselectAll()` clears the card selections | high; not executed | SelectionReducer.DeselectAllIgnoredByCardSelections | SelectionReducer.DeselectAllClearsCardSelections |

### Other observations

These are proved about the code as written. No corrected twin is modelled.
- ErrorIssues.BackendBodiesYieldNoIssues: the backend names its list of reasons `errors`, but the client reads `reasons`. No backend error response becomes an issue.
- ErrorIssues.DismissErrorsIgnoredByErrorLists: `createItemsReducer` takes only a prefix, so the `[DISMISS_ALL]` passed in `frontend/src/store/reducers/cards.js:14` is ignored. `dismissErrors()` clears no error list.
- Seeder.SystemAuthorMismatch: the seeder and the system-assets routes use author id 1, but the visibility policy's system author is -1.
- Policy.ZeroUserScopeMismatch: for user id 0, the list scope and the item check disagree.
- TaggingModel.ValidatorAcceptsNone: the validator's own message says "Tagging entries must reference exactly one object" (backend/db/models/tagging.js:80), but the validator only rejects more than one, and nothing runs on create. A tagging with no target can be stored. The model follows the code.
- ErrorIssues.IdsCollideAcrossMilliseconds and ErrorIssues.BatchIdsCollide: error ids can repeat.
- IconRoutes.SystemIconsMutableByAnyone: system icons are not read-only.

## Left out

- User interface: React pages, components, and the modal, checkbox and form hooks. `state.js` duplicates the single-selection rule, which is modelled once.
- Network thunks, `csrfFetch`, store setup, `async`/`Promise.all` and `Response.json()`. All are I/O or wiring. The handlers are modelled sequentially, with parsed bodies as inputs. A body that fails to parse is not modelled.
- `Date.now()`: the clock is a function parameter, `clock(i)` for the i-th reading.
- `requireAuth` (backend/utils/auth.js:60-70). It is hand-written middleware, but every handler calls it as `await requireAuth(req, res)` without `next`. With a signed-in user it calls the undefined `next` and throws a TypeError. Without one it sends the 401 and resolves to `undefined`, so `user.id` throws. As written, no icon or tagging handler gets past its first line. The model replaces this with a caller id parameter, so every handler member describes the code after authentication, as if `requireAuth` returned the signed-in user.
- JWT cookies, bcrypt, and the session and user routes. These wrap libraries.
- Sequelize setup, associations and cascades. Only the Tagging validator, its not-null keys and its update hook are modelled.
- The cards, lanyards, tags and system-assets routes. Their handlers are stubs or thin reads. The `GET /instance/:id/taggings` route (backend/utils/tagging.js:97-113) is a read through the router's own lookup and is not modelled.
- The helpers that `backend/routes/api/icons.js` and `backend/utils/tagging.js` import but `backend/utils/validation.js` does not export (`finishPostRequest`, `finishGetRequest`, `finishPatchRequest`, `finishDeleteRequest`, `createRequiredCheck`, `createMultipleChecks`, `createUrlCheck`), and `maybeGetTag`, which `tags.js` does not export. The model assumes these send their result or build their checks. The outcome of each check and lookup is a parameter.
- The error path of `DELETE /tagging/:id` (backend/utils/tagging.js:128), which calls `finishBadRequest` without the response object. `TaggingRoutes.DeleteTagging` reports the gate's error value and not what that call does.
- RequestValidation.FinishBadRequest: requires a value other than a plain `errors.js` object. For such an object the source calls `.map` and throws inside its own `catch`. A `null` element of a thrown array (where `"msg" in null` throws) is also not representable.
- IconRoutes.PatchIcon, IconRoutes.CreateIcon: Sequelize's string-column coercion is approximated by `Storable` (a string or a number is accepted, anything else is rejected with "Validation error").
- ItemsReducer.Reduce: requires a TRACKED payload of entries and an UNTRACKED payload of ids, which is the shape the creators build. Another payload makes the source's `for … of` throw or behave in other ways.
- SelectionReducer.Reduce: requires a payload for SELECTED and DESELECTED, as `pick` and `forget` always supply. A missing payload would store the key "null" in the source.
- Selectors.SelectItems: returns a set. The order in which `Object.values` lists numeric keys is not modelled.
- Filters.FilterItems: an item's name is a string or absent, and its taggings are objects. A non-string name such as `null` would make `.includes` throw, and that is not modelled. The search-box bookkeeping (`isDirty`, the Enter key and submit handlers) is reduced to "a run happens".
- ClassNames.CheckDimension: non-integer numbers are carried as their JavaScript string form (`Float("0.5")`). Number-to-string conversion is modelled for integers only.
- ItemsReducer.Reduce, SelectionReducer.Reduce: the state is a map. The `state = initialState` default, which turns an undefined state into `{}`, has no counterpart, because a map cannot be undefined.
- JsValues.ToJsString: an `Int` is unbounded and prints in plain decimal. JavaScript numbers are doubles: they print integers of 1e21 or more in exponent form ("1e+21") and are not exact beyond 2^53. Neither is modelled.
- ErrorIssues.HandleApiErrors: a caught value that is not a `Response` is rethrown without being inspected. The `Content-Type`/`content-type` header lookup is reduced to one optional string.
