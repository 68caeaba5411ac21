# Parts storefront — a verified model

A Dafny model of the core of an auto-parts storefront, made of an Express
server over PostgreSQL and a Meilisearch index, and a React client.

- **Server.**
  - The vehicle taxonomy endpoints list makes, the models of a make, and the years of a model.
  - The product search endpoint validates paging, resolves make and model ids to names, and calls the search service once.
  - The sync job builds one search document per product from a grouped join over fitments, variants, models and makes.
  - Registration and login run inside one database transaction.
- **Client.**
  - The address book, the notification preferences, the password form and the profile form.
  - The authentication store with its listeners.
  - The search dialog with its keyboard shortcuts and scroll lock.
  - The make → model → year selector.
  - The active-vehicle card.

Each part takes the form of its source:

- Declarative query handlers, schemas and list transforms are functions with lemmas.
- Components and stores whose state cells change step by step are classes with `modifies` clauses.
- The loop over the listeners is a `while` loop with invariants.

The PostgreSQL behaviour the queries rely on is modelled in `Sql`:

- the cast of a text parameter to `integer`;
- `ORDER BY` as a stable sort;
- `WHERE`, `DISTINCT` and `generate_series`;
- the descending order of the year list.

The JavaScript behaviour is modelled in `Js`:

- truthiness and `||` defaults;
- the truncating `%`;
- `String(n)`;
- ASCII `toUpperCase`.

`Number()` is the unconstrained parameter `toNumber`. The search service, bcrypt's salt, the clock, `Math.random` and `confirm()` are parameters too.

Behaviour the model keeps from the code as written:

- The sync job only logs a product id that is falsy. It still submits every document.
- A product without fitments gets `[null]` as `fits_makes` and `fits_models`. Its year bounds are NULL.
- Login answers with the whole `users` row, `password_hash` included.
- zod runs the password-match refinement even when a field check has failed. The mismatch is then reported together with the other issues.
- A failed dealer insert rolls the transaction back, but the user id sequence stays advanced.
- A duplicate VAT number that contains "email" is answered "Email already exists". The catch block looks for "email" in the violation's detail text, `Key (vat_number)=(<value>) already exists.`, before it looks for "vat_number".

## Model

| member | source | states |
|---|---|---|
| Js.OrElse | client/app/components/Profile/ActiveVehicleCard.tsx:22-24 | `s \|\| fallback` is the string when it is present and non-empty, else the fallback |
| Js.Rem | client/app/components/Profile/ActiveVehicleCard.tsx:33 | JavaScript's `%` takes the sign of the dividend: Euclidean remainder for non-negatives, negated for negatives |
| Js.RemBounds | client/app/components/Profile/ActiveVehicleCard.tsx:33 | the remainder lies strictly between `-b` and `b`, is non-negative for a non-negative dividend and negative for a negative one not divisible by `b`, and differs from the dividend by a multiple of `b` |
| Js.Includes | server/controllers/user.controller.js:83-84 | `s.includes(t)` holds iff `t` occurs in `s` at some index |
| Js.UpperAscii | client/app/profile/settings/ProfileForm.tsx:71 | lower-case ASCII letters map to their capitals, every other character to itself |
| Seqs.OccursOnce | client/app/store/useAuthStore.ts:24 | in a sequence without repeats (a JavaScript `Set`) every member occurs exactly once |
| Sql.CastInt4 | server/controllers/vehicle.controller.js:21-24 | the text-to-integer cast of a query parameter succeeds only with a value inside the 32-bit range |
| Sql.CastIntTextRoundTrip | server/controllers/product.controller.js:111-115 | the decimal text of any 32-bit integer casts back to that integer |
| Sql.TextLeTotal | server/controllers/vehicle.controller.js:9 | the byte-wise text order compares any two names |
| Sql.TextLeTransitive | server/controllers/vehicle.controller.js:9 | the byte-wise text order is transitive |
| Sql.SortBy | server/controllers/vehicle.controller.js:9 | `ORDER BY name ASC` yields a permutation of the rows sorted by name |
| Sql.Where | server/controllers/vehicle.controller.js:22 | `WHERE` keeps exactly the rows satisfying the condition, each with its multiplicity |
| Sql.Distinct | server/db/syncmeili.js:10-11 | `DISTINCT` lists each input value once and nothing else |
| Sql.Series | server/controllers/vehicle.controller.js:35 | `generate_series(lo, hi)` holds exactly the integers from lo to hi |
| Sql.DistinctDescending | server/controllers/vehicle.controller.js:33-37 | `DISTINCT … ORDER BY year DESC` is strictly descending with the same members as its input |
| Sql.StrictlyDescendingDistinct | server/controllers/vehicle.controller.js:33 | a strictly descending list has no repeats |
| Sql.DescendingHeadIsMax | server/controllers/vehicle.controller.js:37 | the head of a strictly descending list is above every later element |
| Sql.DescendingDeterminedByValues | server/controllers/vehicle.controller.js:33-37 | two strictly descending lists with the same members are equal, so the year list is determined by the set of years |
| Database.RowById | server/controllers/product.controller.js:112-119 | a lookup by primary key (also the key joins of the sync query) finds a row with that id, or reports that no row has it |
| VehicleController.GetCompanies | server/controllers/vehicle.controller.js:7-12 | every make exactly once, ordered by name |
| VehicleController.GetModels | server/controllers/vehicle.controller.js:16-26 | missing or empty id gives "Make ID is required" (400); a non-integer id makes the query fail; otherwise exactly the models of that make, with multiplicity, ordered by name |
| VehicleController.ExpandYears | server/controllers/vehicle.controller.js:33-36 | a year appears iff some variant of the model covers it |
| VehicleController.GetYears | server/controllers/vehicle.controller.js:30-41 | missing id gives "Model ID is required" (400); a non-integer id makes the query fail; otherwise strictly descending, with a year present iff a variant of the model covers it |
| VehicleController.YearsHaveNoDuplicates | server/controllers/vehicle.controller.js:33 | the year list never repeats a year |
| VehicleController.YearsOfModelWithoutVariants | server/controllers/vehicle.controller.js:33-40 | a model without variants, or an unknown id, gives an empty list, not an error |
| VehicleController.NoMatchingVariantNoYears | server/controllers/vehicle.controller.js:33-36 | with no variant of the model, the expansion is empty |
| VehicleController.NonCoveringVariantAddsNoYears | server/controllers/vehicle.controller.js:33-37 | adding a variant of another model, or one with year_from after year_to, leaves the year list unchanged |
| VehicleController.TwoGenerationsExample | server/controllers/vehicle.controller.js:30-41 | variants 2016-2019 and 2020-2021 give 2021 down to 2016 |
| SyncMeili.JoinFitment | server/db/syncmeili.js:13-16 | each joined variant, model and make really is the row its foreign key names, and a later table joins only when the earlier one did |
| SyncMeili.JoinRows | server/db/syncmeili.js:12-16 | the left join yields at least one row per product |
| SyncMeili.MinYearFrom | server/db/syncmeili.js:8 | `MIN(year_from)` is NULL iff no variant joined, else the smallest year_from, attained |
| SyncMeili.MaxYearTo | server/db/syncmeili.js:9 | `MAX(year_to)` is NULL iff no variant joined, else the largest year_to, attained |
| SyncMeili.DocumentOf | server/db/syncmeili.js:5-17 | the `GROUP BY p.id` row of one product carries that product's columns, and each `ARRAY_AGG` has at least one element, since the LEFT JOIN gives every product at least one row |
| SyncMeili.BuildDocuments | server/db/syncmeili.js:5-19 | `GROUP BY p.id` gives one document per product, carrying that product's columns |
| SyncMeili.UnfitProductDocument | server/db/syncmeili.js:5-17 | a product without fitments gets NULL year bounds and `[null]` make and model lists |
| SyncMeili.YearBoundsNullTogether | server/db/syncmeili.js:8-9 | year_start is NULL exactly when year_end is |
| SyncMeili.YearBoundsOrdered | server/db/syncmeili.js:8-9 | when every variant has year_from ≤ year_to, year_start ≤ year_end |
| SyncMeili.NamesListedOnce | server/db/syncmeili.js:10-11 | `ARRAY_AGG(DISTINCT …)` lists each make and model name once |
| SyncMeili.FitsMakesAreReachedMakes | server/db/syncmeili.js:10 | a make name is listed iff a fitment of the product reaches that make through its variant and model |
| SyncMeili.FitsModelsAreReachedModels | server/db/syncmeili.js:11 | a model name is listed iff a fitment of the product reaches that model through its variant |
| SyncMeili.SyncJob | server/db/syncmeili.js:4-33 | every document is submitted; the missing-id error is logged iff the first row's id is falsy, the warning iff there are no products; the completion line is logged, last, iff `addDocuments` resolves |
| ProductController.Coerce | server/controllers/product.controller.js:91-105 | limit is checked first (NaN or outside 1–100), then offset (NaN or negative), then a non-empty year that is NaN; success iff all three pass, with the defaults q "", limit 20, offset 0 |
| ProductController.OmittedParametersDefault | server/controllers/product.controller.js:81-93 | with no q, limit, offset or year, the request uses "", 20, 0 and no year |
| ProductController.ResolveMake | server/controllers/product.controller.js:111-120 | a make id resolves to the name of a make with that id; an unknown id gives "Invalid make_id" (400) and a non-integer one a query failure |
| ProductController.ResolveModel | server/controllers/product.controller.js:122-131 | as ResolveMake, for models and "Invalid model_id" |
| ProductController.RequestOf | server/controllers/product.controller.js:134-142 | the search service gets the coerced query, year, limit and offset, the resolved make and model names (not the ids), and the raw category slug |
| ProductController.ResponseOf | server/controllers/product.controller.js:144-156 | the reply carries the service's count and rows, the coerced limit and offset, and the filters with the raw make and model ids |
| ProductController.SearchProducts | server/controllers/product.controller.js:80-157 | validation errors first, then make, then model errors; success iff all of them pass |
| ProductController.ValidationFailsBeforeLookups | server/controllers/product.controller.js:95-105 | a validation failure is a 400 whatever the catalog and the search service |
| ProductController.UnknownMakeRejected | server/controllers/product.controller.js:116-118 | a well-formed make id no make has is rejected with "Invalid make_id" |
| ProductController.UnknownModelRejected | server/controllers/product.controller.js:127-129 | a well-formed model id no model has is rejected with "Invalid model_id" |
| ProductController.SuccessfulSearchShape | server/controllers/product.controller.js:134-156 | a successful answer carries the service's count and rows, the coerced limit and offset, and echoes the raw filters |
| ProductController.ResolveFilters | server/controllers/product.controller.js:107-131 | the step-by-step lookups agree with ResolveMake and ResolveModel; the make is queried first and the model is not queried after a failed make |
| ProductController.HandleSearch | server/controllers/product.controller.js:80-157 | agrees with SearchProducts; no query on a validation error; the service is called only on success, exactly once and last |
| UserController.ValidationError | server/controllers/user.controller.js:12-28 | no error iff the six common fields are present, the role is customer or dealer, and a dealer gives the four company fields; the messages in that order |
| UserController.FirstDealerOf | server/controllers/user.controller.js:125-126 | the dealer row of a user, or none when the user has no dealer row |
| UserController.InsertKeepsTablesValid | server/controllers/user.controller.js:34-71 | committing a registration keeps ids, unique emails and VAT numbers, and one dealer row per dealer and none per customer |
| UserController.FirstDealerOfAppended | server/controllers/user.controller.js:58-68 | the dealer row inserted for a new user is the one found for that user afterwards |
| UserController.VatViolationDetail | server/controllers/user.controller.js:60-64 | the detail text of the unique violation on `dealers.vat_number` names the column at index 5 and quotes the number at index 18 |
| UserController.UniqueViolationError | server/controllers/user.controller.js:80-85 | a 400 error iff the detail text contains "email" or "vat_number", otherwise the error is rethrown |
| UserController.VatConflictError | server/controllers/user.controller.js:80-85 | a duplicate VAT number is answered 400 "Email already exists" when the number contains "email", since that check reads the violation's detail text first, and 400 "VAT Number already registered" otherwise |
| UserController.AccountStore.constructor | server/controllers/user.controller.js:47-51 | empty `users` and `dealers` tables, with the id sequence starting at 1 |
| UserController.AccountStore.Register | server/controllers/user.controller.js:6-92 | each validation, duplicate email and duplicate VAT error leaves both tables as they were, with the catch block's message for a duplicate VAT; a valid body with a free email and, for a dealer, a free VAT number always succeeds; success adds exactly the user row and, for a dealer, its dealer row; the response has no password hash; the id sequence advances even when the dealer insert fails |
| UserController.AccountStore.Login | server/controllers/user.controller.js:94-142 | 400 for a missing field; 401 "User not found" for an unknown email; 401 "Invalid password" on a wrong password; otherwise the user's row with its dealer row exactly for dealers |
| UserController.RegisterThenLogin | server/controllers/user.controller.js:6-142 | after a successful registration, logging in with the same email and password returns that user and the same dealer row |
| AddressSettings.AddressIssues | client/app/profile/settings/AddressManager.tsx:21-32 | no issue iff label ≥ 2, fullName ≥ 2, phone ≥ 10, streetAddress ≥ 5, city ≥ 2, state ≥ 2, zipCode ≥ 4 and country ≥ 2 characters |
| AddressSettings.Deleted | client/app/profile/settings/AddressManager.tsx:84 | keeps exactly the addresses whose id differs |
| AddressSettings.DeletedAppend | client/app/profile/settings/AddressManager.tsx:84 | deletion distributes over concatenation, so the survivors keep their order |
| AddressSettings.DeletedAbsent | client/app/profile/settings/AddressManager.tsx:84 | deleting an id no address has changes nothing |
| AddressSettings.WithDefault | client/app/profile/settings/AddressManager.tsx:90-96 | same length and order; each address becomes the default exactly when its id matches, all else kept |
| AddressSettings.SingleDefault | client/app/profile/settings/AddressManager.tsx:90-96 | with unique ids, exactly the chosen address is default afterwards |
| AddressSettings.Updated | client/app/profile/settings/AddressManager.tsx:104-108 | the address with the editing id becomes the form data under that id; the others are untouched |
| AddressSettings.UpdatedKeepsIds | client/app/profile/settings/AddressManager.tsx:104-108 | an update keeps every id, so unique ids stay unique |
| AddressSettings.Appended | client/app/profile/settings/AddressManager.tsx:111-119 | exactly one address added at the end, under the fresh id; it is the default when the list was empty |
| AddressSettings.FormDefaults | client/app/profile/settings/AddressManager.tsx:149 | the form starts from the address being edited, or from the blank form |
| AddressSettings.AddressManager.constructor | client/app/profile/settings/AddressManager.tsx:65-68 | the initial address list, the form closed, and no address being edited |
| AddressSettings.AddressManager.HandleAddNew | client/app/profile/settings/AddressManager.tsx:71-74 | clears the editing id and opens the form |
| AddressSettings.AddressManager.HandleEdit | client/app/profile/settings/AddressManager.tsx:76-79 | sets the editing id to the address's id (none for an empty id) and opens the form |
| AddressSettings.AddressManager.HandleDelete | client/app/profile/settings/AddressManager.tsx:82-87 | a confirmed delete applies Deleted; a declined one changes nothing |
| AddressSettings.AddressManager.HandleSetDefault | client/app/profile/settings/AddressManager.tsx:90-98 | applies WithDefault and nothing else |
| AddressSettings.AddressManager.HandleSave | client/app/profile/settings/AddressManager.tsx:101-124 | Updated in edit mode, Appended otherwise; afterwards the form is closed and the editing id cleared |
| AddressSettings.AddressManager.HandleCancel | client/app/profile/settings/AddressManager.tsx:151-154 | closes the form and clears the editing id |
| AddressSettings.AddressManager.Submit | client/app/profile/settings/AddressManager.tsx:299 | invalid data changes nothing; valid data is saved as HandleSave saves it: the edited address becomes `data` under its id, or `data` is appended under the fresh id; the form closes |
| Notifications.Flip | client/app/profile/settings/NotificationSettings.tsx:63 | flips the one channel and keeps the others, id, label and description |
| Notifications.Toggle | client/app/profile/settings/NotificationSettings.tsx:61-65 | same length and order; the items with that id get the channel flipped, the others are unchanged |
| Notifications.FlipTwice | client/app/profile/settings/NotificationSettings.tsx:63 | flipping a channel twice restores the item |
| Notifications.ToggleTwice | client/app/profile/settings/NotificationSettings.tsx:61-64 | toggling the same id and channel twice restores the preferences |
| Notifications.ToggleAbsent | client/app/profile/settings/NotificationSettings.tsx:62-64 | toggling an absent id changes nothing |
| Notifications.ToggleCommutes | client/app/profile/settings/NotificationSettings.tsx:60-65 | two toggles give the same preferences in either order |
| Notifications.NotificationSettings.constructor | client/app/profile/settings/NotificationSettings.tsx:55-58 | the initial preferences, with no unsaved changes |
| Notifications.NotificationSettings.HandleToggle | client/app/profile/settings/NotificationSettings.tsx:60-67 | applies Toggle and marks unsaved changes |
| Notifications.NotificationSettings.HandleSave | client/app/profile/settings/NotificationSettings.tsx:69-74 | clears the change flag and leaves the preferences as they are |
| HookForm.MinLength | client/app/profile/settings/SecuritySettings.tsx:21-23 | zod's `.min(n, message)`: no issue iff the value has at least `n` characters, otherwise exactly one issue on the field's path with that message |
| SecuritySettings.SecurityIssues | client/app/profile/settings/SecuritySettings.tsx:19-28 | valid iff current password non-empty, new password ≥ 8, confirmation non-empty and equal to the new one; "Passwords don't match" is reported on confirmPassword exactly on a mismatch |
| SecuritySettings.SubmitPhases | client/app/profile/settings/SecuritySettings.tsx:51-64 | a disabled button or invalid values change nothing; otherwise submitting, then reset to empty fields with submitting cleared |
| SecuritySettings.SubmitEndsIdle | client/app/profile/settings/SecuritySettings.tsx:51-64 | every submit ends not submitting; the button is disabled while it runs and, after a reset, until the user types |
| SecuritySettings.CleanFormNotSubmitted | client/app/profile/settings/SecuritySettings.tsx:172 | an unchanged form cannot be submitted |
| ProfileSettings.ProfileIssues | client/app/profile/settings/ProfileForm.tsx:13-18 | valid iff first and last name ≥ 2 characters, the email check holds and phone ≥ 10 characters, with one message per failing field |
| ProfileSettings.ValuesOf | client/app/profile/settings/ProfileForm.tsx:45-50 | each form field is the user's field, or "" when it is missing or empty |
| ProfileSettings.UserEffect | client/app/profile/settings/ProfileForm.tsx:43-52 | with a user, the form is reset to its values and is clean; without one, nothing changes |
| ProfileSettings.Initials | client/app/profile/settings/ProfileForm.tsx:69-72 | "U" without a first name, else the first character upper-cased |
| ProfileSettings.InitialIsCapital | client/app/profile/settings/ProfileForm.tsx:71 | a first name starting with an ASCII letter gives a capital |
| ProfileSettings.SubmitPhases | client/app/profile/settings/ProfileForm.tsx:55-67 | a disabled button or invalid values change nothing; otherwise submitting, then not submitting, with the values kept |
| ProfileSettings.ResetFormNotSubmitted | client/app/profile/settings/ProfileForm.tsx:179 | right after the reset from a user, the form cannot be submitted |
| ProfileSettings.SubmitEndsIdle | client/app/profile/settings/ProfileForm.tsx:55-67 | every submit ends not submitting, with the values kept |
| AuthStore.ServerSnapshot | client/app/store/useAuthStore.ts:60-63 | always signed out, and consistent |
| AuthStore.SetAdd | client/app/store/useAuthStore.ts:47 | adding to a set adds just that listener, never twice |
| AuthStore.SetDelete | client/app/store/useAuthStore.ts:48 | deleting removes just that listener |
| AuthStore.DeleteUndoesAdd | client/app/store/useAuthStore.ts:46-49 | the function `subscribe` returns undoes the subscription |
| AuthStore.Store.constructor | client/app/store/useAuthStore.ts:19-24 | the store starts signed out with no listeners |
| AuthStore.Store.Get | client/app/store/useAuthStore.ts:28 | the state read is consistent: authenticated iff a user is present |
| AuthStore.Store.EmitChange | client/app/store/useAuthStore.ts:53-57 | each listener is called once, in insertion order, and nothing else changes |
| AuthStore.Store.Login | client/app/store/useAuthStore.ts:30-36 | the user is stored and authenticated, and every listener is notified |
| AuthStore.Store.Logout | client/app/store/useAuthStore.ts:38-44 | no user and not authenticated, and every listener is notified |
| AuthStore.Store.Subscribe | client/app/store/useAuthStore.ts:46-47 | the listener is added to the set |
| AuthStore.Store.Unsubscribe | client/app/store/useAuthStore.ts:48 | the listener is removed; the result says whether it was there |
| AuthStore.NotifiedOnce | client/app/store/useAuthStore.ts:53-57 | each login or logout notifies every subscribed listener exactly once and no other |
| AuthStore.SubscribeLoginUnsubscribe | client/app/store/useAuthStore.ts:46-57 | a listener that subscribes, sees a login and unsubscribes hears it exactly once, and the set is restored |
| SearchDialog.AfterKey | client/app/components/Search/useSearchDialog.ts:30-41 | Escape closes, Cmd/Ctrl+K opens from either state, and any other key changes nothing |
| SearchDialog.Dialog.constructor | client/app/components/Search/useSearchDialog.ts:11 | the dialog starts closed, with scrolling unlocked |
| SearchDialog.Dialog.ScrollLockEffect | client/app/components/Search/useSearchDialog.ts:48-58 | when the open state changed, the body overflow becomes "hidden" if open, "unset" if closed |
| SearchDialog.Dialog.Open | client/app/components/Search/useSearchDialog.ts:14-16 | opens, idempotently; scrolling is locked |
| SearchDialog.Dialog.Close | client/app/components/Search/useSearchDialog.ts:19-21 | closes, idempotently; scrolling is unlocked |
| SearchDialog.Dialog.Toggle | client/app/components/Search/useSearchDialog.ts:24-26 | negates the open state, so twice restores it |
| SearchDialog.Dialog.HandleKeyDown | client/app/components/Search/useSearchDialog.ts:30-41 | the open state follows AfterKey; the default action is suppressed exactly for the shortcut |
| SearchDialog.Dialog.Unmount | client/app/components/Search/useSearchDialog.ts:55-57 | the cleanup unlocks scrolling |
| VehicleSelector.SearchQuery | client/app/components/VehicleSelector.tsx:72-75 | one pair per non-empty selection, in the order make_id, model_id, year |
| VehicleSelector.Selector.constructor | client/app/components/VehicleSelector.tsx:26-41 | everything empty, with only the companies requested |
| VehicleSelector.Selector.ReceiveMakes | client/app/components/VehicleSelector.tsx:39 | stores the makes and nothing else |
| VehicleSelector.Selector.YearsEffect | client/app/components/VehicleSelector.tsx:54-65 | with no model, clears the years and the selected year; otherwise requests that model's years |
| VehicleSelector.Selector.SelectMake | client/app/components/VehicleSelector.tsx:97-100 | sets the make and clears the model; fetches models only for a new non-empty make; loaded models are kept |
| VehicleSelector.Selector.ReceiveModels | client/app/components/VehicleSelector.tsx:49 | stores the models and nothing else |
| VehicleSelector.Selector.SelectModel | client/app/components/VehicleSelector.tsx:54-65 | the model select (line 114) is ignored while no make is chosen; clearing the model clears the years and the year; a new non-empty model sends exactly one `/years/<model>` request and keeps the years and the year; otherwise no request is sent |
| VehicleSelector.Selector.ReceiveYears | client/app/components/VehicleSelector.tsx:63 | stores the years, whichever model is selected |
| VehicleSelector.Selector.ReceiveYearsFor | client/app/components/VehicleSelector.tsx:61-64 | stores the years only while their model is selected, keeping the list empty without a model |
| VehicleSelector.Selector.SelectYear | client/app/components/VehicleSelector.tsx:129-130 | ignored while there is no model or no year list |
| VehicleSelector.Selector.BeginSearch | client/app/components/VehicleSelector.tsx:68-79 | while loading nothing is sent; otherwise loading is set and one query of the current selection is sent |
| VehicleSelector.Selector.EndSearch | client/app/components/VehicleSelector.tsx:80-88 | results are handed over or an alert is shown, and loading ends false either way |
| VehicleSelector.StaleYearsResponse | client/app/components/VehicleSelector.tsx:54-64 | a years response that arrives after the make changed fills the list while no model is selected |
| VehicleSelector.StaleYearsResponseIgnored | client/app/components/VehicleSelector.tsx:54-64 | with responses matched to their model, the same sequence leaves the list empty |
| ActiveVehicleCard.DisplayVehicle | client/app/components/Profile/ActiveVehicleCard.tsx:16-17 | the active vehicle, else the first in the garage, else none |
| ActiveVehicleCard.VehicleImage | client/app/components/Profile/ActiveVehicleCard.tsx:29-34 | id mod 3 for non-negative ids, the first picture with no vehicle, and no picture for a negative id not divisible by 3 |
| ActiveVehicleCard.ImageRepeatsEveryThree | client/app/components/Profile/ActiveVehicleCard.tsx:32-34 | ids three apart get the same picture |
| ActiveVehicleCard.ToggleRequest | client/app/components/Profile/ActiveVehicleCard.tsx:36-48 | -1 for an active vehicle, its own id for an inactive one, no call without a vehicle |
| ActiveVehicleCard.NicknameOf | client/app/components/Profile/ActiveVehicleCard.tsx:22-24 | nickname, else model name, else "My Vehicle", and never empty |
| ActiveVehicleCard.Card.constructor | client/app/components/Profile/ActiveVehicleCard.tsx:12-13 | not editing, empty nickname |
| ActiveVehicleCard.Card.SyncNickname | client/app/components/Profile/ActiveVehicleCard.tsx:20-26 | with a vehicle shown, the nickname becomes its fallback name |
| ActiveVehicleCard.Card.HandleToggleActive | client/app/components/Profile/ActiveVehicleCard.tsx:36-48 | sends exactly the ToggleRequest, or nothing without a vehicle |
| ActiveVehicleCard.Card.StartEditing | client/app/components/Profile/ActiveVehicleCard.tsx:144 | enters edit mode |
| ActiveVehicleCard.Card.EditNickname | client/app/components/Profile/ActiveVehicleCard.tsx:137 | the nickname follows the input |
| ActiveVehicleCard.Card.HandleSaveNickname | client/app/components/Profile/ActiveVehicleCard.tsx:50-54 | only leaves edit mode; no store call is made |

## Left out

- `Number()` is the unconstrained parameter `toNumber`. None of its parsing is modelled, and the contracts hold for every such function.
- Sql.CastInt4: does not accept the hexadecimal, octal, binary or underscore-separated forms that PostgreSQL 16 and later accept. These are decimal-only in older servers.
- Sql.TextLe: compares byte-wise ("C" collation). A database created with another collation orders names differently.
- Sql.SortBy: ties keep their input order. PostgreSQL gives no order among ties.
- The order of `GROUP BY` groups and of `ARRAY_AGG` elements is unspecified in PostgreSQL. The model uses product order and first appearance.
- The search service (`searchWithMeili`) and the index (`addDocuments`) are parameters or outputs; their own behaviour is not part of this model.
- Database connections, `client.release`, isolation and concurrent transactions are not modelled. A transaction is all-or-nothing, and requests run one at a time.
- UserController.AccountStore.Register: a unique-email violation at the user insert is not modelled. Only a concurrent registration of the same email can raise it, and requests run one at a time here. The duplicate-VAT violation goes through the same catch block and is modelled.
- UserController.AccountStore.Register: unique violations on columns other than email and VAT number are not modelled. Such columns are not defined in this model.
- UserController.AccountStore.Register: the dealer row's `RETURNING *` columns beyond those inserted (an id, timestamps) are not modelled.
- bcrypt is modelled as a salted value that records its password. Its one-way hashing and cost factor are not modelled.
- The salt, the clock, `Math.random` and `confirm()` are inputs.
- Toasts, `console` output, `alert`, animations, routing and rendering are not modelled. Alerts and log lines appear only where they are the observable result.
- zod counts string length in UTF-16 code units. The model counts characters.
- zod's email check is the parameter `isEmail`.
- Values that are not strings, such as a numeric role in a JSON body, are not modelled.
- ProfileSettings.Initials: upper-cases ASCII letters only. `toUpperCase` on other characters, some of which become two characters, is not modelled.
- The store operations `switchActiveVehicle`, `setGarage`, `hydrate`, `activeVehicle` and `userGarage` are not defined in the store's source. The card records the `switchActiveVehicle` calls and takes the active vehicle and the garage as inputs.
- AuthStore.Store.EmitChange: listeners are identities whose call is recorded. A listener that subscribes or unsubscribes while being notified is not modelled.
- VehicleSelector.Selector.ReceiveModels: like the years, a models response is stored without checking that its make is still selected. This is modelled as written.
- `URLSearchParams` percent-encoding of the query values is not modelled. The values are the numeric ids and years from the select options.
- The network requests and their timing are recorded as requests, and their responses are delivered by separate methods in any order the caller chooses.

## Findings

| source | as written | input that shows it | evidently intended | confidence | as-written member | corrected member |
|---|---|---|---|---|---|---|
| client/app/components/VehicleSelector.tsx:61-64 | the years response is stored whatever model is selected when it arrives | choose make 1 and model 7, then make 2; the years response for model 7 then arrives | the year list stays empty while no model is selected, as the effect at lines 55-58 ensures | not executed; depends on the response arriving after the change | VehicleSelector.StaleYearsResponse | VehicleSelector.Selector.ReceiveYearsFor |
