# RAISE: report stores, report screens and account rules

This project models the logic at the core of RAISE, an accident reporting system. Police officers file accident reports from a mobile app. Insurance staff work with the reports through a web portal and a back-end API. The model covers:

- the two in-memory report stores of the mobile app (`store/reportsStore.ts`, which numbers new reports itself, and `stores/reportStore.ts`, which the screens use);
- the list computations of three mobile screens:
  - the reports list: sort newest first, search, status filter and empty-state message;
  - the dashboard: counters, the five most recent reports and the vehicle label;
  - the new-report form: the vehicle and media lists, the address text built from geocoding, the address search and its suggestions, setting the position, and the record it submits;
- the portal's password strength validator and the `password` property of its user account;
- the back end's user record, the access rules of its route decorators, and its account service over the user table.

Each core source file has a module of its own:

| module | file |
|---|---|
| `ReportsStore` | `reports_store.dfy` |
| `ReportStore` | `report_store.dfy` |
| `ReportsListScreen` | `reports_list_screen.dfy` |
| `DashboardScreen` | `dashboard_screen.dfy` |
| `NewReportScreen` | `new_report_screen.dfy` |
| `PasswordPolicy` | `password_policy.dfy` |
| `WebUser` | `web_user.dfy` |
| `BackendUser` | `backend_user.dfy` |
| `AuthMiddleware` | `auth_middleware.dfy` |
| `AuthService` | `auth_service.dfy` |

Shared building blocks live in `common.dfy` (`Option`, and a list filter like JavaScript's `filter` and Python's comprehensions), `text.dfy` (ASCII lower-casing, substring search, split and join, JavaScript `trim`, decimal digits), `hashing.dfy` (salted hashing over a digest the caller supplies) and `report_types.dfy` (status, vehicle and evidence records).

The code's state is modelled in the same form as the source:
- A store or a screen whose state the source replaces step by step is a `class`. Its list or map is a field, and its methods have `modifies` clauses. Each method's new state is stated as a function of the old state, and the lemmas are about those functions.
- List and string computations are functions.
- The validator and the update loop of the account service are methods with loops and invariants.

Things the model does not compute take the form of parameters:
- the clock (`Date.now()`, `datetime.utcnow()`);
- the locale's date text;
- the salt from `gensalt()`;
- the password digest;
- the user that the decorators look up from the token.

## Model

| member | source | states |
|---|---|---|
| ReportsStore.NextIdIsFresh | police-mobile/src/store/reportsStore.ts:17-19 | the new id is 1 for an empty list, otherwise one more than an id present, and it is larger than every id present |
| ReportsStore.MaxId | police-mobile/src/store/reportsStore.ts:18 | the result is an id of the list and no id exceeds it |
| ReportsStore.AddedShape | police-mobile/src/store/reportsStore.ts:14-22 | `addReport` puts the new report first with the fresh id and the draft's fields, the old list follows unchanged, and the length grows by one |
| ReportsStore.AddKeepsIdsDistinct | police-mobile/src/store/reportsStore.ts:13-23 | pairwise distinct ids stay distinct after `addReport` |
| ReportsStore.DeleteUndoesAdd | police-mobile/src/store/reportsStore.ts:13-31 | deleting the id that `addReport` just gave out restores the previous list |
| ReportsStore.OverlayFields | police-mobile/src/store/reportsStore.ts:26 | in `{...r, ...p}`, each key present in `p` takes the new value and every other field keeps its old one |
| ReportsStore.OverlayLaws | police-mobile/src/store/reportsStore.ts:26 | an empty partial record changes nothing, the same overlay twice is one overlay, and two overlays are one overlay of the merged partial record |
| ReportsStore.UpdatedAt | police-mobile/src/store/reportsStore.ts:24-28 | `updateReport` keeps length and order, leaves reports with other ids unchanged and overlays the reports with the id |
| ReportsStore.UpdateAbsentIsNoop | police-mobile/src/store/reportsStore.ts:25-27 | updating an id that is not present leaves the list unchanged |
| ReportsStore.UpdateKeepsIdsDistinct | police-mobile/src/store/reportsStore.ts:24-28 | a partial record without an id keeps distinct ids distinct |
| ReportsStore.DeletedContents | police-mobile/src/store/reportsStore.ts:29-31 | `deleteReport` leaves no report with the id, keeps every other report, and removes exactly as many reports as had the id |
| ReportsStore.DeleteKeepsOrder | police-mobile/src/store/reportsStore.ts:30 | the kept reports stay in their relative order |
| ReportsStore.DeleteAbsentIsNoop | police-mobile/src/store/reportsStore.ts:29-31 | deleting an absent id is a no-op, and deleting twice is deleting once |
| ReportsStore.DeleteKeepsIdsDistinct | police-mobile/src/store/reportsStore.ts:29-31 | deleting keeps distinct ids distinct |
| ReportsStore.Store.constructor | police-mobile/src/store/reportsStore.ts:12 | the store starts empty |
| ReportsStore.Store.AddReport | police-mobile/src/store/reportsStore.ts:13-23 | the new list is the old one with the new report in front; the new id exceeds every other id, and distinct ids stay distinct |
| ReportsStore.Store.UpdateReport | police-mobile/src/store/reportsStore.ts:24-28 | the new list is the overlaid old one, of the same length, and unchanged for an absent id |
| ReportsStore.Store.DeleteReport | police-mobile/src/store/reportsStore.ts:29-31 | the new list is the filtered old one, holds no report with the id, and is unchanged for an absent id |
| ReportStore.Find | police-mobile/src/stores/reportStore.ts:37 | `find` gives nothing exactly when no report has the id, and otherwise the first report with it |
| ReportStore.FindConcat | police-mobile/src/stores/reportStore.ts:37 | searching a concatenation searches the first part first |
| ReportStore.AppendedShape | police-mobile/src/stores/reportStore.ts:22-26 | `addReport` appends the report unchanged at the end and grows the list by one |
| ReportStore.FindAfterAppend | police-mobile/src/stores/reportStore.ts:22-38 | after adding a report with a new id, `getReport` of that id returns it, and every other id finds what it found before |
| ReportStore.DuplicateIsShadowed | police-mobile/src/stores/reportStore.ts:22-38 | a report whose id is already present is still appended, but `getReport` keeps returning the earlier one |
| ReportStore.UpdatedAt | police-mobile/src/stores/reportStore.ts:28-34 | `updateReport` keeps length and order, leaves other ids unchanged, and overlays every report with the id |
| ReportStore.UpdateAbsentIsNoop | police-mobile/src/stores/reportStore.ts:28-34 | updating an id no report has changes nothing |
| ReportStore.FindAfterUpdate | police-mobile/src/stores/reportStore.ts:28-38 | after an update that keeps the id, `getReport(id)` returns the previous answer with the overlay applied |
| ReportStore.UpdateIsVisible | police-mobile/src/stores/reportStore.ts:28-38 | every key of the partial record can be read back through `getReport` after the update |
| ReportStore.Store.constructor | police-mobile/src/stores/reportStore.ts:20 | the store starts empty |
| ReportStore.Store.AddReport | police-mobile/src/stores/reportStore.ts:22-26 | the new list is the old one with the report appended, and a report with a new id is found by its id |
| ReportStore.Store.UpdateReport | police-mobile/src/stores/reportStore.ts:28-34 | the new list is the overlaid old one, of the same length, and unchanged for an absent id |
| ReportStore.Store.GetReport | police-mobile/src/stores/reportStore.ts:36-38 | the result is the first stored report with the id, or nothing exactly when no report has it |
| ReportsListScreen.SortByIdDesc | police-mobile/src/screens/ReportsListScreen.tsx:50 | the sorted copy is a permutation of the reports, ordered by numeric id from largest to smallest |
| ReportsListScreen.InsertByIdDesc | police-mobile/src/screens/ReportsListScreen.tsx:50 | inserting into a sorted list keeps it sorted and adds exactly that report |
| ReportsListScreen.FilteredReports | police-mobile/src/screens/ReportsListScreen.tsx:50-57 | the listed reports are sorted newest first, are drawn from the store, and all pass the search and status filter |
| ReportsListScreen.FilterKeepsSorted | police-mobile/src/screens/ReportsListScreen.tsx:51 | filtering a sorted list leaves it sorted |
| ReportsListScreen.FilteredMultiset | police-mobile/src/screens/ReportsListScreen.tsx:50-57 | the list holds exactly the reports of the store that pass the search and status filter, each copy as often as the store holds it; only the order differs |
| ReportsListScreen.FilteredMembership | police-mobile/src/screens/ReportsListScreen.tsx:51-57 | a report is listed exactly when it is in the store, matches the query in its title, location or description, and matches the status filter |
| ReportsListScreen.MatchSurvivesAddedText | police-mobile/src/screens/ReportsListScreen.tsx:52-54 | a report that matches a query still matches it after text is added before or after its title, location or description |
| ReportsListScreen.FilteredStatus | police-mobile/src/screens/ReportsListScreen.tsx:55 | with a 'pending' or 'complete' filter, every listed report has that status |
| ReportsListScreen.EverythingListedByDefault | police-mobile/src/screens/ReportsListScreen.tsx:52-56 | with an empty query and the 'all' filter, every report is listed, in sorted order |
| ReportsListScreen.SearchIgnoresCase | police-mobile/src/screens/ReportsListScreen.tsx:52-54 | two queries that differ only in letter case list the same reports |
| ReportsListScreen.EmptyMessage | police-mobile/src/screens/ReportsListScreen.tsx:171-173 | the 'match your search criteria' message shows exactly when the query is non-empty or the filter is not 'all'; otherwise the 'No reports yet' message shows |
| DashboardScreen.ReportStats | police-mobile/src/screens/DashboardScreen.tsx:53-69 | Total is the number of reports, and Pending and Completed add up to it |
| DashboardScreen.StatsOfEmpty | police-mobile/src/screens/DashboardScreen.tsx:53-69 | an empty store shows 0 on all three cards |
| DashboardScreen.StatsStep | police-mobile/src/screens/DashboardScreen.tsx:56-66 | adding any report raises Total by one, Pending by one exactly when it is 'pending' and Completed by one exactly when it is 'complete'; with the empty case this makes Pending and Completed the number of 'pending' and 'complete' reports |
| DashboardScreen.StatsAfterAdd | police-mobile/src/screens/DashboardScreen.tsx:56-66 | adding a pending report raises Total and Pending by one and leaves Completed unchanged |
| DashboardScreen.RecentReports | police-mobile/src/screens/DashboardScreen.tsx:71 | the recent list has min(5, n) reports, sorted by id descending and drawn from the store, and no report left out has a larger id than any report shown |
| DashboardScreen.SortedPrefix | police-mobile/src/screens/DashboardScreen.tsx:71 | a prefix of a sorted list is sorted, and nothing after it has a larger id |
| DashboardScreen.VehicleLabel | police-mobile/src/screens/DashboardScreen.tsx:166 | the label starts with the count in decimal, which reads back as the count, followed by exactly ' vehicles involved' when the count is above one and ' vehicle involved' otherwise |
| DashboardScreen.VehicleLabelSingular | police-mobile/src/screens/DashboardScreen.tsx:166 | 0 and 1 vehicles read "vehicle involved" |
| DashboardScreen.VehicleLabelPlural | police-mobile/src/screens/DashboardScreen.tsx:166 | the label says "vehicles" exactly when the count is larger than 1 |
| NewReportScreen.OrElse | police-mobile/src/screens/NewReportScreen.tsx:296-297 | `s \|\| fallback` is `s` when it is present and non-empty, otherwise the fallback |
| NewReportScreen.WithoutVehicle | police-mobile/src/screens/NewReportScreen.tsx:280-282 | no vehicle with the id remains, every other vehicle is kept, and nothing is added |
| NewReportScreen.RemoveAbsentVehicle | police-mobile/src/screens/NewReportScreen.tsx:280-282 | removing an id that no vehicle has changes nothing |
| NewReportScreen.RemoveUndoesAdd | police-mobile/src/screens/NewReportScreen.tsx:266-282 | removing a just-added vehicle by its fresh id restores the list |
| NewReportScreen.WithoutIndex | police-mobile/src/screens/NewReportScreen.tsx:539 | removing a media item drops exactly the element at the index, keeps the others in order, and does nothing when the index is past the end |
| NewReportScreen.ReportVehicles | police-mobile/src/screens/NewReportScreen.tsx:294-299 | one vehicle entry per form vehicle, in order, with its registration number; a missing or empty make or model becomes 'Unknown'; damage is always 'To be assessed' |
| NewReportScreen.ReportEvidenceList | police-mobile/src/screens/NewReportScreen.tsx:300-304 | one evidence entry per media item, in order, with its uri; a photo becomes an image with 'Photo evidence', and a video a document with 'Video evidence' |
| NewReportScreen.ReportNumber | police-mobile/src/screens/NewReportScreen.tsx:287 | the report number is 'RPT-' followed by digits that read back as the timestamp |
| NewReportScreen.SubmittedReportShape | police-mobile/src/screens/NewReportScreen.tsx:284-305 | the submitted record is pending and has no police abstract; its id reads back as the clock value; it keeps the form's location and description and has one vehicle and one evidence entry per form item |
| NewReportScreen.SubmitRaisesPending | police-mobile/src/screens/NewReportScreen.tsx:307 | submitting raises the dashboard's Total and Pending counts by one |
| NewReportScreen.Present | police-mobile/src/screens/NewReportScreen.tsx:91-97 | `filter(Boolean)` keeps only present, non-empty values, and keeps every one of them |
| NewReportScreen.PresentSingleton | police-mobile/src/screens/NewReportScreen.tsx:97 | a single value is kept exactly when it is present and non-empty |
| NewReportScreen.PresentConcat | police-mobile/src/screens/NewReportScreen.tsx:97 | filtering a concatenation is the concatenation of the filtered parts, so order and multiplicity are kept |
| NewReportScreen.AddressParts | police-mobile/src/screens/NewReportScreen.tsx:91-97 | the parts are exactly street, city, region, postal code and country in that order, each kept only when present and non-empty |
| NewReportScreen.AddressText | police-mobile/src/screens/NewReportScreen.tsx:83-105 | there is no address text exactly when the geocoder found no address; no parts give "" and a single part gives that part |
| NewReportScreen.StreetAndCity | police-mobile/src/screens/NewReportScreen.tsx:91-99 | a street and a city join as "street, city", and an empty postal code is skipped |
| NewReportScreen.MainText | police-mobile/src/screens/NewReportScreen.tsx:202 | the main text is non-empty and has no comma; unless it is 'Unknown Location', it is a prefix of the address |
| NewReportScreen.SecondaryText | police-mobile/src/screens/NewReportScreen.tsx:203 | no address, or an address without a comma, gives an empty secondary text; otherwise it neither starts nor ends with whitespace |
| NewReportScreen.FormatSearchResult | police-mobile/src/screens/NewReportScreen.tsx:199-204 | the formatted address is the reverse-geocoded address, or the coordinates when there is none; the main text is non-empty and has no comma; with no address the main text is 'Unknown Location' and the secondary text is empty |
| NewReportScreen.TextsAtFirstComma | police-mobile/src/screens/NewReportScreen.tsx:202-203 | the main text is the part before the first comma, and the secondary text is the trimmed rest |
| NewReportScreen.TextsWithoutComma | police-mobile/src/screens/NewReportScreen.tsx:202-203 | an address without a comma is its own main text and has an empty secondary text |
| NewReportScreen.SearchResultOfAddress | police-mobile/src/screens/NewReportScreen.tsx:194-204 | when no address part contains a comma, a match with address parts shows the joined address with its first part as main text; a match without parts shows its coordinates under 'Unknown Location' |
| NewReportScreen.NewReportForm.constructor | police-mobile/src/screens/NewReportScreen.tsx:39-61 | the form opens blank, with empty media and vehicle lists, a blank vehicle draft, and no search |
| NewReportScreen.NewReportForm.AddVehicle | police-mobile/src/screens/NewReportScreen.tsx:266-278 | with no registration number nothing changes; otherwise the draft is appended with the clock value as its id, the draft is reset and the dialog closes |
| NewReportScreen.NewReportForm.RemoveVehicle | police-mobile/src/screens/NewReportScreen.tsx:280-282 | the vehicle list loses the vehicles with the id; nothing else changes |
| NewReportScreen.NewReportForm.RemoveMedia | police-mobile/src/screens/NewReportScreen.tsx:539 | the media list loses the item at the index; nothing else changes |
| NewReportScreen.NewReportForm.SearchAddress | police-mobile/src/screens/NewReportScreen.tsx:216-243 | the query is recorded; a search starts exactly when the query has at least 3 characters; a shorter query clears the results |
| NewReportScreen.NewReportForm.DismissSearch | police-mobile/src/screens/NewReportScreen.tsx:245-249 | the suggestions are hidden and the query and results are cleared; the form, media and vehicles are unchanged |
| NewReportScreen.NewReportForm.SelectSearchResult | police-mobile/src/screens/NewReportScreen.tsx:251-264 | the search is dismissed; the form takes the suggestion's position as coordinates and its formatted address as location and address, and keeps its date and description |
| NewReportScreen.NewReportForm.SetPosition | police-mobile/src/screens/NewReportScreen.tsx:321-336 | the form takes the position as coordinates; with an address, location and address are that address; without one, the location is the coordinate text and the address is empty |
| NewReportScreen.NewReportForm.Submit | police-mobile/src/screens/NewReportScreen.tsx:284-320 | the store gets the record built from the form appended; then the form is reset and the media and vehicle lists are emptied |
| PasswordPolicy.ValidatePassword | insurance_web/app/utils/password.py:4-47 | the error list is the messages of the failing checks in check order, and the password is valid exactly when the list is empty |
| PasswordPolicy.ErrorMultiplicity | insurance_web/app/utils/password.py:11-45 | each failing check adds its message exactly once and each passing check adds none; this holds for the common-pattern check however many patterns occur |
| PasswordPolicy.ErrorsInCheckOrder | insurance_web/app/utils/password.py:11-45 | the messages come in check order, are all among the six, and there are at most six |
| PasswordPolicy.AdminIsRejected | insurance_web/app/utils/password.py:32-45 | a password that contains 'admin' in any letter case gets the common-pattern error |
| PasswordPolicy.SeedPasswordAccepted | insurance_web/create_test_data.py:14 | the seed administrator's password 'A9!x7$zQpL#2@bTn' passes every check |
| PasswordPolicy.SeedHasNoCommonPattern | insurance_web/app/utils/password.py:32-45 | no common pattern occurs in the seed password |
| PasswordPolicy.RanksOfMessages | insurance_web/app/utils/password.py:13-44 | the six messages are distinct |
| PasswordPolicy.SelectMultiplicity | insurance_web/app/utils/password.py:11-45 | among distinct messages, a selected one occurs once and an unselected one never |
| PasswordPolicy.SelectOrdered | insurance_web/app/utils/password.py:11-45 | selected messages keep the check order |
| PasswordPolicy.SelectNone | insurance_web/app/utils/password.py:47 | with no failing check the error list is empty |
| WebUser.User.constructor | insurance_web/app/models/user.py:10-20 | a new account has no password hash; it has the column defaults (active, and role 'agent' unless another role is given), so it is not an admin by default |
| WebUser.User.SetPassword | insurance_web/app/models/user.py:33-38 | an invalid password raises ValueError with the validator's messages joined by newlines and keeps the hash; a valid one stores its hash, which then verifies |
| WebUser.User.ReadPassword | insurance_web/app/models/user.py:29-31 | reading `password` always raises AttributeError with its message |
| WebUser.User.VerifyPassword | insurance_web/app/models/user.py:40-41 | verification succeeds exactly when a hash is stored and the password checks against it |
| WebUser.User.IsAdmin | insurance_web/app/models/user.py:47-49 | `is_admin` holds exactly when the role is exactly 'admin', so the default role 'agent' is never an admin |
| WebUser.User.FullName | insurance_web/app/models/user.py:43-45 | the full name is the first name, one space, and the last name |
| WebUser.FullNameSplits | insurance_web/app/models/user.py:43-45 | when neither name has a space, splitting the full name at the space gives both names back |
| WebUser.OnlyStoredPasswordVerifies | insurance_web/app/models/user.py:38-41 | after a password is stored, only that password verifies (given a digest that tells passwords apart) |
| Hashing.HashPassword | insurance_backend/app/models/user.py:34-37 | the stored hash keeps the salt it was made with, and the password it was made from checks against it |
| Hashing.CheckAcceptsHashedPassword | insurance_backend/app/models/user.py:34-44 | a password checks against the hash made from it |
| Hashing.CheckRejectsOtherPasswords | insurance_backend/app/models/user.py:39-44 | with a digest that tells passwords apart, only that password checks |
| BackendUser.RoleValueInjective | insurance_backend/app/models/user.py:6-9 | different roles have different values |
| BackendUser.SetPassword | insurance_backend/app/models/user.py:34-37 | `set_password` replaces the hash, with the new salt, and nothing else |
| BackendUser.SetThenCheck | insurance_backend/app/models/user.py:34-44 | after `set_password(p)`, `check_password(p)` succeeds, and with a digest that tells passwords apart no other password does |
| BackendUser.NewUser | insurance_backend/app/models/user.py:20-32 | a new user has the lower-cased e-mail, a hash that checks for the password, the given name, role and company (none by default), is active, and has no last login |
| BackendUser.ToDict | insurance_backend/app/models/user.py:46-57 | the dictionary has exactly the eight keys; the role appears as its value; company_id and last_login are None when unset |
| BackendUser.ToDictHidesPassword | insurance_backend/app/models/user.py:46-57 | the dictionary does not depend on the password hash |
| BackendUser.ToDictRoleRoundTrip | insurance_backend/app/models/user.py:52 | the role can be read back from the dictionary |
| AuthMiddleware.RoleRequired | insurance_backend/app/utils/auth_middleware.py:6-35 | a missing or inactive user gets 401; any other refusal is 403 'Insufficient permissions' |
| AuthMiddleware.RoleListDecision | insurance_backend/app/utils/auth_middleware.py:26-33 | for an active user, the list form refuses exactly the roles not in the list |
| AuthMiddleware.SingleRoleDecision | insurance_backend/app/utils/auth_middleware.py:29-33 | for an active user, the single form refuses exactly the other roles, and agrees with the one-element list |
| AuthMiddleware.CompanyRequired | insurance_backend/app/utils/auth_middleware.py:37-71 | a missing or inactive user gets 401; an active insurance officer without a company gets 403 'User not associated with any company'; one with a company who requests another company's data gets 403 'Access denied to other company data'; any refusal is one of these three |
| AuthMiddleware.OfficerCompanyDecision | insurance_backend/app/utils/auth_middleware.py:60-69 | an active officer with a company passes exactly when no company is requested or theirs is |
| AuthMiddleware.CompanyCheckOnlyLimitsOfficers | insurance_backend/app/utils/auth_middleware.py:56-69 | active admins and police always pass the company check |
| AuthMiddleware.AdminRequired | insurance_backend/app/utils/auth_middleware.py:73-93 | 401 for a missing or inactive user; otherwise the route runs exactly for admins, and anyone else gets 403 'Admin access required' |
| AuthMiddleware.PoliceRequired | insurance_backend/app/utils/auth_middleware.py:95-115 | 401 for a missing or inactive user; otherwise the route runs exactly for police, and anyone else gets 403 'Police officer access required' |
| AuthMiddleware.InactiveAdminIsUnauthorized | insurance_backend/app/utils/auth_middleware.py:6-115 | an inactive admin gets 401 from every decorator; an active admin passes all but the police check |
| AuthService.Service.constructor | insurance_backend/app/models/user.py:11-22 | the table starts empty with ids from 1, and satisfies the table invariant |
| AuthService.Service.AuthenticateUser | insurance_backend/app/services/auth_service.py:8-22 | a user is returned exactly when some stored user has the lower-cased e-mail and the password checks; the result is that stored user |
| AuthService.Service.CreateUser | insurance_backend/app/services/auth_service.py:25-60 | a taken e-mail (compared lower-cased) gives (None, False) and changes nothing; otherwise exactly one new user is stored under the next id and returned with True; e-mails stay unique |
| AuthService.Service.UpdateUser | insurance_backend/app/services/auth_service.py:63-91 | an unknown id gives (None, False) and changes nothing; otherwise the user is replaced by the result of applying the changes in order and the other users are kept; a commit that would duplicate an e-mail fails and the table is unchanged |
| AuthService.ApplyChanges | insurance_backend/app/services/auth_service.py:80-84 | applying the changes keeps the user's id |
| AuthService.ApplyChangesSnoc | insurance_backend/app/services/auth_service.py:80-84 | one more loop step applies one more change |
| AuthService.UnknownKeysIgnored | insurance_backend/app/services/auth_service.py:83-84 | keys the user does not have are ignored: dropping them gives the same user |
| AuthService.LastPasswordChecks | insurance_backend/app/services/auth_service.py:81-82 | the user's new password checks when no later key sets the hash |
| AuthService.HashKeptWithoutPasswordChange | insurance_backend/app/services/auth_service.py:80-84 | without a key that sets the hash, the hash is unchanged |
| AuthService.EmailKeptWithoutEmailChange | insurance_backend/app/services/auth_service.py:80-84 | without an 'email' key, the e-mail is unchanged |
| AuthService.MixedCaseEmailCannotLogIn | insurance_backend/app/services/auth_service.py:19-84 | a stored e-mail that is not lower case (which `update_user` can store) can never log in |
| AuthService.SetActive | insurance_backend/app/services/auth_service.py:104-135 | only the named user's `is_active` changes, and an unknown id changes nothing |
| AuthService.SetActiveLaws | insurance_backend/app/services/auth_service.py:104-135 | deactivating or reactivating twice is doing it once, and deactivating an active user and then reactivating them (or the reverse for an inactive one) restores the table |
| AuthService.DeactivatedUserStillLogsIn | insurance_backend/app/services/auth_service.py:19-109 | `authenticate_user` ignores `is_active`, so deactivation does not change who can log in |
| AuthService.Service.DeactivateUser | insurance_backend/app/services/auth_service.py:94-115 | returns True exactly for a stored id; the user becomes inactive and nothing else changes |
| AuthService.Service.ReactivateUser | insurance_backend/app/services/auth_service.py:118-139 | returns True exactly for a stored id; the user becomes active and nothing else changes |
| AuthService.Service.UsersByRole | insurance_backend/app/services/auth_service.py:142-152 | exactly the stored users with the role, active or not |
| AuthService.Service.UsersByCompany | insurance_backend/app/services/auth_service.py:155-165 | exactly the stored users with the company id |
| AuthService.RolesPartitionUsers | insurance_backend/app/services/auth_service.py:142-152 | the three role lists are disjoint and together hold every user |

## Left out

- Rendering, styles, navigation, animation and the scroll handlers of the screens are UI. The date picker, map, media picker and camera, permission requests, and the dialogs' field edits are UI as well.
- Taking or picking photos and videos (`handleTakePhoto`, `handleMediaPick`) and the permission requests are device calls; only the media list they append to is modelled.
- The `mapError` message set when a map press fails is not modelled, because the failure comes from a device call.
- Geocoding, reverse geocoding and reading the current position are device calls. `AddressText` takes the reverse-geocoded address as input and `FormatSearchResult` takes one geocoding match. Their errors are not modelled: the source catches them and returns null or an empty list.
- The 500 ms debounce timer of the address search is about timing. `SearchAddress` only reports whether a search would be scheduled.
- Coordinates written with `toFixed(6)` are floating point. They are the parameter `coordinateText`.
- `Date.now()`, `new Date()`, `toLocaleDateString()`, `toLocaleTimeString()`, `gensalt()` and `datetime.utcnow()` are clock, locale and randomness. They are parameters.
- `ReportsListScreen.SortByIdDesc`: `Number(id)` is modelled for ids made of ASCII digits only; ids that give `NaN` are not modelled. The model does not state that the sort is stable, only that it is a sorted permutation.
- `ReportStore.Store.UpdateReport`: `updateReport` is `async` and returns a promise; the model applies the update at once, and the promise's timing is not modelled.
- `NewReportScreen.AddressText`: its own contract states only the empty and one-part cases of the join; `NewReportScreen.AddressParts` states which parts are joined and in which order, and `NewReportScreen.StreetAndCity` and `NewReportScreen.SearchResultOfAddress` state more of the join.
- `DashboardScreen.ReportStats`: the counts are numbers; their `toString()` for display is not modelled.
- `ReportsListScreen.MatchesSearch` and `ReportsListScreen.SearchIgnoresCase`: JavaScript's `toLowerCase()` follows Unicode case mapping; the model lower-cases ASCII letters only, so queries or texts with non-ASCII capitals may match differently in the program.
- `AuthService.Service.AuthenticateUser`, `AuthService.Service.CreateUser` and `BackendUser.NewUser`: Python's `str.lower()` follows Unicode case mapping; the model lower-cases ASCII letters only, so for an e-mail with non-ASCII capitals the model's login and duplicate decisions can differ from the program's.
- `NewReportScreen.NewReportForm.SearchAddress`: `query.length` counts UTF-16 code units; the model counts characters, so a query with characters outside the Basic Multilingual Plane may reach 3 in the program sooner than in the model.
- `WebUser.User.constructor`: `role='agent'` and `is_active=True` are column defaults that SQLAlchemy applies when the row is inserted; before that the attributes are `None`. The model gives them their inserted values at once.
- `ReportsStore.Patch`: only the optional `policeAbstract` key can be present with the value `undefined`; a partial record that sets a required key such as `title` to `undefined` is not modelled.
- `ReportsStore.NextId`: ids are JavaScript numbers (doubles); `Math.max(...) + 1` is modelled over unbounded integers, so rounding above 2^53 is not modelled.
- `PasswordPolicy.ValidatePassword`: the regular expressions and `str.lower` are modelled over ASCII; Unicode letters, digits and case mappings are not.
- Hashing (bcrypt in the back end, werkzeug in the portal) is a digest function given as a parameter. Properties that need distinct passwords to hash differently assume an injective digest. bcrypt's truncation to 72 bytes and UTF-8 encoding are not modelled.
- `WebUser.User.VerifyPassword`: with no stored hash, werkzeug fails with an exception; the model returns `None`.
- `WebUser.User.SetPassword`: the hash algorithm and salt that `generate_password_hash` picks are parameters.
- The back-end user is a value held in the service's table; an assignment to one of its attributes is a record update.
- `AuthService.Service.UpdateUser`: `setattr` is modelled for the columns of the user. Keys naming a relationship, a method or the primary key (`review_notes`, `to_dict`, `id`, and so on) are not modelled. The model does not check the types of the values. Apart from the unique e-mail, database errors during commit are not modelled.
- `AuthService.Service.CreateUser`: the exception path (rollback and re-raise) covers database errors, which are not modelled.
- `AuthService.Service.UsersByRole` and `AuthService.Service.UsersByCompany`: the result is a set, so the order in which the database returns rows is not modelled.
- The column defaults `is_active` and `created_at` are applied when the row is inserted. `BackendUser.NewUser` takes the id and the time.
- The portal's other user columns (company, owner, reset token, last login) and `load_user` belong to routes that are not part of this model.
- The middleware's JWT check and the user lookup are done by the framework. The decision functions take the looked-up user as input; they take the route's `company_id` as input too.
- The report details screen only shows a fixed sample report, so it has no logic to model. The police abstract screen, the profile screen and the routes of both web applications are not part of this model either.
