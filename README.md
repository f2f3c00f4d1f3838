# DrAvail core in Dafny

DrAvail is a directory of doctors and hospitals. Owners submit their doctor listing with an
availability (morning and evening windows on common days, optionally on weekends),
administrators approve or reject listings, and administrators answer contact messages.
This project models four pieces of that application and proves properties of them:

- the availability-timing validation of `DoctorsController` (`VerifyMinutes`, `VerifyTimings`,
  `CompareDateTime`, the morning/evening wrappers, and the validation block of `CreateOnPost`
  with its weekend copy and the `AvailabilityType` stamp);
- the verification-status rules: the `Edit` POST reset, the approve/reject decision of
  `DetailsOnPost`, and who may see an unverified doctor in `Index` and `Details`;
- the two conditional-required validation attributes of `Availability.cs` and the record defaults;
- `AdminController.ReplyMessageOnPost`, a guarded update of one row of the messages table.

Files and modules:

- `platform.dfy` (`Platform`): nullable values (`Option`), `System.DateTime` as a count of
  100-nanosecond ticks, `DateTime.Date`, `DateTime.Compare`, ordinal `String.Contains`,
  `String.IsNullOrEmpty`, `String.IsNullOrWhiteSpace` with the whitespace set of `Char.IsWhiteSpace`,
  controller results as tags, and the authorization operations.
- `models.dfy` (`Models`): `Availability.Timings`, `Availability`, the `Doctor` fields the core uses
  (with an owner id), the defaults, and the two validation attributes.
- `timing_rules.dfy` (`TimingRules`): the pure validators, a reference function `CheckTimings`
  for the validation block, and `ValidateTimings`, the block itself as an imperative method
  proved equal to `CheckTimings`.
- `doctors.dfy` (`Doctors`): the `Index` filter and `Details` decision as functions, and the class
  `DoctorsController` over the doctors table (`map<int, Doctor>`) with `CreateOnPost`, `Edit` (POST)
  and `DetailsOnPost`.
- `admin.dfy` (`Admin`): the message record and the class `AdminController` over the messages table.

Inputs the code takes from its environment are parameters: the clock (`now`), the authorization
decision (`authorize: (Doctor, Operation) -> bool`, the user being fixed for a request), the
administrator role and user id (`Viewer`), `ModelState.IsValid` (a boolean), and the key the
database assigns to a new doctor (`newId`). A null reference that the code dereferences inside
`CreateOnPost`'s `try` block is caught there and the form is shown again; the model calls that
outcome `Crashed`.

Where the described design and the code disagree, the model follows the code:

- The ordering test of `VerifyTimings` passes only when the start is strictly later than the end,
  while its message says the start should not be greater than the end. A conventional morning
  such as 08:00 to 10:00 is refused and 10:00 to 08:00 is accepted (`ConventionalMorningRefused`,
  `InvertedMorningAccepted`).
- The bounds are clock times on today's date and the comparison uses the whole `DateTime`, so the
  date part of a submitted time decides the outcome (`DatePartMatters`). The start is only bounded
  from below and the end only from above (`MorningStartUnboundedAbove`).
- The minute whitelist is checked on the common days only, never on the weekend timings, and on the
  minute strings only, never on the `DateTime` values.
- Nothing prevents a second admin reply; it overwrites the first (`LaterReplyOverwrites`).
- For an anonymous viewer, `Details` compares the null user id with the doctor's owner id, so an
  unverified doctor without an owner is shown by `Details` but hidden by `Index`
  (`OwnerlessDoctorShownToAnonymousInDetailsOnly`).
- The `Edit` reset tests the posted `IsVerified`, not whether the stored listing is currently
  verified, so an approver's edit that posts `IsVerified` set verifies a stored unverified listing,
  and only a non-approver's edit is forced to unverified (`VerifiedAfterEdit`, `EditVerificationRules`).
- `CreateOnPost` stores the posted `IsVerified` as it is; nothing makes a new listing unverified
  (`CreatedDoctor`).

## Model

| member | source | states |
|---|---|---|
| `Models.NewTimings` | DrAvail/Models/Availability.cs:11-53 | a new `Timings` has every minute string null and every time at `DateTime.MinValue` |
| `Models.NewAvailability` | DrAvail/Models/Availability.cs:56-86 | a new `Availability` has status "Available", weekend availability and weekend-same-as-common off, contact preference `Always`, and null type, timings and current dates |
| `Models.RequireWhenCurrent` | DrAvail/Models/Availability.cs:92-106 | fails only on a null value, with "{property} is required"; any non-null value succeeds |
| `Models.RequireWhenAvailableOnWeekend` | DrAvail/Models/Availability.cs:111-124 | fails only when weekend availability is on and the weekend timings are null, with "Weekend timing is required"; otherwise succeeds |
| `Models.CommonNeedsNoCurrentDates` | DrAvail/Models/Availability.cs:92-96 | `RequireWhenCurrent` succeeds whatever the value when the type is non-empty and contains "Common" |
| `Models.CurrentDateRequired` | DrAvail/Models/Availability.cs:98-104 | otherwise `RequireWhenCurrent` fails exactly when the value is null, with "{property} is required" |
| `Models.WeekendTimingsRequired` | DrAvail/Models/Availability.cs:111-124 | `RequireWhenAvailableOnWeekend` fails exactly when weekend availability is on and the weekend timings are null, with "Weekend timing is required" |
| `Models.CommonType` | DrAvail/Controllers/DoctorsController.cs:349 | the stamped type `RegNumber + "_Common"` contains "Common" for every registration number |
| `Models.StampedNeedsNoCurrentDates` | DrAvail/Models/Availability.cs:95-96 | an availability stamped with `CommonType` passes `RequireWhenCurrent` for any value |
| `Models.NewAvailabilityValidation` | DrAvail/Models/Availability.cs:90-125 | a new `Availability` passes the weekend attribute and fails the current-date attribute on both current dates |
| `TimingRules.CompareDateTime` | DrAvail/Controllers/DoctorsController.cs:740-752 | the relation is earlier, same or later exactly as the first time's ticks are below, equal to or above the second's |
| `TimingRules.VerifyMinutes` | DrAvail/Controllers/DoctorsController.cs:694-708 | passes exactly when all four minute strings are one of "00", "15", "30", "45"; the message is "" on success and "Invalid Minutes" otherwise |
| `TimingRules.VerifyTimings` | DrAvail/Controllers/DoctorsController.cs:710-738 | passes exactly when the message is ""; passes exactly when start is not before today's minimum, end is not after today's maximum, and end is strictly before start |
| `TimingRules.VerifyTimingsOrder` | DrAvail/Controllers/DoctorsController.cs:717-737 | the single message follows the fixed order: invalid start, else invalid end, else the ordering message when start is not later than end, else "" |
| `TimingRules.StartNotAfterEndRefused` | DrAvail/Controllers/DoctorsController.cs:721-726 | a window whose start is at or before its end is always refused |
| `TimingRules.VerifyMorningTiming` | DrAvail/Controllers/DoctorsController.cs:645-646 | succeeds exactly when the message is empty; a failure carries the start, end or ordering message for its label |
| `TimingRules.VerifyEveningTiming` | DrAvail/Controllers/DoctorsController.cs:690-691 | succeeds exactly when the message is empty; a failure carries the start, end or ordering message for its label |
| `TimingRules.MorningBounds` | DrAvail/Controllers/DoctorsController.cs:645-646 | the morning check passes exactly when start is at or after 00:00 today, end at or before 14:00 today, and end before start |
| `TimingRules.EveningBounds` | DrAvail/Controllers/DoctorsController.cs:690-691 | the evening check passes exactly when start is at or after 14:00 today, end at or before 23:45 today, and end before start |
| `TimingRules.ConventionalMorningRefused` | DrAvail/Controllers/DoctorsController.cs:721-726 | 08:00 to 10:00 today is refused with "Morning Start time should not be greater than Morning End Time" |
| `TimingRules.InvertedMorningAccepted` | DrAvail/Controllers/DoctorsController.cs:721-725 | 10:00 to 08:00 today passes the morning check |
| `TimingRules.MorningStartUnboundedAbove` | DrAvail/Controllers/DoctorsController.cs:717-725 | 20:00 to 13:00 today passes the morning check: the start has no upper bound |
| `TimingRules.DatePartMatters` | DrAvail/Controllers/DoctorsController.cs:712-719 | the same clock times pass today but fail with "Invalid Morning End Time" when the end is on the next day |
| `TimingRules.Failures` | DrAvail/Controllers/DoctorsController.cs:297-307 | the collected messages are no more than the checks, and none are collected exactly when every check passed |
| `TimingRules.CheckTimings` | DrAvail/Controllers/DoctorsController.cs:291-341 | the block fails with a null dereference exactly when the common days are null, or the minutes pass and weekend availability is on with null weekend timings; otherwise only the weekend timings can have changed |
| `TimingRules.ValidateTimings` | DrAvail/Controllers/DoctorsController.cs:291-341 | the step-by-step block yields exactly `CheckTimings`, and its valid flag is set exactly when the error list is empty |
| `TimingRules.InvalidMinutesShortCircuits` | DrAvail/Controllers/DoctorsController.cs:294-339 | a minute string off the whitelist gives exactly ["Invalid Minutes"], with no bound check and no copy |
| `TimingRules.AtMostFourErrors` | DrAvail/Controllers/DoctorsController.cs:297-333 | the error list has at most four entries |
| `TimingRules.EveryFailureListedInOrder` | DrAvail/Controllers/DoctorsController.cs:297-331 | with valid minutes, failures do not short-circuit: all four messages appear in the order morning, evening, weekend morning, weekend evening |
| `TimingRules.NoErrorsIffEveryCheckPasses` | DrAvail/Controllers/DoctorsController.cs:291-341 | the error list is empty exactly when minutes, morning, evening and (when the weekend is checked) both weekend checks pass |
| `TimingRules.WeekendCopiedFromCommon` | DrAvail/Controllers/DoctorsController.cs:309-318 | weekend same as common with valid common days: the four weekend times equal the common times, the weekend is not checked, and nothing else changes |
| `TimingRules.WeekendCheckedWhenCommonFails` | DrAvail/Controllers/DoctorsController.cs:312-331 | weekend same as common with failed common days: the weekend is still checked with the labels "Weekend Morning" and "Weekend Evening" |
| `TimingRules.WeekendOffUntouched` | DrAvail/Controllers/DoctorsController.cs:309 | weekend availability off: the availability comes back unchanged |
| `TimingRules.OnlyWeekendTimesChange` | DrAvail/Controllers/DoctorsController.cs:309-333 | the block changes at most the weekend timings, and then only into the common times copied over |
| `TimingRules.ModelValidNeverCrashes` | DrAvail/Controllers/DoctorsController.cs:309-321 | a record with common days that passed `RequireWhenAvailableOnWeekend` never dereferences a null weekend |
| `Doctors.ShownInIndex` | DrAvail/Controllers/DoctorsController.cs:70-86 | a verified doctor always passes the visibility filter; an unverified one only for an administrator or its signed-in owner |
| `Doctors.Index` | DrAvail/Controllers/DoctorsController.cs:46-86 | the listed doctors are rows of the table, unchanged |
| `Doctors.IndexHidesUnverified` | DrAvail/Controllers/DoctorsController.cs:76-86 | an unverified doctor is listed only to a signed-in administrator or its owner |
| `Doctors.IndexListsExactly` | DrAvail/Controllers/DoctorsController.cs:70-86 | anonymous viewers see exactly the verified doctors, signed-in non-administrators exactly the verified ones and their own, administrators all |
| `Doctors.Details` | DrAvail/Controllers/DoctorsController.cs:97-141 | NotFound exactly for a missing id of an anonymous viewer or an unknown id; Forbid exactly when the viewer is not an administrator, not the owner, and the doctor is unverified |
| `Doctors.DetailsAgreesWithIndex` | DrAvail/Controllers/DoctorsController.cs:129-138 | for a signed-in viewer Details shows a doctor exactly when Index lists it |
| `Doctors.OwnerlessDoctorShownToAnonymousInDetailsOnly` | DrAvail/Controllers/DoctorsController.cs:131-138 | an anonymous viewer is shown an ownerless unverified doctor by Details but not by Index |
| `Doctors.VerifiedAfterEdit` | DrAvail/Controllers/DoctorsController.cs:451-465 | after an edit the doctor is verified exactly when it was verified and the user may approve; nothing else changes |
| `Doctors.EditVerificationRules` | DrAvail/Controllers/DoctorsController.cs:451-465 | an edit never sets `IsVerified` unless it was posted set; an approver's edit keeps the doctor as posted, so posting it verified verifies it; any other edit leaves it unverified |
| `Doctors.EditIdempotent` | DrAvail/Controllers/DoctorsController.cs:451-465 | applying the edit rule twice gives the same doctor as once |
| `Doctors.Decision` | DrAvail/Controllers/DoctorsController.cs:162 | the operation is Approve exactly when status is true, Reject exactly when it is false |
| `Doctors.DecisionMessage` | DrAvail/Controllers/DoctorsController.cs:176-184 | approval sends the congratulation text; a rejection message ends with the reject reason |
| `Doctors.CreatedDoctor` | DrAvail/Controllers/DoctorsController.cs:276-358 | the added doctor has the assigned id, the current user as owner, the submitted name, registration number and status, and an availability whose type contains "Common" |
| `Doctors.CreatedDoctorNeedsNoCurrentDates` | DrAvail/Controllers/DoctorsController.cs:349 | a created doctor's availability never needs current start or end dates |
| `Doctors.DoctorsController.CreateOnPost` | DrAvail/Controllers/DoctorsController.cs:260-374 | invalid model state shows the form, a failed Create check forbids, a crash shows the form; the doctor is added, stamped common, only when the error list is empty, and otherwise the list is returned and the table is unchanged |
| `Doctors.DoctorsController.Edit` | DrAvail/Controllers/DoctorsController.cs:432-498 | NotFound for a mismatched id or a vanished row, form again for invalid model state, Forbid without Update; a posted doctor with the unset key 0 is inserted under a fresh key; otherwise only that row changes, to `VerifiedAfterEdit` of the posted doctor |
| `Doctors.DoctorsController.DetailsOnPost` | DrAvail/Controllers/DoctorsController.cs:145-191 | NotFound for a missing or unknown id; Forbid and no change without the decision's authorization; otherwise that row's `IsVerified` becomes status and the owner gets the decision's notification |
| `Admin.Replied` | DrAvail/Controllers/AdminController.cs:88-89 | a replied message carries exactly the response and the reply time, and is otherwise the same message |
| `Admin.LaterReplyOverwrites` | DrAvail/Controllers/AdminController.cs:88-89 | a second reply replaces the first reply and its date |
| `Admin.AdminController.ReplyMessageOnPost` | DrAvail/Controllers/AdminController.cs:69-95 | NotFound and no change for a null or unknown id; the message shown again and no change for a null or blank response; otherwise that message gets the response and the time, and every other message is unchanged |

## Left out

- Persistence: Entity Framework queries, `Include`, `AsNoTracking`, change tracking and
  `SaveChangesAsync` are replaced by a table held as a map; a failing save is not modelled.
- Doctors.DoctorsController.Edit: the rethrow of `DbUpdateConcurrencyException` when the doctor
  still exists (a real concurrent-write conflict) is not modelled; writing back a row that no longer
  exists is modelled by its outcome, NotFound, except for the unset key 0, which `Context.Update`
  tracks as a new row: that doctor is inserted under the key the database assigns, taken as `newId`
  and required to be unused, without passing the timing validation of `CreateOnPost`.
- Doctors.DoctorsController.CreateOnPost: the database assigns the new key; the model takes it as
  `newId`, required to be unused. Clearing the `Hospital` navigation property when `HospitalID` is
  set (lines 353-357) concerns how the row is inserted and is not modelled.
- Doctors.Index: ordering by name and paging (`PaginatedList`, `pageIndex`) are not modelled; the
  function returns the filtered rows. The name search is translated to SQL by the database provider,
  so its case and collation rules are the database's; the model approximates it by ordinal
  (case-sensitive) substring matching.
- Doctors.Details: with no id, which of the user's own doctors `FirstOrDefaultAsync` picks is left
  to the persistence layer; the model only says that the page is shown.
- Authorization: the handlers behind `AuthorizeAsync` and the role check are inputs; the
  `[Authorize(Roles = "Administrators")]` filter on the admin actions is framework behaviour.
  "Signed in" is taken as having a user id, where `Index` tests the identity name.
- `ModelState.IsValid` is a boolean input; the two attributes are modelled as functions of their own
  and related to the validation block by `ModelValidNeverCrashes`, but the other data annotations are
  not modelled.
- Email sending, logging, `Console.WriteLine` and the client address string: the decision
  notification is returned as a value instead of being sent.
- Presentation: `SelectList`, `ViewBag`, `ViewData` and view rendering; results are tags.
- The other actions (Create, Edit and Delete GET, DeleteConfirmed, `GetLocations`,
  `AvailabilityCreate`, the admin pages other than the reply) are outside the modelled core.
- The commented-out alternative implementations of the morning and evening checks.
- `DateTime` is a tick count without `Kind` or an upper limit; `DateTime.Now` is the `now`
  parameter. The code reads the clock afresh in each `VerifyTimings` call (up to four times per
  request); the model uses one reading for all the checks of a request.
- Message.cs is not part of this model: the message record has the fields the reply uses plus a
  sender, body and sent date standing for the rest.
- `Doctor.cs` declares `CommonAvailability` and `CurrentAvailability` with the type `Avaliability`,
  not the `Availability` class of `Availability.cs`; the model takes them to be `Availability`, as the
  controller's use of `CommonDays`, `Weekends` and `AvailabilityType` implies, and
  `ModelValidNeverCrashes` rests on that reading.
- Only the `Doctor` fields the core uses are transcribed; the enums other than `ContactPreference`
  and all data annotations are left out.
