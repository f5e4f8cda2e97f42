# HealthTrackPro, modelled in Dafny

HealthTrackPro is a patient-monitoring application: an Express/Mongoose
backend that stores patients and their vital-sign readings (blood pressure,
heart rate, respiratory rate, oxygen level) and a React Native client that
caches them. Its one piece of domain logic classifies each reading as
critical or not and derives a patient-level critical flag from the
readings of the last 24 hours. Around that sit smaller rule sets: the
client's own classifier, the request-schema validation, the list filters
and pagination of the record and patient endpoints, the patient statistics,
the subscription tier table and quota checks, the refresh-token rules of
password and Google sign-in, the logger's status bucketing, and the two
client-side caches.

This project models those rules and proves what they promise. The model
follows the structure of the program:

| file | models |
|---|---|
| `Js.dfy` | the JavaScript built-ins the code relies on: truthiness, `toLowerCase`, `trim`, `split`/`join`, `indexOf`, `replace`, `Number()` and `parseFloat` on decimal numerals, integer printing |
| `ListOps.dfy` | `filter`, and `map`/`filter` by `_id` as the client caches use them |
| `Dates.dfy` | calendar dates and the completed-years age computation |
| `Patterns.dfy` | the three regular expressions of the code (address, ten digits, `digits/digits`), written out by hand |
| `Sorting.dfy` | Mongo's sort on one key in either direction, `skip`/`limit` and `Math.ceil(total / limit)` |
| `Vitals.dfy` | the vital-sign thresholds and the blood-pressure split shared by server and client |
| `PatientRecordModel.dfy` | `backend/models/PatientRecord.js`: the schema, the pre-save classifier and the post-save reconcile of the patient flag |
| `PatientModel.dfy` | `backend/models/Patient.js`: the schema's setters, validators and defaults, and the `age` virtual |
| `UserModel.dfy` | the parts of `backend/models/User.js` the auth controllers rely on: validation, the unique address, look-ups |
| `Subscription.dfy` | `backend/models/Subscription.js`: the tier table, `checkLimit`, `incrementUsage`, `resetMonthlyUsage` |
| `AuthController.dfy` | `backend/controllers/authController.js`: register, login, refresh, logout |
| `OAuthController.dfy` | `backend/controllers/oauthController.js`: `mobileGoogleAuth` |
| `RecordController.dfy` | `backend/controllers/recordController.js`: ingestion, the filtered list, critical records, statistics, soft delete |
| `PatientController.dfy` | `backend/controllers/patientController.js`: the list, critical patients, statistics, update, soft delete |
| `Validator.dfy` | `backend/middleware/validator.js`: a small interpreter of the Joi rules used, `validate`/`validateQuery`, and the four schemas as predicates |
| `Logger.dfy` | `backend/middleware/logger.js`: `getStatusColor` |
| `Helpers.dfy` | `src/utils/helpers.js`: validators, the client-side classifier, `formatAge`, `capitalizeFirstLetter`, the test-type name mappings |
| `ClientCache.dfy` | what `src/context/RecordContext.js` and `src/context/PatientContext.js` share: replies, outcomes, the `selected` document |
| `RecordContext.dfy` | `RecordProvider` as a class whose methods update its state fields |
| `PatientContext.dfy` | `PatientProvider`, likewise |

Modelling decisions:

- Time is a parameter. `now` is an integer of milliseconds, and `today` is a calendar date.
- The database is a sequence per collection. A document's id is its index, so `findById` is an index check and an insert appends. The code only ever soft-deletes patients and records, so indexes stay stable.
- Service replies and other foreign code are parameters:
  - on the client, the service replies;
  - on the server, password comparison, token signing, Joi's date parsing and its address check.
- Vital values are `Option<real>`. `None` stands for NaN, which fails every comparison. `Number()` and `parseFloat` are modelled on optional-sign decimal numerals:
  - `Number()` trims white space and reads `""` as 0;
  - `parseFloat` takes the longest numeric prefix.
- In five places the repository's own code shows a different intent from what it does. The model follows what the code does:
  - the symptom rule compares a lower-cased symptom to the camel-case `'shortnessOfBreath'` (`backend/models/PatientRecord.js:82`), so only "fever" can ever match. The client's symptom key of the same name (`src/screens/AddPatientRecordScreen.js:14`) shows the second entry was meant to match too;
  - `insertMany` (`backend/controllers/recordController.js:27`) runs no save middleware, so ingestion stores `body.isCritical || false` rather than the classifier's verdict. The hook announces itself as the place that checks critical conditions (`backend/models/PatientRecord.js:60`);
  - the record-creating endpoint looks the patient up by id only (`backend/controllers/recordController.js:11`), so a soft-deleted patient still accepts records. Every list and count of the controllers filters on `isActive: true`;
  - Mongoose runs a default through the path's setters, so a patient created without an e-mail address stores 'n/a', which the address validator refuses (`PatientModel.DefaultEmailRefused`); such a creation fails on the e-mail path. The tests create patients without an address and expect them to be stored (`backend/tests/patients.test.js:93-107`);
  - `validateQuery(paginationQuery)` strips every key outside the pagination schema, so once `req.query` is replaced the list handlers never see `isCritical`, `patientId`, `testType`, `startDate` or `endDate` (`Validator.PaginationStripsFilters`). The handlers are still modelled with those filters, as written. The tests expect `?isCritical=true` to filter (`backend/tests/patients.test.js:130-138`).
- State-changing code is imperative Dafny:
  - `RecordDocument.PreSave`, `Db`, `UserStore`, `Subscription` and `ReasonList`, and the two client providers, are classes with `modifies` clauses;
  - the client's four `check*` helpers are methods that push onto a shared reason list;
  - `formatAge` is a method with the code's decrement.

The requests that reach the list handlers have passed `validateQuery(paginationQuery)`. So `GetPatientRecords` and `GetPatients` require a page and a limit of at least 1, which `Validator.PaginationAccepted` shows that schema guarantees.

## Model

| member | source | states |
|---|---|---|
| Js.ToLower | backend/models/PatientRecord.js:84 | `toLowerCase` keeps the length and maps each character on its own, so no upper-case letter survives |
| Js.ToLowerIdempotent | backend/models/Patient.js:30 | lower-casing twice is lower-casing once |
| Js.IndexOf | backend/controllers/oauthController.js:97 | the index found is the first occurrence of the character, or the length when it does not occur |
| Js.Split | backend/models/PatientRecord.js:66 | `split` always yields at least one part |
| Js.SplitJoin | backend/models/PatientRecord.js:66 | joining the parts of a split with the separator gives back the string, and no part contains the separator |
| Js.JoinSplit | backend/middleware/validator.js:15 | splitting a join of separator-free parts gives back the parts |
| Js.SplitTwo | backend/models/PatientRecord.js:66 | "x/y" with no '/' in x or y splits into exactly [x, y] |
| Js.TrimStart | backend/models/PatientRecord.js:22 | the result is a suffix of the string that does not start with white space |
| Js.TrimStartMargin | backend/models/PatientRecord.js:22 | what TrimStart drops is white space |
| Js.TrimEnd | backend/models/PatientRecord.js:22 | the result is a prefix of the string that does not end with white space |
| Js.TrimEndMargin | backend/models/PatientRecord.js:22 | what TrimEnd drops is white space |
| Js.Trim | backend/models/PatientRecord.js:22 | `trim` never lengthens a string, and the result neither starts nor ends with white space |
| Js.TrimRemovesMargins | backend/models/PatientRecord.js:22 | `trim` keeps a contiguous part of the string and drops only white space on either side of it; with Trim's own ensures this fixes the result |
| Js.LowerTrimCommute | backend/models/Patient.js:30-31 | applying `lowercase` and `trim` in either order gives the same address |
| Js.FindFrom | backend/models/Subscription.js:233 | the occurrence found is the first one of the pattern at or after the start index, and none means there is no such occurrence |
| Js.NatToString | src/utils/helpers.js:75 | a printed natural number is a non-empty run of digits |
| Js.NatToStringValue | src/utils/helpers.js:75 | the printed digits denote the number |
| Js.ParseFloatOfDigits | backend/models/PatientRecord.js:71 | `parseFloat` of a digit string is the number it denotes |
| Js.NatRoundTrip | backend/models/PatientRecord.js:66 | `Number(String(n))` is n |
| Js.NegativeRoundTrip | backend/models/PatientRecord.js:66 | `Number("-" + String(n))` is -n |
| Js.NumeralHasNoWhiteSpace | src/utils/helpers.js:75 | a printed integer holds no white space |
| ListOps.Where | src/context/RecordContext.js:130 | `filter` keeps only elements satisfying the predicate and never lengthens the list |
| ListOps.WhereMembers | src/context/RecordContext.js:130 | an element is kept exactly when it is in the list and satisfies the predicate |
| ListOps.WhereAppend | backend/controllers/recordController.js:222-226 | filtering a list extended by one element extends the filtered list by that element exactly when it satisfies the predicate |
| ListOps.ReplaceById | src/context/RecordContext.js:105-107 | replacing by id preserves the list's length |
| ListOps.ReplaceByIdPointwise | src/context/RecordContext.js:105-107 | each position holds the replacement when its id matches, and its old element otherwise |
| ListOps.ReplaceByIdNoStale | src/context/PatientContext.js:108-110 | no element with the id survives a replacement, and every other element is left where it was |
| ListOps.ReplaceByIdAbsent | src/context/RecordContext.js:105-107 | when no element carries the id, the list is unchanged |
| ListOps.RemoveById | src/context/RecordContext.js:130 | removal by id never lengthens the list |
| ListOps.RemoveByIdMembers | src/context/RecordContext.js:130 | an element survives removal exactly when it is in the list and its id differs |
| ListOps.RemoveByIdAppend | src/context/RecordContext.js:130 | removal distributes over concatenation, so the survivors keep their order |
| ListOps.RemoveByIdAbsent | src/context/PatientContext.js:133 | when no element carries the id, the list is unchanged |
| ListOps.RemoveByIdCount | src/context/PatientContext.js:133 | removal shortens the list by exactly the number of elements with that id |
| ListOps.CountId | src/context/PatientContext.js:133 | the number of elements with an id is at most the length |
| Dates.AgeCountsBirthdays | backend/models/Patient.js:89-93 | the year difference, less one before this year's birthday, is the number of birthdays reached: the age-th anniversary is on or before today and the next one is after it |
| Dates.AgeIsUnique | backend/models/Patient.js:89-93 | no other number of years lies between two such anniversaries |
| Dates.AgeNonNegative | backend/models/Patient.js:89-93 | a date of birth that is not in the future gives an age of at least 0 |
| Dates.AgeMonotone | backend/models/Patient.js:89-93 | the age never decreases as today advances |
| Patterns.EmailScanMatchesPattern | backend/models/Patient.js:34 | a character-by-character scan for one '@' and a later '.' with non-empty, space-free sides accepts exactly the strings of the address pattern |
| Patterns.ScanGivesPattern | backend/models/Patient.js:34 | a string the scan accepts matches the pattern |
| Patterns.PatternGivesScan | backend/models/Patient.js:34 | a string split as the pattern requires passes the scan |
| Patterns.EmailHasSingleAt | backend/models/Patient.js:34 | an address matching the pattern has exactly one '@' |
| Patterns.NotAtOutside | backend/models/Patient.js:34 | in a string split as the pattern requires, the chosen '@' is the only one |
| Patterns.BloodPressurePatternSplits | src/utils/helpers.js:8 | a string matching `^\d+\/\d+$` splits on '/' into two non-empty digit runs |
| Patterns.TwoRunsGiveBloodPressurePattern | src/utils/helpers.js:8 | conversely, a string that splits on '/' into two non-empty digit runs matches `^\d+\/\d+$` |
| Patterns.BloodPressurePatternIff | src/utils/helpers.js:8 | matching `^\d+\/\d+$` is exactly splitting on '/' into two non-empty digit runs |
| Sorting.InsertDescProperties | backend/controllers/recordController.js:90 | inserting into a descending list keeps it descending, and the result holds the old elements plus the new one |
| Sorting.InsertDescPermutes | backend/controllers/recordController.js:90 | insertion adds exactly the new element to the multiset |
| Sorting.InsertDescMembers | backend/controllers/recordController.js:90 | every element after insertion is the new one or an old one |
| Sorting.InsertDescSorted | backend/controllers/recordController.js:90 | insertion preserves descending order |
| Sorting.SortDescCorrect | backend/controllers/recordController.js:90 | `sort({ key: -1 })` returns a permutation of its input in descending key order |
| Sorting.SortByCorrect | backend/controllers/patientController.js:51-55 | sorting with direction 1 gives an ascending permutation, and any other direction a descending one |
| Sorting.PageOf | backend/controllers/recordController.js:75-92 | `skip((page - 1) * limit).limit(limit)` gives at most limit elements, the k-th being element (page - 1) * limit + k |
| Sorting.TotalPagesIsCeiling | backend/controllers/recordController.js:102 | `Math.ceil(total / limit)` pages hold every item and the last page is not empty; no items means no pages |
| Sorting.PageHoldsItem | backend/controllers/patientController.js:69 | every item sits on a page between 1 and the page count, at its offset within that page |
| Logger.StatusSeverity | backend/middleware/logger.js:10-14 | codes from 500 are errors, codes from 400 to 499 warnings, and everything below 400 a success |
| Logger.GetStatusColor | backend/middleware/logger.js:4-14 | the colour returned is the colour of the code's bucket |
| Logger.SeverityMonotone | backend/middleware/logger.js:10-14 | a larger status code is never logged as less severe |
| Logger.ColorTellsSeverity | backend/middleware/logger.js:4-8 | two codes get the same colour exactly when they fall in the same bucket |
| Vitals.BloodPressureParts | backend/models/PatientRecord.js:66 | a value without '/' has no diastolic part |
| Vitals.DigitsHaveNoSlash | backend/models/PatientRecord.js:66 | a digit run contains no '/' |
| Vitals.NumeralReadsBack | backend/models/PatientRecord.js:66-71 | both `Number` and `parseFloat` read a printed natural number back as itself |
| Vitals.BloodPressureNumerals | backend/models/PatientRecord.js:66 | "a/b" of two numerals splits and converts to (a, b) |
| Vitals.OutOfRangeOfParts | backend/models/PatientRecord.js:67-68 | once both parts convert, a blood pressure is out of range exactly when it is hypertensive or hypotensive |
| Vitals.BloodPressureOfNumerals | backend/models/PatientRecord.js:68 | for "a/b", out of range means a >= 180, b >= 120, a < 90 or b < 60 |
| Vitals.NoSlashNotOutOfRange | backend/models/PatientRecord.js:66-67 | a value without '/' is never out of range |
| Vitals.EmptySystolicOutOfRange | backend/models/PatientRecord.js:66-68 | "/b" is always out of range, because `Number("")` is 0 |
| Helpers.ValidateEmail | src/utils/helpers.js:15-17 | accepts exactly the strings the left-to-right address scan accepts: no white space, one '@' not first, and a '.' strictly inside the part after it (the scan and the pattern agree by Patterns.EmailScanMatchesPattern) |
| Helpers.ValidatePhone | src/utils/helpers.js:19-21 | accepts exactly the strings of ten ASCII digits |
| Helpers.ValidateBloodPressure | src/utils/helpers.js:27-29 | accepts exactly the values that split on '/' into two non-empty digit runs |
| Helpers.ValidatePassword | src/utils/helpers.js:23-25 | a password passes exactly when it is present and has at least 6 characters |
| Helpers.ParseFloatOf | src/utils/helpers.js:32 | `parseFloat` of a string is NaN exactly when the string has no numeric prefix |
| Helpers.ValidateNumericOnlyNumbers | src/utils/helpers.js:31-33 | `validateNumeric` accepts exactly the finite numbers, so every string is refused, "42" included |
| Helpers.ValidBloodPressureHasTwoParts | src/utils/helpers.js:27-29 | a value that `validateBloodPressure` accepts splits on '/' into exactly two digit runs |
| Helpers.BloodPressureReason | src/utils/helpers.js:88-103 | the blood-pressure check yields no reason, "Hypertensive crisis" or "Hypotension", and none for a missing or empty value |
| Helpers.ReasonOfReadings | src/utils/helpers.js:92-99 | the reason picked from the converted readings is one of those three outcomes |
| Helpers.ReadingsWithDiastolic | src/utils/helpers.js:92-99 | with a diastolic part, a reason is pushed exactly when both readings convert and a threshold is crossed; "Hypertensive crisis" iff systolic >= 180 or diastolic >= 120, otherwise "Hypotension" iff systolic < 90 or diastolic < 60, so never both |
| Helpers.ReasonOfSlashedValue | src/utils/helpers.js:91 | a value containing '/' is judged on the two converted halves of its split |
| Helpers.ReasonOfBareValue | src/utils/helpers.js:91-92 | a value without '/' is judged on its converted whole, with an undefined diastolic |
| Helpers.HeartRateReason | src/utils/helpers.js:105-118 | "Bradycardia" iff the parsed rate is <= 50, "Tachycardia" iff >= 120, and nothing for a missing, empty or unparsable value |
| Helpers.OxygenReason | src/utils/helpers.js:120-130 | "Low oxygen saturation" iff the parsed level is < 90, and nothing otherwise |
| Helpers.RespiratoryReason | src/utils/helpers.js:132-145 | "Bradypnea" iff the parsed rate is <= 10, "Tachypnea" iff >= 30, and nothing for a missing, empty or unparsable value |
| Helpers.ReasonList.constructor | src/utils/helpers.js:148 | `const reasons = []`: the list starts empty |
| Helpers.ReasonList.Push | src/utils/helpers.js:95 | `reasons.push(r)` appends r to the shared list |
| Helpers.CheckBloodPressure | src/utils/helpers.js:88-103 | the method returns true exactly when the check has a reason, and pushes that reason and nothing else |
| Helpers.CheckHeartRate | src/utils/helpers.js:105-118 | the method returns true exactly when the check has a reason, and pushes that reason and nothing else |
| Helpers.CheckOxygenLevel | src/utils/helpers.js:120-130 | the method returns true exactly when the check has a reason, and pushes that reason and nothing else |
| Helpers.CheckRespiratoryRate | src/utils/helpers.js:132-145 | the method returns true exactly when the check has a reason, and pushes that reason and nothing else |
| Helpers.FirstReason | src/utils/helpers.js:149-152 | there is no reason exactly when no check has one, and a blood-pressure reason always wins |
| Helpers.CheckCriticalVitals | src/utils/helpers.js:147-154 | because the four checks are chained with a short-circuiting or, `reasons` is the first check's reason alone: it holds at most one entry, and `isCritical` holds exactly when it holds one |
| Helpers.ClientAgreesWithServer | src/utils/helpers.js:105-145 | the client's heart-rate, oxygen and respiratory checks flag a value exactly when the server's classifier does |
| Helpers.ClientBloodPressureWithSlash | src/utils/helpers.js:88-103 | for a value containing '/', the client's blood-pressure check agrees with the server's |
| Helpers.ReasonOfParts | src/utils/helpers.js:92-99 | with both halves converted, the reason is the crisis or the hypotension exactly as the thresholds say |
| Helpers.BloodPressureReasonOfNumerals | src/utils/helpers.js:93-99 | for "a/b", "Hypertensive crisis" iff a >= 180 or b >= 120, and "Hypotension" iff neither holds and a < 90 or b < 60 |
| Helpers.SlashBetween | src/utils/helpers.js:91 | "x/y" contains a '/' |
| Helpers.ClientFlagsBareSystolic | src/utils/helpers.js:91-93 | a bare systolic of at least 180 is a crisis on the client, whose `Number.isNaN(undefined)` is false, but not critical on the server, whose `isNaN(undefined)` is true |
| Helpers.FormatAge | src/utils/helpers.js:66-76 | "N/A" without a date of birth; otherwise the number of birthdays reached, followed by " years" |
| Helpers.CapitalizeFirstLetter | src/utils/helpers.js:78-81 | "" for a missing or empty string; otherwise the same string with its first character upper-cased: a lower-case ASCII letter becomes the letter 32 code points below, anything else is kept |
| Helpers.LowerUndoesCapitalize | src/utils/helpers.js:78-81 | lower-casing a capitalised string gives the lower-cased original |
| Helpers.CapitalizeIdempotent | src/utils/helpers.js:78-81 | capitalizing twice is capitalizing once |
| Helpers.NormalizeTestType | src/utils/helpers.js:173-181 | the four camel-case keys map to their Pascal-case names; an inherited Object member is returned as that member; any other input comes back unchanged |
| Helpers.DenormalizeTestType | src/utils/helpers.js:183-191 | the four Pascal-case names map to their camel-case keys; an inherited Object member is returned as that member; any other input comes back unchanged |
| Helpers.DenormalizeNormalize | src/utils/helpers.js:173-191 | for an ordinary string that is not a Pascal-case name, denormalizing its normalization gives it back |
| Helpers.NormalizeDenormalize | src/utils/helpers.js:173-191 | for an ordinary string that is not a camel-case key, normalizing its denormalization gives it back |
| Helpers.TestTypeRoundTrips | src/utils/helpers.js:173-191 | the two mappings are inverse on the four keys |
| Helpers.InheritedNamesAreNotStrings | src/utils/helpers.js:173-190 | "constructor" and "toString" come back as Object's inherited members, not as strings |
| PatientRecordModel.RecordErrors | backend/models/PatientRecord.js:11-23 | a record fails validation on its test type exactly when the type is outside the four-value enum, and on its value exactly when the trimmed value is empty |
| PatientRecordModel.OnlyFeverTriggers | backend/models/PatientRecord.js:81-85 | the symptom rule holds exactly when some symptom lower-cases to "fever": the camel-case literal can never equal a lower-cased string |
| PatientRecordModel.SymptomExamples | backend/models/PatientRecord.js:82-85 | "shortnessOfBreath" never flags a record, while "FEVER" does |
| PatientRecordModel.NoNumericRuleApplies | backend/models/PatientRecord.js:63-79 | an unknown test type, an empty value, or a non-numeric value for a parseFloat-based type contributes no numeric criticality |
| PatientRecordModel.RuleOfParsedValue | backend/models/PatientRecord.js:70-78 | with a value that parses to x: heart rate is critical iff x <= 50 or x >= 120, oxygen iff x < 90, respiratory rate iff x <= 10 or x >= 30 |
| PatientRecordModel.ParsedRules | backend/models/PatientRecord.js:70-78 | the three parseFloat branches compare the parse result (NaN failing every comparison) against exactly those thresholds |
| PatientRecordModel.BloodPressureRule | backend/models/PatientRecord.js:65-69 | a non-empty blood-pressure value is critical iff both split parts convert and systolic >= 180, diastolic >= 120, systolic < 90 or diastolic < 60 |
| PatientRecordModel.ThresholdsOnNumerals | backend/models/PatientRecord.js:65-78 | on decimal numerals every branch reduces to its integer threshold test, blood pressure included |
| PatientRecordModel.BloodPressureEdgeCases | backend/models/PatientRecord.js:66-68 | a value with no '/' is never critical (its diastolic is undefined, hence NaN), while "/b" is always critical (Number("") is 0 < 90) |
| PatientRecordModel.RecordDocument.PreSave | backend/models/PatientRecord.js:61-89 | the hook overwrites the incoming flag with the classifier's verdict and changes nothing else in the document |
| PatientRecordModel.RecentCriticalCount | backend/models/PatientRecord.js:97-101 | the count of the patient's flagged records in the window never exceeds the number of records |
| PatientRecordModel.RecentCriticalCountPositive | backend/models/PatientRecord.js:97-104 | the count is positive exactly when some record of that patient is flagged and dated at or after now minus 24 hours, whatever its isActive |
| PatientRecordModel.SetCriticalFlag | backend/models/PatientRecord.js:103-105 | findByIdAndUpdate sets the flag (and the update time) of the one patient with that id, leaves every other patient as is, and is a no-op for a missing id |
| PatientRecordModel.ReconcileIdempotent | backend/models/PatientRecord.js:97-105 | reconciling twice with no write in between leaves every patient's flag as the first run left it |
| PatientRecordModel.WindowBoundary | backend/models/PatientRecord.js:100 | the window is inclusive: a flagged record exactly 24 hours old still counts, one a millisecond older does not, and an inactive record counts too |
| PatientRecordModel.Db.Reconcile | backend/models/PatientRecord.js:92-109 | the post-save hook sets the patient's flag to "some recent flagged record"; a failure leaves the patients untouched and is not reported |
| PatientRecordModel.Db.SaveRecord | backend/models/PatientRecord.js:61-109 | a save casts the value, refuses a document with validation errors without writing, otherwise stores the classified record under the next id and runs the reconcile, whose failure never fails the save |
| PatientRecordModel.CastRecord | backend/models/PatientRecord.js:19-31 | casting keeps the patient and the date and assigns the new id; value and notes are trimmed |
| PatientRecordModel.SavedCriticalRecordFlagsPatient | backend/models/PatientRecord.js:97-105 | once a flagged record dated inside the window is stored, its patient's reconciled flag is true |
| PatientModel.CastName | backend/models/Patient.js:9 | the `trim` setter never lengthens the name and leaves no white space at either end |
| PatientModel.CastNameRemovesMargins | backend/models/Patient.js:9 | the stored name is the given one without its white-space margins |
| PatientModel.CastEmail | backend/models/Patient.js:30-31 | the `lowercase` and `trim` setters leave no upper-case letter and no white space at either end |
| PatientModel.CastEmailRemovesMargins | backend/models/Patient.js:30-31 | the stored address is the given one, lower-cased, without its white-space margins |
| PatientModel.CastEmailIdempotent | backend/models/Patient.js:30-31 | casting a cast address changes nothing |
| PatientModel.ToLowerKeepsWhiteSpace | backend/models/Patient.js:30-31 | lower-casing moves no white space |
| PatientModel.TrimIdempotent | backend/models/Patient.js:9 | trimming twice is trimming once |
| PatientModel.PatientErrors | backend/models/Patient.js:5-42 | a stored document is reported on exactly the paths whose validator fails (name of at least 3, dob not in the future, ten-digit contact, 'N/A' or an address, a non-empty history), each path once |
| PatientModel.FailedPaths | backend/models/Patient.js:5-42 | every path whose check fails is listed, no other, and none twice |
| PatientModel.Failed | backend/models/Patient.js:5-42 | a failing check adds its path in front, and a passing one adds nothing |
| PatientModel.InputErrors | backend/models/Patient.js:5-42 | `new Patient(body)` fails on a missing or invalid required field, and on the address when the cast address (the one sent, or the default 'N/A' through the setters) is neither 'N/A' nor an address; so an absent address is always an error |
| PatientModel.InputErrorsEmpty | backend/models/Patient.js:5-42 | the input has no errors exactly when it is complete and every field passes |
| PatientModel.NewPatientValid | backend/models/Patient.js:5-67 | a complete, valid input (which therefore carries an address) builds a document the schema accepts |
| PatientModel.DefaultEmailRefused | backend/models/Patient.js:27-37 | the default 'N/A' is cast to 'n/a' by the lowercase and trim setters, and 'n/a' fails the path's validator |
| PatientModel.CreatePatientDocument | backend/models/Patient.js:27-67 | the save succeeds exactly when there are no input errors; then the document is valid and carries the creator and timestamps, `isCritical` false unless sent true, `isActive` true unless sent false, and the cast address that was sent; a body without an address is refused on the e-mail path |
| PatientModel.NewPatientDefaults | backend/models/Patient.js:29-67 | a patient built from the required fields alone is not critical, is active, has 'N/A' as each vital and the cast default 'n/a' as address, and its save is refused with exactly the e-mail path |
| PatientModel.Age | backend/models/Patient.js:85-95 | null without a dob; otherwise the number of birthdays reached by today |
| PatientModel.StoredPatientAgeNonNegative | backend/models/Patient.js:85-95 | a patient that passed the dob validator has an age of at least 0 |
| PatientController.BuildPatientFilter | backend/controllers/patientController.js:38-47 | the query object matches exactly the active patients, with the name search when `search` is given, and `isCritical` equal to (param === 'true') when the parameter is present |
| PatientController.SortDirection | backend/controllers/patientController.js:51 | the direction is 1 exactly for `sortOrder` "asc", and -1 otherwise |
| PatientController.SortKey | backend/controllers/patientController.js:32-51 | the sort key is `createdAt` by default or when asked, and `updatedAt` when asked (other fields: see Left out) |
| PatientController.Matching | backend/controllers/patientController.js:60 | the counted patients are exactly those the filter accepts |
| PatientController.Ordered | backend/controllers/patientController.js:54-55 | the listed patients are a permutation of the matches, ascending on the key for "asc" and descending otherwise |
| PatientController.GetPatients | backend/controllers/patientController.js:28-75 | the page is the requested window of the ordered matches, at most `limit` long and holding listed patients only; the total is the number of matches and the page count its ceiling over the limit |
| PatientController.PageMembers | backend/controllers/patientController.js:56-57 | every patient on a page is one of the sorted matches |
| PatientController.SameCount | backend/controllers/patientController.js:60 | a permutation has the same length, so the count agrees with the sorted list |
| PatientController.GetCriticalPatients | backend/controllers/patientController.js:163-169 | exactly the critical, active patients, most recently updated first |
| PatientController.Count | backend/controllers/patientController.js:184-188 | `countDocuments` never exceeds the number of patients |
| PatientController.CountMonotone | backend/controllers/patientController.js:185-187 | a stronger filter never counts more |
| PatientController.GetStatistics | backend/controllers/patientController.js:183-199 | the total equals the active count (the same filter), the critical patients are among the active ones, and `stablePatients` is active minus critical and never negative |
| PatientController.StatisticsExample | backend/tests/patients.test.js:176-178 | three active patients of whom two are critical give (3, 2, 3, 1) |
| PatientController.UpdateErrors | backend/controllers/patientController.js:113-123 | with `runValidators`, an update fails on exactly the fields it sends that are invalid |
| PatientController.ApplyUpdate | backend/controllers/patientController.js:113-118 | the merged document takes each sent field (name and address cast by their setters, dob, contact, history and the four vitals as sent), plus `updatedBy`; id, `isActive` and creation data stay; a sent `isCritical` is written as sent |
| PatientController.UpdateKeepsPatientValid | backend/controllers/patientController.js:113-123 | an update that passes the validators keeps a valid patient valid |
| PatientController.ClientWritesCriticalFlag | backend/controllers/patientController.js:116 | a client-supplied `isCritical` overrides the derived flag |
| PatientController.UpdatePatient | backend/controllers/patientController.js:110-136 | an invalid update is refused, a missing id gives 404, both without a write; otherwise exactly that patient is replaced by the merge |
| PatientController.DeletePatient | backend/controllers/patientController.js:141-158 | a missing id gives 404 with no write; otherwise only that patient's `isActive` becomes false, with its update time |
| PatientController.DeletedPatientIsHidden | backend/controllers/patientController.js:185-187 | a soft-deleted patient is never listed, never critical-listed and never counted |
| RecordController.BuildRecords | backend/controllers/recordController.js:17-25 | one record per reading, in order, under consecutive ids, all sharing the patient, `recordedBy` and the insert time; each carries its reading's test type and trimmed value, and the flag is true exactly when the body's `isCritical` is true |
| RecordController.IngestionIgnoresClassifier | backend/controllers/recordController.js:23-27 | a heart rate of 120 or more is ingested unflagged although the save hook would flag it, because `insertMany` runs no save middleware |
| RecordController.FirstErrors | backend/controllers/recordController.js:27 | `insertMany` reports no error exactly when every built record passes the record schema |
| RecordController.CreatePatientRecord | backend/controllers/recordController.js:7-37 | an unknown patient gives 404 before any insert; a batch with a schema error inserts nothing; otherwise exactly the built records are appended, and the patients are never touched |
| RecordController.CreatedCount | backend/controllers/recordController.js:34 | the response count is the number of readings |
| RecordController.BuildRecordFilter | backend/controllers/recordController.js:53-72 | the query object matches exactly the active records, with equality on a given patient and a non-empty test type, the flag equal to (param === 'true') when present, and an inclusive date range |
| RecordController.Matching | backend/controllers/recordController.js:93 | the counted records are exactly those the filter accepts |
| RecordController.ListedRecords | backend/controllers/recordController.js:78-90 | the listed records are a permutation of the matches, newest first |
| RecordController.GetPatientRecords | backend/controllers/recordController.js:42-108 | the page is the requested window of the sorted matches, at most `limit` long, newest first and holding listed records only; the total is the number of matches and the page count its ceiling over the limit |
| RecordController.SameCount | backend/controllers/recordController.js:93 | a permutation has the same length, so the total agrees with the sorted list |
| RecordController.PageMembers | backend/controllers/recordController.js:91-92 | every record on a page is one of the sorted matches |
| RecordController.PageSorted | backend/controllers/recordController.js:90-92 | a page of a list sorted newest first is itself sorted newest first |
| RecordController.GetCriticalRecords | backend/controllers/recordController.js:221-228 | exactly the critical, active records dated at or after now minus 24 hours, newest first |
| RecordController.DeletedRecordOnlyCountsForFlag | backend/models/PatientRecord.js:97-101 | a soft-deleted critical record of the last day is no longer listed as critical, yet it still keeps its patient flagged |
| RecordController.MaxDate | backend/controllers/recordController.js:256 | `$max: '$date'` is a date of the group that no date of the group exceeds |
| RecordController.GetRecordStatistics | backend/controllers/recordController.js:245-262 | there is one group per test type of the patient's active records, and no other |
| RecordController.TypesAreGroups | backend/controllers/recordController.js:253-254 | the group of every such test type is non-empty |
| RecordController.StatisticsBounds | backend/controllers/recordController.js:252-260 | each group counts at least one record and never more critical records than records, and its `latestDate` is the latest date of its records |
| RecordController.DeletePatientRecord | backend/controllers/recordController.js:199-216 | a missing id gives 404 with no write; otherwise only that record's `isActive` becomes false |
| Subscription.GetTierLimits | backend/models/Subscription.js:152-228 | the four tier names give their rows; an inherited Object member name gives that member; any other tier falls back to FREE |
| Subscription.MaxPatientsByTier | backend/models/Subscription.js:155-209 | `maxPatients` rises strictly from FREE (10) to BASIC (50) to PROFESSIONAL (200), and ENTERPRISE is -1, unlimited |
| Subscription.TierFeatures | backend/models/Subscription.js:161-227 | every tier offers `dataExport` and `mobileApp`, ENTERPRISE offers every feature, and an unknown ordinary name gets FREE |
| Subscription.LimitsOf | backend/models/Subscription.js:53-74 | the limits sub-document has exactly the five limit keys |
| Subscription.UsageKeyOfMax | backend/models/Subscription.js:233 | `replace('max', 'current')` turns "max" + rest into "current" + rest |
| Subscription.UsageKeyKeepsFirst | backend/models/Subscription.js:233 | a key that does not start with 'm' keeps its first character |
| Subscription.OnlyMaxPatientsHasCounter | backend/models/Subscription.js:231-236 | of the five limit keys only `maxPatients` maps to an existing usage counter |
| Subscription.Subscription.CheckLimit | backend/models/Subscription.js:231-237 | true exactly when the limit is -1, or the mapped counter exists and is below the limit; a missing counter compares false |
| Subscription.CheckLimitWithoutCounter | backend/models/Subscription.js:233-236 | every limit except `maxPatients` passes only when unlimited |
| Subscription.PatientQuota | backend/models/Subscription.js:231-237 | the patient quota passes exactly when unlimited or `currentPatients < maxPatients` |
| Subscription.Subscription.constructor | backend/models/Subscription.js:15-91 | a new subscription is on FREE with the FREE limits and every counter at 0 |
| Subscription.Subscription.IncrementUsage | backend/models/Subscription.js:240-243 | the named counter rises by exactly 1 and nothing else changes |
| Subscription.Subscription.ResetMonthlyUsage | backend/models/Subscription.js:246-250 | `recordsThisMonth` becomes 0 and `lastResetDate` now, and the other counters are unchanged |
| UserModel.UserErrors | backend/models/User.js:5-30 | a user fails on the name when shorter than 3, on the address when it does not match the pattern, and on the password when a local account has none or one is shorter than 6 |
| UserModel.FindByEmail | backend/controllers/authController.js:35 | `findOne({ email })` returns the first user whose stored address is the cast query, and none when no user has it |
| UserModel.FindEmailFrom | backend/controllers/authController.js:73 | the search from an index finds the first match at or after it |
| UserModel.FindByGoogleId | backend/controllers/oauthController.js:72 | `findOne({ googleId })` returns the first user with that Google id, and none when no user has it |
| UserModel.FindGoogleIdFrom | backend/controllers/oauthController.js:72 | the search from an index finds the first match at or after it |
| UserModel.UserStore.Insert | backend/models/User.js:5-30 | an insert is refused with the validation errors, or for a taken address (the unique index), without a write; otherwise the user is appended under the next id |
| UserModel.UserStore.Save | backend/models/User.js:5-30 | a save is refused with the validation errors, or for an address another user holds, without a write; otherwise exactly that user is replaced |
| UserModel.FindByEmailUnique | backend/models/User.js:14 | with unique addresses the look-up finds the one user holding the address |
| AuthController.Register | backend/controllers/authController.js:31-64 | a taken address gives 409 and creates nothing; otherwise the new local user is stored under the next id unless validation refuses it |
| AuthController.LoginTokens | backend/controllers/authController.js:97-101 | the new list is the last at most two old tokens, in order, followed by the new one: at most 3 entries, the new one last, and nothing dropped from a list of two or fewer |
| AuthController.Login | backend/controllers/authController.js:69-121 | unknown address gives 401, then an inactive account 403, then a wrong password 401, all without a write; on success only that user changes, to the new token list and login time |
| AuthController.LoginsKeepThreeTokens | backend/controllers/authController.js:98-101 | after one or more logins the list is the newest min(old + logins, 3) entries of the old tokens followed by the issued ones, in order |
| AuthController.LoginsKeepNewest | backend/controllers/authController.js:98-101 | by induction over the logins: the held list is the newest entries of the old tokens followed by the issued ones |
| AuthController.RefreshAccess | backend/controllers/authController.js:126-166 | a missing token gives 400; a token is accepted exactly when it decodes to an active user holding an equal, unexpired entry; every other case gives 403 |
| AuthController.ExpiryIsStrict | backend/controllers/authController.js:149 | a token whose expiry is not after now is refused |
| AuthController.LoginTokenRefreshes | backend/controllers/authController.js:148-150 | a token issued at login is accepted for the following seven days |
| AuthController.PullToken | backend/controllers/authController.js:178 | `$pull` removes every entry with the token and keeps every other one |
| AuthController.LogoutRevokes | backend/controllers/authController.js:174-180 | after logout the token is no longer accepted |
| AuthController.Logout | backend/controllers/authController.js:171-186 | with a token, exactly that user's list loses its entries with the token; without one, nothing changes |
| OAuthController.Resolve | backend/controllers/oauthController.js:71-105 | the Google-id match wins and refreshes the login time, name and picture (these two only when sent); otherwise an address match is linked (Google id set, provider google, verified); otherwise a verified google user with role `user` and no tokens is created, named by the request or the address's local part |
| OAuthController.WithToken | backend/controllers/oauthController.js:112-118 | one more token is appended, expiring 7 days ahead, and nothing validation looks at changes |
| OAuthController.SaveAndIssue | backend/controllers/oauthController.js:79-119 | a found account is saved, then saved again with the new token; only validation can refuse, and then nothing is written |
| OAuthController.CreateAndIssue | backend/controllers/oauthController.js:94-119 | a new account is inserted, then saved with the new token; only validation can refuse, and then nothing is written |
| OAuthController.MobileGoogleAuth | backend/controllers/oauthController.js:64-137 | a missing Google id or address gives 400 with no write; otherwise the resolved account is stored, with exactly one more refresh token |
| OAuthController.SignInsKeepEveryToken | backend/controllers/oauthController.js:115-118 | unlike login, repeated Google sign-ins keep every old token and add one per sign-in, with no cap |
| OAuthController.CreatedNameIsLocalPart | backend/controllers/oauthController.js:97 | without a name, a created account is named after the address's part before '@' |
| Validator.CheckString | backend/middleware/validator.js:37-98 | a `Joi.string()` rule reports errors exactly when the value is refused (absent though required, not a string, empty, too short or long after trimming when it trims, off the pattern, the list or the address check), every error under the key's path; the value kept is the trimmed and lower-cased string, or the default |
| Validator.NumeralValue | backend/middleware/validator.js:94-95 | a blank string is not a number |
| Validator.CheckNumber | backend/middleware/validator.js:94-95 | a `Joi.number().integer()` rule reports errors exactly when the value is refused, under its path, and keeps the converted number or the default |
| Validator.CheckBoolean | backend/middleware/validator.js:89 | a `Joi.boolean()` rule accepts an absent value or one that converts to a boolean ("true" and "false" in any case), and keeps the converted value |
| Validator.CheckDate | backend/middleware/validator.js:54 | a `Joi.date().max('now')` rule accepts an absent optional value, or one that parses to a date not after now, and keeps the parsed date |
| Validator.Flatten | backend/middleware/validator.js:8-11 | the collected details are exactly those of every key, and there are none exactly when no key has any |
| Validator.ErrorsOf | backend/middleware/validator.js:8-11 | the chunks are the keys' error lists, in order |
| Validator.Fields | backend/middleware/validator.js:6-29 | the stripped value holds only schema keys, each with its checked value when it has one |
| Validator.Collect | backend/middleware/validator.js:8-11 | with `abortEarly: false` every key's details are gathered, and the object passes exactly when every key does |
| Validator.Names | backend/middleware/validator.js:52-58 | the key names of a schema, in order |
| Validator.StringKeyResults | backend/middleware/validator.js:78-83 | each key of a nested object is checked under its own extended path |
| Validator.UnderPrefix | backend/middleware/validator.js:15 | details under a longer path are under its prefix |
| Validator.FlattenUnder | backend/middleware/validator.js:15 | details gathered from chunks under a path stay under it |
| Validator.StringKeyErrors | backend/middleware/validator.js:78-83 | a nested object passes exactly when each key does, and reports every key's errors under its own path |
| Validator.CheckItem | backend/middleware/validator.js:76-87 | an array item that must be an object passes exactly when it is one and each of its keys passes, reporting every key's errors |
| Validator.ItemResults | backend/middleware/validator.js:76-84 | each item is checked under its index |
| Validator.ItemErrors | backend/middleware/validator.js:76-84 | the items pass exactly when each does, and every item's errors are reported |
| Validator.CheckArray | backend/middleware/validator.js:76-87 | an array rule passes exactly when the value is absent and optional, or an array long enough whose every item passes; every item's errors are reported |
| Validator.CheckRule | backend/middleware/validator.js:37-98 | every error of a key's rule is reported under that key's path |
| Validator.KeyResults | backend/middleware/validator.js:8-11 | each key of the schema is checked in turn |
| Validator.CheckObject | backend/middleware/validator.js:8-11 | the body passes exactly when every key does, the errors are exactly the keys' errors, and unknown keys are stripped |
| Validator.Validate | backend/middleware/validator.js:6-29 | `validate` and `validateQuery` pass exactly when every key passes, then hand on only the checked keys with their checked values; otherwise a 400 lists every error of every key, each under its path joined by '.', and nothing else |
| Validator.FieldErrors | backend/middleware/validator.js:14-17 | one error per detail, in order, each under its joined path |
| Validator.ReadingField | backend/middleware/validator.js:15 | the path readings, i, testType joins to "readings.i.testType" and splits back into its parts |
| Validator.BooleanLikeChecked | backend/middleware/validator.js:89 | a boolean key passes exactly when absent, a boolean, or "true"/"false" in any case |
| Validator.ReadingChecked | backend/middleware/validator.js:78-83 | a reading passes exactly when it is an object whose test type is one of the four and whose value is a string that is not blank |
| Validator.TestTypeAccepted | backend/middleware/validator.js:79-81 | the test type passes exactly when it is one of the four names |
| Validator.ReadingValueAccepted | backend/middleware/validator.js:82 | the value passes exactly when it is a string that is not blank |
| Validator.FiveKeys | backend/middleware/validator.js:8-11 | a five-key schema passes exactly when each of its keys passes |
| Validator.ReadingsChecked | backend/middleware/validator.js:76-86 | `readings` passes exactly when it is an array of at least one item, each a valid reading |
| Validator.SymptomsChecked | backend/middleware/validator.js:87 | `symptoms` passes exactly when absent or an array of non-empty strings |
| Validator.RecordBatchAccepted | backend/middleware/validator.js:74-90 | a record batch passes exactly when it has a patient id, at least one valid reading, valid symptoms and notes, and a boolean-like flag |
| Validator.RecordScalarsChecked | backend/middleware/validator.js:75-89 | the patient id must be a non-empty string, the notes at most 1000 characters after trimming, the flag boolean-like |
| Validator.BooleanKeyChecked | backend/middleware/validator.js:89 | a boolean key of any schema passes exactly when its value is boolean-like |
| Validator.UnknownTypeDetail | backend/middleware/validator.js:79-81 | an unknown test type is reported under the reading's `testType` path |
| Validator.ReadingsKey | backend/middleware/validator.js:76-86 | the `readings` key is checked as a required array of readings with at least one item |
| Validator.ArrayReportsItem | backend/middleware/validator.js:76-86 | every error of an item is an error of the array |
| Validator.SecondReadingDetail | backend/middleware/validator.js:76-86 | an unknown test type in the second reading is reported under readings, 1, testType |
| Validator.SecondItemDetail | backend/middleware/validator.js:76-86 | the array check reports that detail |
| Validator.ValidateReports | backend/middleware/validator.js:13-23 | any detail of any key makes the request a 400 that reports it |
| Validator.SecondReadingTypeField | backend/middleware/validator.js:15 | that path prints as "readings.1.testType" |
| Validator.SecondReadingTypeReported | backend/middleware/validator.js:8-23 | a batch whose second reading has an unknown type is refused with an error for field "readings.1.testType" |
| Validator.TenDigitsNonEmpty | backend/middleware/validator.js:55 | a ten-digit contact is not empty |
| Validator.StringKeyChecked | backend/middleware/validator.js:52-58 | a string key passes exactly when its value is accepted by its rule |
| Validator.NameChecked | backend/middleware/validator.js:53 | `name` passes exactly when absent and optional, or a string of 3 to 100 characters after trimming |
| Validator.DobChecked | backend/middleware/validator.js:54 | `dob` passes exactly when absent and optional, or parses to a date not after now |
| Validator.ContactChecked | backend/middleware/validator.js:55 | `contact` passes exactly when absent and optional, or exactly ten digits |
| Validator.EmailChecked | backend/middleware/validator.js:56 | `email` passes exactly when absent, or lower-cased and trimmed is a non-empty valid address |
| Validator.HistoryChecked | backend/middleware/validator.js:57 | `medicalHistory` passes exactly when absent and optional, or 10 to 1000 characters |
| Validator.PatientBodyAccepted | backend/middleware/validator.js:52-58 | a patient body passes exactly when each of the five fields meets its rule |
| Validator.PaddedContactRefused | backend/middleware/validator.js:55 | a contact with a leading space is refused: the contact rule does not trim |
| Validator.TenKeys | backend/middleware/validator.js:8-11 | a ten-key schema passes exactly when each of its keys passes |
| Validator.UpdateFieldsChecked | backend/middleware/validator.js:61-65 | the five patient fields of an update pass exactly when each sent one meets its rule |
| Validator.UpdateVitalsChecked | backend/middleware/validator.js:66-70 | the vitals of an update pass exactly when each sent one is a non-empty string, and the flag is boolean-like |
| Validator.VitalChecked | backend/middleware/validator.js:66-69 | a vital passes exactly when absent or a non-empty string |
| Validator.PatientUpdateAccepted | backend/middleware/validator.js:60-71 | an update passes exactly when its fields and its vitals do |
| Validator.DistinctByFirst | backend/middleware/validator.js:60-71 | names whose first letters differ are distinct |
| Validator.UpdateNamesDistinct | backend/middleware/validator.js:60-71 | the update schema names each key once |
| Validator.PaginationNamesDistinct | backend/middleware/validator.js:93-99 | the pagination schema names each key once |
| Validator.ValueWasSent | backend/middleware/validator.js:60-71 | a rule without a default keeps a value only when one was sent |
| Validator.ValidatedValue | backend/middleware/validator.js:26 | after validation a key is present exactly when its check kept a value, and holds that value |
| Validator.ValidatedKey | backend/middleware/validator.js:10 | every key of the validated value is a schema key |
| Validator.UpdateRulesHaveNoDefault | backend/middleware/validator.js:60-71 | no rule of the update schema has a default |
| Validator.UpdateKeepsOnlySent | backend/middleware/validator.js:60-71 | a validated update holds only keys the client sent, so the merge writes nothing the client did not send |
| Validator.CriticalOnlyPasses | backend/middleware/validator.js:70 | a body holding only `isCritical: "TRUE"` passes the update schema |
| Validator.UpdateSetsCriticalFlag | backend/middleware/validator.js:70 | and is handed on as exactly `isCritical: true`, so a client can set the flag directly |
| Validator.NumberKeyChecked | backend/middleware/validator.js:94-95 | a number key passes exactly when its value is accepted by its rule |
| Validator.PageChecked | backend/middleware/validator.js:94-95 | `page` must be absent or an integer of at least 1, and `limit` absent or an integer from 1 to 100 |
| Validator.SortChecked | backend/middleware/validator.js:96-98 | `sortBy` and `search` must be absent or non-empty strings, and `sortOrder` absent, "asc" or "desc" |
| Validator.PaginationAccepted | backend/middleware/validator.js:93-99 | a query passes exactly when each of its five keys does |
| Validator.FiltersNotInQuery | backend/middleware/validator.js:93-99 | none of the list filters (patientId, testType, isCritical, startDate, endDate) is a key of the pagination schema |
| Validator.PaginationDefaults | backend/middleware/validator.js:94-97 | after validation page defaults to 1, limit to 10, and sortOrder to "desc" |
| Validator.QueryKeyValues | backend/middleware/validator.js:94-97 | each of those keys keeps the value sent, converted, or its default |
| Validator.PaginationStripsFilters | backend/middleware/validator.js:105-128 | with `stripUnknown`, a validated query holds none of the list filters |
| ClientCache.Relay | src/context/RecordContext.js:26-33 | an operation reports success exactly when the reply succeeded, with its data; otherwise it reports the reply's or the thrown error's message and no data |
| ClientCache.ErrorText | src/context/RecordContext.js:32 | `error.message \|\| fallback`: the message when it is non-empty, else the fallback |
| ClientCache.Reselect | src/context/RecordContext.js:108-110 | a selection with the id becomes the replacement, and any other selection is kept |
| ClientCache.Deselect | src/context/RecordContext.js:131-133 | a selection with the id is cleared, and any other selection is kept |
| ClientCache.UpdateKeepsSelectionCached | src/context/PatientContext.js:108-113 | if the selection was one of the cached documents, it still is after an update |
| ClientCache.DeleteKeepsSelectionCached | src/context/PatientContext.js:133-136 | a deletion keeps a cached selection cached, or clears it |
| ClientCache.DeleteRemovesEveryCopy | src/context/RecordContext.js:130 | after a deletion no cached document carries the id, and every other document is still cached |
| ClientCache.CreateThenDeleteRestores | src/context/RecordContext.js:78-143 | deleting the id of freshly prepended records gives back the old list |
| ClientCache.RemoveByIdAllMatch | src/context/RecordContext.js:130 | a list whose every element carries the id is emptied |
| RecordContext.RecordProvider.constructor | src/context/RecordContext.js:15-18 | an empty list, no selection, idle, no error |
| RecordContext.RecordProvider.Fail | src/context/RecordContext.js:31-33 | a thrown call records its message or the fallback as the error, and nothing else changes |
| RecordContext.RecordProvider.FetchRecords | src/context/RecordContext.js:21-56 | a successful fetch replaces the list wholesale; the error is cleared, or set when the call threw; loading ends false |
| RecordContext.RecordProvider.FetchRecord | src/context/RecordContext.js:59-75 | a successful fetch selects the record and leaves the list alone |
| RecordContext.RecordProvider.CreateRecord | src/context/RecordContext.js:78-95 | a successful create puts the created records in front of the cached ones; otherwise the list is unchanged |
| RecordContext.RecordProvider.UpdateRecord | src/context/RecordContext.js:98-120 | a successful update replaces every cached record with the id and a matching selection; otherwise both are unchanged |
| RecordContext.RecordProvider.DeleteRecord | src/context/RecordContext.js:123-143 | a successful delete drops every cached record with the id and clears a matching selection, and reports no data; otherwise both are unchanged |
| RecordContext.RecordProvider.SetSelected | src/context/RecordContext.js:16 | the setter changes the selection alone |
| PatientContext.PatientProvider.constructor | src/context/PatientContext.js:15-24 | an empty list, no selection, every counter zero, idle, no error |
| PatientContext.PatientProvider.Fail | src/context/PatientContext.js:37-39 | a thrown call records its message or the fallback as the error, and nothing else changes |
| PatientContext.PatientProvider.FetchPatients | src/context/PatientContext.js:27-43 | a successful fetch replaces the list wholesale; the error is cleared, or set when the call threw; loading ends false |
| PatientContext.PatientProvider.FetchStatistics | src/context/PatientContext.js:46-58 | a successful fetch replaces the counters, and neither the loading flag nor the error changes |
| PatientContext.PatientProvider.FetchPatient | src/context/PatientContext.js:61-77 | a successful fetch selects the patient and leaves the list alone |
| PatientContext.PatientProvider.CreatePatient | src/context/PatientContext.js:80-98 | nothing is inserted locally; on success the list and counters become the re-fetched ones where those fetches succeed, and the creation is reported as a success whatever they yield |
| PatientContext.PatientProvider.UpdatePatient | src/context/PatientContext.js:101-123 | a successful update replaces every cached patient with the id and a matching selection; otherwise both are unchanged; the counters never change |
| PatientContext.PatientProvider.DeletePatient | src/context/PatientContext.js:126-147 | a successful delete drops every cached patient with the id, clears a matching selection and re-fetches the counters; otherwise nothing changes |
| PatientContext.PatientProvider.SetSelected | src/context/PatientContext.js:16 | the setter changes the selection alone |

## Left out

- Number conversion: the JavaScript `Number` and `parseFloat` forms with an exponent, `Infinity`, hexadecimal or binary prefixes are not modelled; a numeral is an optional sign, digits and an optional fraction. Safe-integer limits and floating-point rounding are not modelled either (values are exact reals).
- Case mapping: `toLowerCase` and `toUpperCase` act on ASCII letters only; other alphabets are left unchanged.
- Dates: a date is a calendar day plus a millisecond clock; time zones, daylight saving time and leap seconds are not modelled. The refresh-token lifetime is a fixed seven times 24 hours, although the Google sign-in computes it with `setDate(+7)`, which differs across a daylight-saving change.
- Validator.CheckDate: `max('now')` and the schema's `v < new Date()` are compared at day granularity, not to the millisecond.
- Foreign code is a parameter or a predicate: the Joi address check, date parsing, JWT signing and verification, bcrypt hashing and comparison, the client's HTTP services and MongoDB's regular-expression `search`.
- React: a state setter takes effect at once; batching, re-rendering and stale closures are not modelled.
- RecordContext.RecordProvider.FetchRecords and PatientContext.PatientProvider.FetchPatients return the list; the source returns the whole `response.data`, which also carries the pagination block.
- Logging by `console.error` (the client's statistics fetch, the record hook's reconcile catch) is not modelled.
- MongoDB: `populate`, `lean`, indexes, the TTL index on refresh tokens and the mechanics of the aggregation pipelines are not modelled; aggregations are modelled by their results.
- Joi and Mongoose message texts are replaced by an error kind per failed rule.
- Validator.Validate: the reassignment of `req.query`, which some Express versions ignore, is modelled as taking effect.
- Endpoints not modelled: `getPatientRecordsByPatientId`, `getRecordById`, `updatePatientRecord`, `getPatientById`, `getProfile` and `updateProfile`; they are thin look-ups or updates beside the ones modelled.
- Client helpers not modelled: `getErrorMessage`, `formatDate` and `formatDateTime` (locale formatting), `debounce` and `throttle` (timers); `fetchRecordStatistics` and `fetchCriticalRecords` of the record provider and `fetchCriticalPatients` of the patient provider are relays that change no state and are not modelled.
- Subscription: the status, billing-period and trial fields, the Stripe identifiers and `paymentHistory` of the schema are not modelled, nor `checkUsage` of `backend/controllers/subscriptionController.js`; none of them enters the tier table or the limit checks.
- Concurrency: every asynchronous call is modelled as completing before the next begins.
- Logger: request duration and request ids are not modelled; only the status classification is.
- Helpers.ValidatePassword: the source returns the password or `false`, read for its truthiness; the model returns the boolean.
- PatientController.SortKey: a `sortBy` other than `createdAt` and `updatedAt` (such as `name` or `dob`) sorts on a constant in the model, so for those the list order is left open; Mongo's ordering of strings, dates and mixed types is not modelled.
- PatientRecordModel.Record: the `createdAt` and `updatedAt` fields that `timestamps: true` adds to a record, and the update of `updatedAt` by the soft delete, are not modelled; nothing in the modelled code reads them.
- UserModel.User: the `createdAt` and `updatedAt` fields that `timestamps: true` adds to a user are not modelled; nothing in the modelled code reads them.
- Subscription.Subscription.IncrementUsage: a usage name outside the three counters, `lastResetDate` included, is modelled as changing nothing; in the source `lastResetDate += 1` turns the date into a string, which the save would refuse to cast. No caller passes such a name.
- PatientController.Ordered: for those `sortBy` values the contract fixes the members and not their order, as follows from SortKey.
- PatientController.GetPatients: likewise, for those `sortBy` values the page holds matching patients of the right count, in an order the model leaves open.
- PatientModel.NameValid: string lengths are counted in Unicode characters, where JavaScript's `length`, Mongoose's `minlength` and Joi's `min`/`max` count UTF-16 code units; a character outside the Basic Multilingual Plane (an emoji, say) counts once here and twice in the source. The same holds for UserModel.UserNameValid, UserModel.PasswordValid, Helpers.ValidatePassword and every length bound of the Joi rules in Validator.
