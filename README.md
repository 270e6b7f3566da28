# Input validation of the student-registration backend

The backend accepts two JSON bodies: a registration (`POST /register`) and a
candidate's resume details (`POST /resume-details`). Each body is checked
twice:

- first by a zod schema before the handler runs, in `src/validation/schema.ts`;
- then by a mongoose model when the document is saved, in
  `src/db/models/user.ts` and `src/db/models/userResumeDetails.ts`.

This project models both layers as Dafny predicates over the parsed body. It
proves what each field rule accepts, and how the two layers relate.

Modules:

- `Payloads` (`payloads.dfy`) holds the two bodies as datatypes. Every member
  is a `Field`: `Absent` (missing), `Null` (an explicit `null`) or
  `Given(value)`. zod and mongoose treat the three cases differently.
- `Text`, `Regex` and `Patterns` (`text.dfy`, `regex.dfy`, `patterns.dfy`)
  model the regex literals.
  - `Regex` gives a reference semantics: `Matches` is an anchored `test`,
    `Found` an unanchored one.
  - `Patterns` writes each literal as a `Re` term, together with a direct
    predicate on the string, such as `PincodeShape` or `EmailShape`. It
    proves the two agree on every string.
  - JavaScript's character classes are spelled out: `\d` is ASCII only, `\s`
    is the ECMAScript white-space set, and `.` excludes the four line
    terminators.
- `RequestSchema` (`request_schema.dfy`) holds the zod rules. `.optional()`
  admits a missing member, never `null`.
  - `RegistrationIssues` is the set of failing paths. It is empty exactly
    when the body is valid.
- `StorageRules` (`storage_rules.dfy`) holds the mongoose validators:
  - `required` refuses a missing value, `null` and `""`;
  - `match` and `enum` let a missing value and `null` through, and `match`
    also lets `""` through;
  - a custom array validator throws on `null`.
- `UserModel` (`user_model.dfy`) models `userSchema`.
  - The course table is a parameter.
  - The branch validator looks up `courseToBranches[this.course]`. For that
    lookup, a missing course becomes the key `"undefined"` and a null course
    the key `"null"`, as JavaScript converts them.
- `ResumeDetailsModel` (`resume_model.dfy`) models `resumeDetailsSchema`.
  - Nested objects are nested paths: when a parent object is missing, every
    path under it is missing.
  - `WithDefaults` builds the stored document: `default: null` fills,
    empty arrays, and `education` dropped.
- `CrossLayer` (`cross_layer.dfy`) characterises exactly which request-valid
  bodies the storage layer still refuses.

Two inputs become parameters:

- The current year (`currentYear: int`). The source reads it with
  `new Date().getFullYear()` when the module loads.
- The course-to-branches table (`map<string, seq<string>>`). It is loaded from
  `data/courseToBranches.json`, which is not part of this model.

zod's `.url()` and `.email()` are library checks. They are predicate
parameters `isUrl` and `isEmail`.

Numbers are `real`. `passOutYear` is whole at the request layer (`.int()`),
while the storage layer accepts a fraction such as 1990.5.

## Where the two layers, and the schema and its interface, differ

- **Enum case.** The enums are lowercase in both schemas
  (`undergraduate`, `male`, …), while the `IUser` interface
  (`src/db/models/user.ts:9,14`) spells the same values capitalised. The
  model uses the schema's lowercase values, which are what validation checks.
- **Unknown course.** An unknown course fails the course enum only. The
  branch validator's `?.includes` finds no list and yields `undefined`,
  which mongoose counts as a pass (`UserModel.UnknownCourseFailsCourseOnly`).
  With an empty table the enum has no options, mongoose installs no enum
  validator, and a non-empty course and branch fail neither path.
- **Year ranges.** The request layer accepts `passOutYear` in
  [1900, Y + 10], storage in [1990, Y + 5].
- **City list.** The request layer wants exactly three cities, storage at
  most six.
- **Empty strings.** At storage, a `match` path treats `""` like a missing
  value. At the request layer, zod's regex refuses `""` for a pincode or a
  certification year, while the `dateOfBirth` refine (`!dob || …`) lets
  `""` through.
- **Designation.** `currentDesignation` is optional in the request and
  required in storage (`CrossLayer.DesignationGap`).
- **Branch rule.** The request layer has no course/branch rule at all.

## Model

| member | source | states |
|---|---|---|
| Patterns.PincodePatternMatches | src/db/models/userResumeDetails.ts:70-74 | `/^\d{4,6}$/` matches exactly the strings of 4 to 6 ASCII digits |
| Patterns.MobilePatternMatches | src/validation/schema.ts:79-81 | `/^\d{10}$/` matches exactly the strings of 10 ASCII digits |
| Patterns.YearPatternMatches | src/validation/schema.ts:145-148 | `/^\d{4}$/` matches exactly the strings of 4 ASCII digits |
| Patterns.DatePatternMatches | src/validation/schema.ts:52 | `/^\d{4}-\d{2}-\d{2}$/` matches exactly the 10-character strings with digits at 0-3, 5-6 and 8-9 and `-` at 4 and 7 |
| Patterns.PhotoPatternMatches | src/db/models/userResumeDetails.ts:58 | the photo regex matches `""`, or `http://`/`https://` followed by single-line text ending in `.` and one of png, jpg, jpeg, gif, svg |
| Patterns.LinkedInPatternMatches | src/db/models/userResumeDetails.ts:78 | the linkedIn regex matches `""`, or a scheme followed by single-line text containing `linkedin.com/` |
| Patterns.GithubPatternMatches | src/db/models/userResumeDetails.ts:79 | the github regex matches `""`, or a scheme followed by single-line text containing `github.com/` |
| Patterns.LinkPatternMatches | src/db/models/userResumeDetails.ts:110-114 | the project-link regex matches `""`, or a scheme followed by single-line text |
| Patterns.EmailPatternFound | src/db/models/userResumeDetails.ts:76 | the unanchored email regex finds a match iff some `@` and a later `.` are separated by non-space characters, with a non-space just before the `@` and just after the `.` |
| RequestSchema.RegistrationIssues | src/validation/schema.ts:6-55 | a path is reported iff its member's rule fails; no issue iff the registration body is valid |
| RequestSchema.RegistrationValidFields | src/validation/schema.ts:6-55 | a valid registration body meets every member rule: lengths, enums, year, percentage, URLs, three-place lists, date of birth |
| RequestSchema.RegistrationFieldsValid | src/validation/schema.ts:6-55 | a body meeting every member rule is valid |
| RequestSchema.NameLengths | src/validation/schema.ts:7-15 | firstName and lastName pass iff given with 3 to 20 characters; collegeName iff 5 to 50 |
| RequestSchema.PassOutYearBoundaries | src/validation/schema.ts:27-30 | 1900 and Y + 10 pass; 1899, Y + 11, a fractional year, a missing year and null fail |
| RequestSchema.PassOutYearRange | src/validation/schema.ts:27-30 | passOutYear is reported iff it is not a whole number in [1900, Y + 10]; an accepted body stays accepted with year v iff v is such a number |
| RequestSchema.PercentageRange | src/validation/schema.ts:31-33 | cgpaOrPercentage is reported iff it is missing, null or outside [0, 100]; an accepted body stays accepted with value v iff 0 ≤ v ≤ 100 |
| RequestSchema.PreferredLocationCounts | src/validation/schema.ts:41-49 | each preferred-location list is reported iff it is null or sent with other than exactly 3 entries; a missing list is not reported |
| RequestSchema.DateOfBirthRule | src/validation/schema.ts:50-54 | dateOfBirth passes iff it is missing, empty or matches the date regex; "2001-13-45" passes (no range check) and "2001-1-5" fails |
| RequestSchema.DigitRules | src/validation/schema.ts:73-81 | the pincode, mobile and certification-year rules are exactly their regex literals applied to the given string |
| RequestSchema.EmptyPincodeRejected | src/validation/schema.ts:73-76 | an empty pincode fails the request rule; a missing one passes |
| RequestSchema.StreamIsMpc | src/validation/schema.ts:102 | an accepted grades11And12 block has stream "MPC", and stays accepted with another stream value iff that value is "MPC"; "PCM" is refused |
| RequestSchema.DegreesOptional | src/validation/schema.ts:113-137 | an accepted education block stays accepted with underGraduation and graduation both removed |
| RequestSchema.ShortListRule | src/validation/schema.ts:178-189 | in an accepted body, replacing skills, domainKnowledge or achievements keeps it accepted iff the new list is missing or holds at most 6 non-empty strings |
| UserModel.UserIssues | src/db/models/user.ts:27-93 | a path is reported iff its validators fail; no issue iff the document is valid; dateOfBirth is never reported, since dates are not cast |
| UserModel.UserValidFields | src/db/models/user.ts:27-93 | a stored user has every required field, enum values, a course and branch listed in the table when the table is non-empty, a year in range, and lists within their caps |
| UserModel.UserFieldsValid | src/db/models/user.ts:27-93 | a registration meeting all those conditions is stored |
| UserModel.CourseRule | src/db/models/user.ts:36-40 | course passes iff it is a non-empty key of the table; with an empty table (no enum options, so no enum validator) iff it is non-empty |
| UserModel.BranchRule | src/db/models/user.ts:41-51 | when the table has no "undefined" or "null" key, branch passes iff it is non-empty and, when the course is a key of the table, a member of table[course] |
| UserModel.UnknownCourseFailsCourseOnly | src/db/models/user.ts:36-51 | for a course missing from the table, branch is reported iff it is missing, null or empty; course is reported when the table is non-empty, and with an empty table only when empty |
| UserModel.UnlistedBranchFailsAlone | src/db/models/user.ts:41-51 | replacing the branch of a valid user by one not listed under its course gives exactly the issue {branch} |
| UserModel.BranchIsLocal | src/db/models/user.ts:45-47 | changing the branch changes no verdict except branch's own |
| UserModel.RequiredPaths | src/db/models/user.ts:28-65 | names, college, profiles: pass iff given and non-empty; cgpa iff given; specialization and gender iff one of their lowercase options |
| UserModel.PassOutYearRange | src/db/models/user.ts:52-57 | passOutYear passes iff given and 1990 ≤ v ≤ Y + 5, fractions included |
| UserModel.LocationCaps | src/db/models/user.ts:66-89 | countries and states pass iff missing or at most 3 entries, cities iff missing or at most 6; null fails |
| UserModel.WithDefaults | src/db/models/user.ts:66-89 | each preferred-location list left out is stored as `[]`; a list or null that was sent, and every other path, is stored unchanged; every verdict is the same |
| ResumeDetailsModel.WithDefaults | src/db/models/userResumeDetails.ts:56-139 | every `default: null` path left out (directly or with its parent object) is stored as null, every array left out as `[]`, inside each subdocument too; nested objects are present and education is dropped |
| ResumeDetailsModel.WithDefaultsAgrees | src/db/models/userResumeDetails.ts:56-139 | required paths are unchanged and every value or null that was sent is kept, element by element in the arrays |
| ResumeDetailsModel.WithDefaultsKeepsVerdict | src/db/models/userResumeDetails.ts:56-139 | the document with defaults is valid iff the body is |
| ResumeDetailsModel.WithDefaultsIdempotent | src/db/models/userResumeDetails.ts:56-139 | applying the defaults twice gives the same document as once |
| ResumeDetailsModel.EducationIgnored | src/routes/user.ts:65-88 | the education block has no effect on the verdict or the stored document |
| ResumeDetailsModel.RequiredObjects | src/db/models/userResumeDetails.ts:60-83 | a missing basicInformation, address or summary object makes the document invalid |
| ResumeDetailsModel.PersonalInformationOptional | src/db/models/userResumeDetails.ts:57-59 | without personalInformation, the document is valid iff every other part is |
| ResumeDetailsModel.RequiredLeaves | src/db/models/userResumeDetails.ts:61-106 | a stored document has non-empty names, designation, country, state, city, summary, certification names, internship titles and project names, a well-formed email and a 10-digit mobile |
| ResumeDetailsModel.ListCaps | src/db/models/userResumeDetails.ts:118-138 | in a stored document skills, domainKnowledge and achievements are not null and hold at most 6 entries; replacing one keeps the document stored iff the new list is missing or holds at most 6 entries |
| ResumeDetailsModel.UnsetValues | src/db/models/userResumeDetails.ts:58-82 | in a stored document, a missing, null or empty photo, linkedIn, github or pincode keeps it stored (`match` skips it), and a missing, null or empty name, designation or summary makes it fail (`required`) |
| ResumeDetailsModel.MatchRulesAreTheRegexes | src/db/models/userResumeDetails.ts:58-114 | each `match` rule (with `required` for email and mobile) is exactly its regex literal, with missing, null and "" passing where mongoose skips the pattern |
| ResumeDetailsModel.PaidValues | src/db/models/userResumeDetails.ts:99 | a stored internship's paid is missing, null, "paid" or "unpaid"; null is accepted |
| CrossLayer.RegistrationGap | src/db/models/user.ts:27-93 | a request-valid registration is stored iff course and branch are non-empty, listed in the table when the table is non-empty, and the year is within [1990, Y + 5] (given that "" is not a URL; dates not cast) |
| CrossLayer.RequestHasNoBranchRule | src/validation/schema.ts:19-24 | a request-valid registration stays valid with any course and branch strings |
| CrossLayer.WrongBranchReachesStorage | src/db/models/user.ts:41-51 | a branch not listed under the course passes the request layer and fails storage on branch alone |
| CrossLayer.StorageYearsAreRequestYears | src/db/models/user.ts:52-57 | every whole year the storage layer accepts is accepted by the request layer |
| CrossLayer.YearRangesDiffer | src/validation/schema.ts:27-30 | 1900 and Y + 10 pass the request layer and fail storage; 1990.5 passes storage and fails the request layer |
| CrossLayer.PercentageBoundOnlyAtRequest | src/db/models/user.ts:58 | 150 fails the request layer and passes storage |
| CrossLayer.ThreePlacesFitStorage | src/validation/schema.ts:41-49 | a preferred-location list the request layer accepts meets the caps 3 and 6 |
| CrossLayer.ResumeGap | src/db/models/userResumeDetails.ts:56-139 | request-valid resume details are stored iff a designation was sent and photo, email, linkedIn, github and every project link meet the storage patterns (dates not cast) |
| CrossLayer.DesignationGap | src/db/models/userResumeDetails.ts:64 | removing currentDesignation keeps a body request-valid and makes it fail storage |
| CrossLayer.EmptyPincodeGap | src/db/models/userResumeDetails.ts:70-74 | an empty pincode fails the request layer, and storage treats it as a missing one |
| CrossLayer.NullOptionalGap | src/validation/schema.ts:65 | a null middleName fails the request layer and does not change the storage verdict |
| CrossLayer.ShortListsFitStorage | src/validation/schema.ts:178-189 | a list the request layer accepts meets the storage cap of 6 |

## Left out

- `.url()` and `.email()` are library checks whose definitions are outside the source; they are the parameters `isUrl` and `isEmail`, and `RegistrationGap` assumes only that `""` is not a URL.
- UserModel.UserIssues, CrossLayer.RegistrationGap, CrossLayer.ResumeGap: do not model mongoose's `Date` casting of `dateOfBirth`, `startDate` and `endDate`, which is library coercion. Dates are strings here, so a date mongoose cannot cast (such as "2001-13-45", which the request layer accepts) is not refused at storage, and these members' "stored iff" holds only for dates mongoose can cast.
- Type coercion of other values (a number sent for a string, a string for a number or boolean) is not modelled: each member has its declared type or is missing or null.
- Lengths are counted in code points; JavaScript counts UTF-16 code units, which differ for characters outside the Basic Multilingual Plane.
- Numbers are unbounded reals, not IEEE doubles; no rounding, NaN or infinity.
- A `null` entry inside an array cannot be expressed: lists are sequences of their element type. A `null` nested object is treated by the validators as a missing one (`PersonalOf`, `BasicOf`, `AddressOf` and `SummaryOf` map it to all-missing paths). A `null` subdocument array passes the validators and is stored as null by `ResumeDetailsModel.WithDefaults` (a missing one becomes `[]`). mongoose's casting of these values is not modelled.
- Email uniqueness (`unique: true`) is a database index, not a validator.
- UserModel.UserIssues, UserModel.BranchRule: the course table's inherited prototype keys (`constructor`, `toString`, …) are not modelled; the map has only its own keys. In the source, the lookup of such a course finds a function with no `includes`, the call throws, and mongoose reports branch as failing; the model lets the branch through. The course enum refuses such a course in both, unless the table is empty.
- The exact error messages, the order in which issues are reported and the middleware that reports them are outside the model; only the set of failing paths is modelled.
- The route handlers, the HTTP responses, `_id` assignment, empty nested objects being minimised away, and the database connection are I/O and are not modelled.
- The current year is a parameter; the source reads the clock once when each module loads.
