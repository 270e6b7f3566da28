/**
 * The storage-layer rules for a registration, from src/db/models/user.ts:
 * the mongoose `userSchema` that a registration is validated against when
 * it is saved. The course-to-branch table is read from a JSON data file
 * when the module loads; here it is a parameter.
 */
module UserModel {
  import opened Payloads
  import opened StorageRules

  /** Each course offered, mapped to the branches that may be chosen under it. */
  type CourseTable = map<string, seq<string>>

  const Specializations: set<string> := {"undergraduate", "postgraduate"}
  const Genders: set<string> := {"male", "female", "other"}
  const EarliestPassOutYear: real := 1990.0

  /**
   * The property name `courseToBranches[this.course]` looks up: JavaScript
   * converts a missing course to "undefined" and a null one to "null".
   */
  function LookupKey(course: Field<string>): string {
    match course
    case Absent => "undefined"
    case Null => "null"
    case Given(c) => c
  }

  /**
   * The branch validator `courseToBranches[this.course]?.includes(branch)`:
   * when the course has a list, the list includes the branch; when it has
   * none, the optional call yields `undefined`, which mongoose counts as a
   * pass.
   */
  predicate BranchListed(p: Registration, table: CourseTable) {
    var key := LookupKey(p.course);
    p.branch.Given? && (key in table ==> p.branch.value in table[key])
  }

  /**
   * The validators of one path of `userSchema`; dateOfBirth only has a type.
   * The course enum is built from the table's keys, and mongoose installs no
   * enum validator for an empty list of options, so an empty table leaves
   * only `required` on course.
   */
  predicate UserFieldOk(p: Registration, path: RegistrationPath, table: CourseTable, currentYear: int) {
    match path
    case FirstName => RequiredString(p.firstName)
    case LastName => RequiredString(p.lastName)
    case CollegeName => RequiredString(p.collegeName)
    case Specialization => RequiredString(p.specialization) && InEnum(p.specialization, Specializations)
    case Course => RequiredString(p.course) && (table == map[] || InEnum(p.course, table.Keys))
    case Branch => RequiredString(p.branch) && BranchListed(p, table)
    case PassOutYear =>
      RequiredNumber(p.passOutYear) && WithinRange(p.passOutYear, EarliestPassOutYear, (currentYear + 5) as real)
    case CgpaOrPercentage => RequiredNumber(p.cgpaOrPercentage)
    case Gender => RequiredString(p.gender) && InEnum(p.gender, Genders)
    case GithubProfile => RequiredString(p.githubProfile)
    case LinkedInProfile => RequiredString(p.linkedInProfile)
    case JobPreferredCountries => AtMost(p.jobPreferredCountries, 3)
    case JobPreferredStates => AtMost(p.jobPreferredStates, 3)
    case JobPreferredCities => AtMost(p.jobPreferredCities, 6)
    case DateOfBirth => true
  }

  /** The document passes `userSchema`'s validation. */
  predicate UserValid(p: Registration, table: CourseTable, currentYear: int) {
    forall path :: UserFieldOk(p, path, table, currentYear)
  }

  /**
   * The paths of the `ValidationError` mongoose raises: every path is
   * validated and each failing one is reported, so saving succeeds exactly
   * when none fails.
   */
  function UserIssues(p: Registration, table: CourseTable, currentYear: int): (issues: set<RegistrationPath>)
    ensures forall path :: path in issues <==> !UserFieldOk(p, path, table, currentYear)
    ensures issues == {} <==> UserValid(p, table, currentYear)
    ensures DateOfBirth !in issues
  {
    EveryPathListed();
    set path | path in RegistrationPaths && !UserFieldOk(p, path, table, currentYear)
  }

  /** Validity spelled out path by path. */
  lemma UserValidFields(p: Registration, table: CourseTable, currentYear: int)
    requires UserValid(p, table, currentYear)
    ensures
      && RequiredString(p.firstName)
      && RequiredString(p.lastName)
      && RequiredString(p.collegeName)
      && RequiredString(p.specialization) && p.specialization.value in Specializations
      && RequiredString(p.course)
      && RequiredString(p.branch)
      && (table != map[] ==> p.course.value in table && p.branch.value in table[p.course.value])
      && p.passOutYear.Given?
      && EarliestPassOutYear <= p.passOutYear.value <= (currentYear + 5) as real
      && p.cgpaOrPercentage.Given?
      && RequiredString(p.gender) && p.gender.value in Genders
      && RequiredString(p.githubProfile)
      && RequiredString(p.linkedInProfile)
      && AtMost(p.jobPreferredCountries, 3)
      && AtMost(p.jobPreferredStates, 3)
      && AtMost(p.jobPreferredCities, 6)
  {
    assert UserFieldOk(p, FirstName, table, currentYear);
    assert UserFieldOk(p, LastName, table, currentYear);
    assert UserFieldOk(p, CollegeName, table, currentYear);
    assert UserFieldOk(p, Specialization, table, currentYear);
    assert UserFieldOk(p, Course, table, currentYear);
    assert UserFieldOk(p, Branch, table, currentYear);
    assert UserFieldOk(p, PassOutYear, table, currentYear);
    assert UserFieldOk(p, CgpaOrPercentage, table, currentYear);
    assert UserFieldOk(p, Gender, table, currentYear);
    assert UserFieldOk(p, GithubProfile, table, currentYear);
    assert UserFieldOk(p, LinkedInProfile, table, currentYear);
    assert UserFieldOk(p, JobPreferredCountries, table, currentYear);
    assert UserFieldOk(p, JobPreferredStates, table, currentYear);
    assert UserFieldOk(p, JobPreferredCities, table, currentYear);
  }

  /** The converse of `UserValidFields`. */
  lemma UserFieldsValid(p: Registration, table: CourseTable, currentYear: int)
    requires RequiredString(p.firstName)
    requires RequiredString(p.lastName)
    requires RequiredString(p.collegeName)
    requires RequiredString(p.specialization) && p.specialization.value in Specializations
    requires RequiredString(p.course)
    requires RequiredString(p.branch)
    requires table != map[] ==> p.course.value in table && p.branch.value in table[p.course.value]
    requires p.passOutYear.Given?
    requires EarliestPassOutYear <= p.passOutYear.value <= (currentYear + 5) as real
    requires p.cgpaOrPercentage.Given?
    requires RequiredString(p.gender) && p.gender.value in Genders
    requires RequiredString(p.githubProfile)
    requires RequiredString(p.linkedInProfile)
    requires AtMost(p.jobPreferredCountries, 3)
    requires AtMost(p.jobPreferredStates, 3)
    requires AtMost(p.jobPreferredCities, 6)
    ensures UserValid(p, table, currentYear)
  {
  }

  // ---- the branch rule ----

  /**
   * When the table has no "undefined" or "null" course, a branch is accepted
   * exactly when it is non-empty and, if the course is a key of the table,
   * listed under it.
   */
  lemma BranchRule(p: Registration, table: CourseTable, currentYear: int)
    requires "undefined" !in table && "null" !in table
    ensures Branch !in UserIssues(p, table, currentYear)
        <==> && p.branch.Given? && p.branch.value != []
             && (p.course.Given? && p.course.value in table ==> p.branch.value in table[p.course.value])
  {
  }

  /**
   * The course is accepted exactly when it is a non-empty key of the table;
   * with an empty table there is no enum, and any non-empty course passes.
   */
  lemma CourseRule(p: Registration, table: CourseTable, currentYear: int)
    ensures table != map[] ==> (Course !in UserIssues(p, table, currentYear)
        <==> p.course.Given? && p.course.value != [] && p.course.value in table)
    ensures table == map[] ==> (Course !in UserIssues(p, table, currentYear)
        <==> p.course.Given? && p.course.value != [])
  {
  }

  /**
   * An unknown course fails the course enum only: the branch lookup finds no
   * list and passes any non-empty branch. With an empty table there is no
   * enum either, so only an empty course fails.
   */
  lemma UnknownCourseFailsCourseOnly(p: Registration, table: CourseTable, currentYear: int)
    requires p.course.Given? && p.course.value !in table
    ensures table != map[] ==> Course in UserIssues(p, table, currentYear)
    ensures table == map[] ==> (Course in UserIssues(p, table, currentYear) <==> p.course.value == [])
    ensures Branch in UserIssues(p, table, currentYear) <==> !(p.branch.Given? && p.branch.value != [])
  {
  }

  /** A branch not listed under a known course fails on branch alone. */
  lemma UnlistedBranchFailsAlone(p: Registration, table: CourseTable, currentYear: int, b: string)
    requires UserValid(p, table, currentYear)
    requires p.course.Given? && p.course.value in table
    requires b != [] && b !in table[p.course.value]
    ensures UserIssues(p.(branch := Given(b)), table, currentYear) == {Branch}
  {
    UserValidFields(p, table, currentYear);
    var q := p.(branch := Given(b));
    forall path ensures path in UserIssues(q, table, currentYear) <==> path == Branch {
      assert UserFieldOk(p, path, table, currentYear);
    }
  }

  /** The branch is read by its own validator only: no other path's verdict depends on it. */
  lemma BranchIsLocal(p: Registration, table: CourseTable, currentYear: int, b: Field<string>)
    ensures UserIssues(p.(branch := b), table, currentYear) - {Branch}
         == UserIssues(p, table, currentYear) - {Branch}
  {
    var q := p.(branch := b);
    forall path | path != Branch
      ensures UserFieldOk(q, path, table, currentYear) <==> UserFieldOk(p, path, table, currentYear)
    {
    }
  }

  // ---- required paths and enums ----

  /**
   * The plain required paths reject a missing, null or empty value;
   * specialization and gender must also be one of their lowercase options;
   * dateOfBirth is never reported.
   */
  lemma RequiredPaths(p: Registration, table: CourseTable, currentYear: int)
    ensures FirstName !in UserIssues(p, table, currentYear) <==> p.firstName.Given? && p.firstName.value != []
    ensures LastName !in UserIssues(p, table, currentYear) <==> p.lastName.Given? && p.lastName.value != []
    ensures CollegeName !in UserIssues(p, table, currentYear) <==> p.collegeName.Given? && p.collegeName.value != []
    ensures GithubProfile !in UserIssues(p, table, currentYear)
        <==> p.githubProfile.Given? && p.githubProfile.value != []
    ensures LinkedInProfile !in UserIssues(p, table, currentYear)
        <==> p.linkedInProfile.Given? && p.linkedInProfile.value != []
    ensures CgpaOrPercentage !in UserIssues(p, table, currentYear) <==> p.cgpaOrPercentage.Given?
    ensures Specialization !in UserIssues(p, table, currentYear)
        <==> p.specialization.Given? && p.specialization.value in {"undergraduate", "postgraduate"}
    ensures Gender !in UserIssues(p, table, currentYear)
        <==> p.gender.Given? && p.gender.value in {"male", "female", "other"}
  {
  }

  // ---- numbers and lists ----

  /** passOutYear: any number from 1990 to five years past the current year, fractions included. */
  lemma PassOutYearRange(p: Registration, table: CourseTable, currentYear: int)
    ensures PassOutYear !in UserIssues(p, table, currentYear)
        <==> p.passOutYear.Given? && 1990.0 <= p.passOutYear.value <= (currentYear + 5) as real
  {
  }

  /** The preferred-location caps: missing passes, null fails, otherwise at most 3, 3 and 6 entries. */
  lemma LocationCaps(p: Registration, table: CourseTable, currentYear: int)
    ensures JobPreferredCountries !in UserIssues(p, table, currentYear)
        <==> p.jobPreferredCountries.Absent?
             || (p.jobPreferredCountries.Given? && |p.jobPreferredCountries.value| <= 3)
    ensures JobPreferredStates !in UserIssues(p, table, currentYear)
        <==> p.jobPreferredStates.Absent?
             || (p.jobPreferredStates.Given? && |p.jobPreferredStates.value| <= 3)
    ensures JobPreferredCities !in UserIssues(p, table, currentYear)
        <==> p.jobPreferredCities.Absent?
             || (p.jobPreferredCities.Given? && |p.jobPreferredCities.value| <= 6)
  {
  }

  /**
   * The document mongoose builds: an array path left out of the body is
   * stored as its default, the empty array; a list or null that was sent,
   * and every other path, is stored as sent; and no verdict changes.
   */
  function WithDefaults(p: Registration): (r: Registration)
    ensures p.jobPreferredCountries.Absent? ==> r.jobPreferredCountries == Given([])
    ensures p.jobPreferredStates.Absent? ==> r.jobPreferredStates == Given([])
    ensures p.jobPreferredCities.Absent? ==> r.jobPreferredCities == Given([])
    ensures !p.jobPreferredCountries.Absent? ==> r.jobPreferredCountries == p.jobPreferredCountries
    ensures !p.jobPreferredStates.Absent? ==> r.jobPreferredStates == p.jobPreferredStates
    ensures !p.jobPreferredCities.Absent? ==> r.jobPreferredCities == p.jobPreferredCities
    ensures r.(jobPreferredCountries := p.jobPreferredCountries, jobPreferredStates := p.jobPreferredStates,
               jobPreferredCities := p.jobPreferredCities) == p
    ensures forall table, currentYear :: UserIssues(r, table, currentYear) == UserIssues(p, table, currentYear)
  {
    var r := p.(
      jobPreferredCountries := if p.jobPreferredCountries.Absent? then Given([]) else p.jobPreferredCountries,
      jobPreferredStates := if p.jobPreferredStates.Absent? then Given([]) else p.jobPreferredStates,
      jobPreferredCities := if p.jobPreferredCities.Absent? then Given([]) else p.jobPreferredCities);
    assert forall table, currentYear, path :: UserFieldOk(r, path, table, currentYear) == UserFieldOk(p, path, table, currentYear);
    r
  }
}
