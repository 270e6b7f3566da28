/**
 * The request-layer rules of src/validation/schema.ts: the zod schemas
 * `userRegistrationSchema` and `userResumeDetailsSchema`, checked before a
 * handler runs. zod's `.optional()` admits a missing member only (an
 * explicit null is a type error), and a string rule applies to the empty
 * string like to any other. `.url()` and `.email()` are zod's own
 * checks; they are parameters here (`isUrl`, `isEmail`).
 */
module RequestSchema {
  import opened Payloads
  import opened Patterns
  import Regex

  // ---- zod building blocks ----

  /** `z.string().min(lo).max(hi)` */
  predicate LengthBetween(f: Field<string>, lo: nat, hi: nat) {
    f.Given? && lo <= |f.value| <= hi
  }

  /** `z.string().min(1)` */
  predicate NonEmpty(f: Field<string>) {
    f.Given? && |f.value| >= 1
  }

  /** `z.string()`, `z.boolean()`: present and of the type. */
  predicate Present<T>(f: Field<T>) {
    f.Given?
  }

  /** `.optional()` around a rule that only checks the type. */
  predicate OptionalPresent<T>(f: Field<T>) {
    f.Absent? || f.Given?
  }

  /** A string passing `check`: a `.regex(...)`, `.url()` or `.email()` refinement. */
  predicate Checked(f: Field<string>, check: string -> bool) {
    f.Given? && check(f.value)
  }

  predicate OptionalChecked(f: Field<string>, check: string -> bool) {
    f.Absent? || Checked(f, check)
  }

  /** `z.enum([...])` */
  predicate OneOf(f: Field<string>, options: set<string>) {
    f.Given? && f.value in options
  }

  const Specializations: set<string> := {"undergraduate", "postgraduate"}
  const Genders: set<string> := {"male", "female", "other"}
  const PaidOptions: set<string> := {"paid", "unpaid"}

  /** The JSON number is a whole number (zod `.int()`). */
  predicate IsWhole(v: real) {
    v.Floor as real == v
  }

  // ---- userRegistrationSchema ----

  /** `passOutYear`: an integer from 1900 to ten years past the year the schema was built. */
  predicate PassOutYearOk(f: Field<real>, currentYear: int) {
    f.Given? && IsWhole(f.value) && 1900.0 <= f.value <= (currentYear + 10) as real
  }

  /** `cgpaOrPercentage`: a number from 0 to 100. */
  predicate PercentageOk(f: Field<real>) {
    f.Given? && 0.0 <= f.value <= 100.0
  }

  /** `z.array(z.string()).length(3).optional()` */
  predicate ExactlyThree(f: Field<seq<string>>) {
    f.Absent? || (f.Given? && |f.value| == 3)
  }

  /** `dateOfBirth`: the refine lets a missing or empty value through, else checks the shape. */
  predicate DateOfBirthOk(f: Field<string>) {
    f.Absent? || (f.Given? && (f.value == [] || DateShape(f.value)))
  }

  /** The rule of one member of `userRegistrationSchema`. */
  predicate RegistrationFieldOk(p: Registration, path: RegistrationPath, currentYear: int, isUrl: string -> bool) {
    match path
    case FirstName => LengthBetween(p.firstName, 3, 20)
    case LastName => LengthBetween(p.lastName, 3, 20)
    case CollegeName => LengthBetween(p.collegeName, 5, 50)
    case Specialization => OneOf(p.specialization, Specializations)
    case Course => Present(p.course)
    case Branch => Present(p.branch)
    case PassOutYear => PassOutYearOk(p.passOutYear, currentYear)
    case CgpaOrPercentage => PercentageOk(p.cgpaOrPercentage)
    case Gender => OneOf(p.gender, Genders)
    case GithubProfile => Checked(p.githubProfile, isUrl)
    case LinkedInProfile => Checked(p.linkedInProfile, isUrl)
    case JobPreferredCountries => ExactlyThree(p.jobPreferredCountries)
    case JobPreferredStates => ExactlyThree(p.jobPreferredStates)
    case JobPreferredCities => ExactlyThree(p.jobPreferredCities)
    case DateOfBirth => DateOfBirthOk(p.dateOfBirth)
  }

  /** The registration body passes `userRegistrationSchema`: every member's rule holds. */
  predicate RegistrationValid(p: Registration, currentYear: int, isUrl: string -> bool) {
    forall path :: RegistrationFieldOk(p, path, currentYear, isUrl)
  }

  /**
   * The paths of the issues zod reports: every member is checked and every
   * failing one is listed, so the body is accepted exactly when none is.
   */
  function RegistrationIssues(p: Registration, currentYear: int, isUrl: string -> bool): (issues: set<RegistrationPath>)
    ensures forall path :: path in issues <==> !RegistrationFieldOk(p, path, currentYear, isUrl)
    ensures issues == {} <==> RegistrationValid(p, currentYear, isUrl)
  {
    EveryPathListed();
    set path | path in RegistrationPaths && !RegistrationFieldOk(p, path, currentYear, isUrl)
  }

  /** Validity spelled out member by member. */
  lemma RegistrationValidFields(p: Registration, currentYear: int, isUrl: string -> bool)
    requires RegistrationValid(p, currentYear, isUrl)
    ensures
      && LengthBetween(p.firstName, 3, 20)
      && LengthBetween(p.lastName, 3, 20)
      && LengthBetween(p.collegeName, 5, 50)
      && OneOf(p.specialization, Specializations)
      && Present(p.course)
      && Present(p.branch)
      && PassOutYearOk(p.passOutYear, currentYear)
      && PercentageOk(p.cgpaOrPercentage)
      && OneOf(p.gender, Genders)
      && Checked(p.githubProfile, isUrl)
      && Checked(p.linkedInProfile, isUrl)
      && ExactlyThree(p.jobPreferredCountries)
      && ExactlyThree(p.jobPreferredStates)
      && ExactlyThree(p.jobPreferredCities)
      && DateOfBirthOk(p.dateOfBirth)
  {
    if RegistrationValid(p, currentYear, isUrl) {
      assert RegistrationFieldOk(p, FirstName, currentYear, isUrl);
      assert RegistrationFieldOk(p, LastName, currentYear, isUrl);
      assert RegistrationFieldOk(p, CollegeName, currentYear, isUrl);
      assert RegistrationFieldOk(p, Specialization, currentYear, isUrl);
      assert RegistrationFieldOk(p, Course, currentYear, isUrl);
      assert RegistrationFieldOk(p, Branch, currentYear, isUrl);
      assert RegistrationFieldOk(p, PassOutYear, currentYear, isUrl);
      assert RegistrationFieldOk(p, CgpaOrPercentage, currentYear, isUrl);
      assert RegistrationFieldOk(p, Gender, currentYear, isUrl);
      assert RegistrationFieldOk(p, GithubProfile, currentYear, isUrl);
      assert RegistrationFieldOk(p, LinkedInProfile, currentYear, isUrl);
      assert RegistrationFieldOk(p, JobPreferredCountries, currentYear, isUrl);
      assert RegistrationFieldOk(p, JobPreferredStates, currentYear, isUrl);
      assert RegistrationFieldOk(p, JobPreferredCities, currentYear, isUrl);
      assert RegistrationFieldOk(p, DateOfBirth, currentYear, isUrl);
    }
  }

  /** The converse of `RegistrationValidFields`, kept apart to keep each proof small. */
  lemma RegistrationFieldsValid(p: Registration, currentYear: int, isUrl: string -> bool)
    requires LengthBetween(p.firstName, 3, 20)
    requires LengthBetween(p.lastName, 3, 20)
    requires LengthBetween(p.collegeName, 5, 50)
    requires OneOf(p.specialization, Specializations)
    requires Present(p.course)
    requires Present(p.branch)
    requires PassOutYearOk(p.passOutYear, currentYear)
    requires PercentageOk(p.cgpaOrPercentage)
    requires OneOf(p.gender, Genders)
    requires Checked(p.githubProfile, isUrl)
    requires Checked(p.linkedInProfile, isUrl)
    requires ExactlyThree(p.jobPreferredCountries)
    requires ExactlyThree(p.jobPreferredStates)
    requires ExactlyThree(p.jobPreferredCities)
    requires DateOfBirthOk(p.dateOfBirth)
    ensures RegistrationValid(p, currentYear, isUrl)
  {
  }

  // ---- userResumeDetailsSchema ----

  predicate PersonalInformationOk(f: Field<PersonalInformation>, isUrl: string -> bool) {
    f.Given? && OptionalChecked(f.value.photo, isUrl)
  }

  predicate AddressOk(f: Field<Address>) {
    && f.Given?
    && OptionalPresent(f.value.addressLine)
    && NonEmpty(f.value.country)
    && NonEmpty(f.value.state)
    && NonEmpty(f.value.city)
    && OptionalChecked(f.value.pincode, PincodeShape)
  }

  predicate BasicInformationOk(f: Field<BasicInformation>, isUrl: string -> bool, isEmail: string -> bool) {
    && f.Given?
    && NonEmpty(f.value.firstName)
    && OptionalPresent(f.value.middleName)
    && NonEmpty(f.value.lastName)
    && (f.value.currentDesignation.Absent? || NonEmpty(f.value.currentDesignation))
    && AddressOk(f.value.address)
    && Checked(f.value.email, isEmail)
    && Checked(f.value.mobile, MobileShape)
    && OptionalChecked(f.value.linkedIn, isUrl)
    && OptionalChecked(f.value.github, isUrl)
  }

  predicate SummaryOk(f: Field<Summary>) {
    f.Given? && NonEmpty(f.value.summary)
  }

  predicate SscOk(f: Field<Ssc>) {
    && f.Given?
    && NonEmpty(f.value.institutionName)
    && NonEmpty(f.value.boardName)
    && OptionalPresent(f.value.specialization)
    && NonEmpty(f.value.state)
    && NonEmpty(f.value.city)
    && Present(f.value.startDate)
    && Present(f.value.endDate)
    && OptionalPresent(f.value.mathScore)
    && OptionalPresent(f.value.physicsScore)
    && OptionalPresent(f.value.chemistryScore)
  }

  /** `stream: z.literal("MPC")`: no other stream is accepted. */
  predicate Grades11And12Ok(f: Field<Grades11And12>) {
    && f.Given?
    && f.value.stream == Given("MPC")
    && NonEmpty(f.value.institutionName)
    && NonEmpty(f.value.boardName)
    && NonEmpty(f.value.state)
    && NonEmpty(f.value.city)
    && Present(f.value.startDate)
    && Present(f.value.endDate)
    && OptionalPresent(f.value.mathScore)
    && OptionalPresent(f.value.physicsScore)
    && OptionalPresent(f.value.chemistryScore)
  }

  predicate UnderGraduationOk(f: Field<UnderGraduation>) {
    || f.Absent?
    || (&& f.Given?
        && OptionalPresent(f.value.institutionName)
        && OptionalPresent(f.value.university)
        && OptionalPresent(f.value.specialization)
        && OptionalPresent(f.value.startDate)
        && OptionalPresent(f.value.endDate)
        && OptionalPresent(f.value.state)
        && OptionalPresent(f.value.city)
        && OptionalPresent(f.value.cgpa))
  }

  predicate GraduationOk(f: Field<Graduation>) {
    || f.Absent?
    || (&& f.Given?
        && OptionalPresent(f.value.institutionName)
        && OptionalPresent(f.value.university)
        && OptionalPresent(f.value.specialization)
        && OptionalPresent(f.value.state)
        && OptionalPresent(f.value.startDate)
        && OptionalPresent(f.value.endDate)
        && OptionalPresent(f.value.city)
        && OptionalPresent(f.value.cgpa)
        && OptionalPresent(f.value.ongoing))
  }

  predicate EducationOk(f: Field<Education>) {
    && f.Given?
    && SscOk(f.value.ssc)
    && Grades11And12Ok(f.value.grades11And12)
    && UnderGraduationOk(f.value.underGraduation)
    && GraduationOk(f.value.graduation)
  }

  predicate CertificationOk(c: Certification) {
    && NonEmpty(c.certificationName)
    && OptionalPresent(c.certificationId)
    && OptionalPresent(c.institute)
    && OptionalChecked(c.year, YearShape)
  }

  predicate InternshipOk(i: Internship) {
    && NonEmpty(i.title)
    && OptionalPresent(i.organization)
    && OptionalPresent(i.location)
    && OptionalPresent(i.startDate)
    && OptionalPresent(i.endDate)
    && (i.paid.Absent? || OneOf(i.paid, PaidOptions))
    && OptionalPresent(i.ongoing)
    && OptionalPresent(i.description)
  }

  predicate ProjectOk(pr: Project, isUrl: string -> bool) {
    && NonEmpty(pr.name)
    && OptionalPresent(pr.client)
    && OptionalPresent(pr.startDate)
    && OptionalPresent(pr.endDate)
    && OptionalChecked(pr.link, isUrl)
    && OptionalPresent(pr.attachments)
  }

  predicate CertificationsOk(f: Field<seq<Certification>>) {
    f.Absent? || (f.Given? && forall i :: 0 <= i < |f.value| ==> CertificationOk(f.value[i]))
  }

  predicate InternshipsOk(f: Field<seq<Internship>>) {
    f.Absent? || (f.Given? && forall i :: 0 <= i < |f.value| ==> InternshipOk(f.value[i]))
  }

  predicate ProjectsOk(f: Field<seq<Project>>, isUrl: string -> bool) {
    f.Absent? || (f.Given? && forall i :: 0 <= i < |f.value| ==> ProjectOk(f.value[i], isUrl))
  }

  /** `z.array(z.string().min(1)).max(6).optional()` */
  predicate ShortListOk(f: Field<seq<string>>) {
    f.Absent? || (f.Given? && |f.value| <= 6 && forall i :: 0 <= i < |f.value| ==> |f.value[i]| >= 1)
  }

  /** The resume-details body passes `userResumeDetailsSchema`. */
  predicate ResumeDetailsValid(p: ResumeDetails, isUrl: string -> bool, isEmail: string -> bool) {
    && PersonalInformationOk(p.personalInformation, isUrl)
    && BasicInformationOk(p.basicInformation, isUrl, isEmail)
    && SummaryOk(p.summary)
    && EducationOk(p.education)
    && CertificationsOk(p.certifications)
    && InternshipsOk(p.internships)
    && ProjectsOk(p.projects, isUrl)
    && ShortListOk(p.skills)
    && ShortListOk(p.domainKnowledge)
    && ShortListOk(p.achievements)
  }

  // ---- properties of the request layer ----

  /** firstName and lastName take 3 to 20 characters, collegeName 5 to 50. */
  lemma NameLengths(p: Registration, currentYear: int, isUrl: string -> bool)
    ensures FirstName !in RegistrationIssues(p, currentYear, isUrl)
        <==> p.firstName.Given? && 3 <= |p.firstName.value| <= 20
    ensures LastName !in RegistrationIssues(p, currentYear, isUrl)
        <==> p.lastName.Given? && 3 <= |p.lastName.value| <= 20
    ensures CollegeName !in RegistrationIssues(p, currentYear, isUrl)
        <==> p.collegeName.Given? && 5 <= |p.collegeName.value| <= 50
  {
  }

  /** 1900 and currentYear + 10 pass, 1899, currentYear + 11 and a fraction do not. */
  lemma PassOutYearBoundaries(currentYear: int)
    requires currentYear >= 1890
    ensures PassOutYearOk(Given(1900.0), currentYear)
    ensures PassOutYearOk(Given((currentYear + 10) as real), currentYear)
    ensures !PassOutYearOk(Given(1899.0), currentYear)
    ensures !PassOutYearOk(Given((currentYear + 11) as real), currentYear)
    ensures !PassOutYearOk(Given(1999.5), currentYear)
    ensures !PassOutYearOk(Absent, currentYear) && !PassOutYearOk(Null, currentYear)
  {
  }

  /**
   * passOutYear is reported exactly when it is not a whole number within
   * [1900, currentYear + 10]; and in an otherwise accepted body, the year
   * alone decides whether the body is still accepted.
   */
  lemma PassOutYearRange(p: Registration, v: real, currentYear: int, isUrl: string -> bool)
    ensures PassOutYear !in RegistrationIssues(p, currentYear, isUrl)
        <==> p.passOutYear.Given? && p.passOutYear.value.Floor as real == p.passOutYear.value
             && 1900 <= p.passOutYear.value.Floor <= currentYear + 10
    ensures RegistrationValid(p, currentYear, isUrl)
        ==> (RegistrationValid(p.(passOutYear := Given(v)), currentYear, isUrl)
             <==> v.Floor as real == v && 1900 <= v.Floor <= currentYear + 10)
  {
    var q := p.(passOutYear := Given(v));
    if RegistrationValid(q, currentYear, isUrl) {
      assert RegistrationFieldOk(q, PassOutYear, currentYear, isUrl);
    }
    if RegistrationValid(p, currentYear, isUrl) && v.Floor as real == v && 1900 <= v.Floor <= currentYear + 10 {
      forall path ensures RegistrationFieldOk(q, path, currentYear, isUrl) {
        assert RegistrationFieldOk(p, path, currentYear, isUrl);
      }
    }
  }

  /**
   * cgpaOrPercentage is reported exactly when it is missing, null or outside
   * [0, 100]; in an otherwise accepted body it alone decides acceptance.
   */
  lemma PercentageRange(p: Registration, v: real, currentYear: int, isUrl: string -> bool)
    ensures CgpaOrPercentage !in RegistrationIssues(p, currentYear, isUrl)
        <==> p.cgpaOrPercentage.Given? && 0.0 <= p.cgpaOrPercentage.value <= 100.0
    ensures RegistrationValid(p, currentYear, isUrl)
        ==> (RegistrationValid(p.(cgpaOrPercentage := Given(v)), currentYear, isUrl) <==> 0.0 <= v <= 100.0)
  {
    var q := p.(cgpaOrPercentage := Given(v));
    if RegistrationValid(q, currentYear, isUrl) {
      assert RegistrationFieldOk(q, CgpaOrPercentage, currentYear, isUrl);
    }
    if RegistrationValid(p, currentYear, isUrl) && 0.0 <= v <= 100.0 {
      forall path ensures RegistrationFieldOk(q, path, currentYear, isUrl) {
        assert RegistrationFieldOk(p, path, currentYear, isUrl);
      }
    }
  }

  /**
   * Each preferred-location list is reported exactly when it is null or
   * sent with other than three entries; leaving it out is accepted.
   */
  lemma PreferredLocationCounts(p: Registration, currentYear: int, isUrl: string -> bool)
    ensures JobPreferredCountries !in RegistrationIssues(p, currentYear, isUrl)
        <==> p.jobPreferredCountries.Absent?
             || (p.jobPreferredCountries.Given? && |p.jobPreferredCountries.value| == 3)
    ensures JobPreferredStates !in RegistrationIssues(p, currentYear, isUrl)
        <==> p.jobPreferredStates.Absent?
             || (p.jobPreferredStates.Given? && |p.jobPreferredStates.value| == 3)
    ensures JobPreferredCities !in RegistrationIssues(p, currentYear, isUrl)
        <==> p.jobPreferredCities.Absent?
             || (p.jobPreferredCities.Given? && |p.jobPreferredCities.value| == 3)
  {
  }

  /** The date-of-birth rule against the regex literal; month and day are not range-checked. */
  lemma DateOfBirthRule(f: Field<string>)
    ensures DateOfBirthOk(f)
        <==> f.Absent? || (f.Given? && (f.value == [] || Regex.Matches(DatePattern, f.value)))
    ensures DateOfBirthOk(Given("2001-13-45"))
    ensures !DateOfBirthOk(Given("2001-1-5"))
  {
    if f.Given? {
      DatePatternMatches(f.value);
    }
    assert "2001-1-5"[6] == '-';
  }

  /** pincode, mobile and certification year against their regex literals. */
  lemma DigitRules(f: Field<string>)
    ensures OptionalChecked(f, PincodeShape)
        <==> f.Absent? || (f.Given? && Regex.Matches(PincodePattern, f.value))
    ensures Checked(f, MobileShape) <==> f.Given? && Regex.Matches(MobilePattern, f.value)
    ensures OptionalChecked(f, YearShape)
        <==> f.Absent? || (f.Given? && Regex.Matches(YearPattern, f.value))
  {
    if f.Given? {
      PincodePatternMatches(f.value);
      MobilePatternMatches(f.value);
      YearPatternMatches(f.value);
    }
  }

  /** An empty pincode is not "absent" to zod: the regex rejects it. */
  lemma EmptyPincodeRejected()
    ensures !OptionalChecked(Given(""), PincodeShape)
    ensures OptionalChecked(Absent, PincodeShape)
  {
  }

  /**
   * Only the "MPC" stream is accepted for 11th and 12th grade: an accepted
   * block stays accepted with any stream exactly when that stream is "MPC".
   */
  lemma StreamIsMpc(g: Grades11And12, s: Field<string>)
    ensures Grades11And12Ok(Given(g)) ==> g.stream == Given("MPC")
    ensures Grades11And12Ok(Given(g)) ==> (Grades11And12Ok(Given(g.(stream := s))) <==> s == Given("MPC"))
    ensures !Grades11And12Ok(Given(g.(stream := Given("PCM"))))
  {
  }

  /** The two degree blocks may be left out entirely. */
  lemma DegreesOptional(e: Education)
    ensures EducationOk(Given(e))
        ==> EducationOk(Given(e.(underGraduation := Absent, graduation := Absent)))
  {
  }

  /**
   * skills, domainKnowledge and achievements: in an otherwise accepted body,
   * a list keeps the body accepted exactly when it is left out or holds at
   * most six non-empty strings.
   */
  lemma ShortListRule(p: ResumeDetails, isUrl: string -> bool, isEmail: string -> bool, f: Field<seq<string>>)
    requires ResumeDetailsValid(p, isUrl, isEmail)
    ensures ResumeDetailsValid(p.(skills := f), isUrl, isEmail)
        <==> f.Absent? || (f.Given? && |f.value| <= 6 && forall i :: 0 <= i < |f.value| ==> f.value[i] != [])
    ensures ResumeDetailsValid(p.(domainKnowledge := f), isUrl, isEmail)
        <==> f.Absent? || (f.Given? && |f.value| <= 6 && forall i :: 0 <= i < |f.value| ==> f.value[i] != [])
    ensures ResumeDetailsValid(p.(achievements := f), isUrl, isEmail)
        <==> f.Absent? || (f.Given? && |f.value| <= 6 && forall i :: 0 <= i < |f.value| ==> f.value[i] != [])
  {
  }
}
