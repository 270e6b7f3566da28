/**
 * How the two validation layers relate. A body first passes the zod
 * request schema, then the mongoose model when it is saved; the lemmas here
 * say exactly which request-valid bodies the storage layer still refuses,
 * and which bodies each layer treats differently.
 */
module CrossLayer {
  import opened Payloads
  import opened Patterns
  import opened StorageRules
  import RequestSchema
  import UserModel
  import ResumeDetailsModel

  // ---- registration ----

  /**
   * A registration that passed the request schema is stored exactly when its
   * course and branch are non-empty, listed in the course table (when the
   * table has any course), and its year is in the storage range, provided
   * the URL check refuses the empty string.
   */
  lemma RegistrationGap(p: Registration, table: UserModel.CourseTable, currentYear: int, isUrl: string -> bool)
    requires RequestSchema.RegistrationValid(p, currentYear, isUrl)
    requires !isUrl("")
    ensures p.course.Given? && p.branch.Given? && p.passOutYear.Given?
    ensures UserModel.UserValid(p, table, currentYear)
        <==> && p.course.value != [] && p.branch.value != []
             && (table != map[] ==> p.course.value in table && p.branch.value in table[p.course.value])
             && 1990.0 <= p.passOutYear.value <= (currentYear + 5) as real
  {
    RequestSchema.RegistrationValidFields(p, currentYear, isUrl);
    if UserModel.UserValid(p, table, currentYear) {
      UserModel.UserValidFields(p, table, currentYear);
    }
    if && p.course.value != [] && p.branch.value != []
       && (table != map[] ==> p.course.value in table && p.branch.value in table[p.course.value])
       && 1990.0 <= p.passOutYear.value <= (currentYear + 5) as real
    {
      UserModel.UserFieldsValid(p, table, currentYear);
    }
  }

  /** The request schema reads no course table: any course and branch strings pass it. */
  lemma RequestHasNoBranchRule(p: Registration, currentYear: int, isUrl: string -> bool, c: string, b: string)
    requires RequestSchema.RegistrationValid(p, currentYear, isUrl)
    ensures RequestSchema.RegistrationValid(p.(course := Given(c), branch := Given(b)), currentYear, isUrl)
  {
    var q := p.(course := Given(c), branch := Given(b));
    RequestSchema.RegistrationValidFields(p, currentYear, isUrl);
    RequestSchema.RegistrationFieldsValid(q, currentYear, isUrl);
  }

  /** So a branch from the wrong course passes the request layer and fails at storage, on branch alone. */
  lemma WrongBranchReachesStorage(p: Registration, table: UserModel.CourseTable, currentYear: int,
                                  isUrl: string -> bool, b: string)
    requires RequestSchema.RegistrationValid(p, currentYear, isUrl)
    requires UserModel.UserValid(p, table, currentYear)
    requires p.course.Given? && p.course.value in table
    requires b != [] && b !in table[p.course.value]
    ensures RequestSchema.RegistrationIssues(p.(branch := Given(b)), currentYear, isUrl) == {}
    ensures UserModel.UserIssues(p.(branch := Given(b)), table, currentYear) == {Branch}
  {
    RequestHasNoBranchRule(p, currentYear, isUrl, p.course.value, b);
    assert p.(course := Given(p.course.value), branch := Given(b)) == p.(branch := Given(b));
    UserModel.UnlistedBranchFailsAlone(p, table, currentYear, b);
  }

  /** A whole-number year the storage layer accepts is accepted by the request layer too. */
  lemma StorageYearsAreRequestYears(v: real, currentYear: int)
    requires v.Floor as real == v
    requires 1990.0 <= v <= (currentYear + 5) as real
    ensures RequestSchema.PassOutYearOk(Given(v), currentYear)
  {
  }

  /** The converse fails at both ends, and storage alone accepts a fractional year. */
  lemma YearRangesDiffer(p: Registration, table: UserModel.CourseTable, currentYear: int, isUrl: string -> bool)
    requires currentYear >= 1990
    ensures RequestSchema.PassOutYearOk(Given(1900.0), currentYear)
    ensures PassOutYear in UserModel.UserIssues(p.(passOutYear := Given(1900.0)), table, currentYear)
    ensures RequestSchema.PassOutYearOk(Given((currentYear + 10) as real), currentYear)
    ensures PassOutYear in UserModel.UserIssues(p.(passOutYear := Given((currentYear + 10) as real)), table, currentYear)
    ensures !RequestSchema.PassOutYearOk(Given(1990.5), currentYear)
    ensures PassOutYear !in UserModel.UserIssues(p.(passOutYear := Given(1990.5)), table, currentYear)
  {
  }

  /** cgpaOrPercentage is bounded by the request layer only. */
  lemma PercentageBoundOnlyAtRequest(p: Registration, table: UserModel.CourseTable, currentYear: int)
    ensures !RequestSchema.PercentageOk(Given(150.0))
    ensures CgpaOrPercentage !in UserModel.UserIssues(p.(cgpaOrPercentage := Given(150.0)), table, currentYear)
  {
  }

  /** Exactly three preferred places satisfy every storage cap (3, 3 and 6). */
  lemma ThreePlacesFitStorage(f: Field<seq<string>>)
    requires RequestSchema.ExactlyThree(f)
    ensures AtMost(f, 3) && AtMost(f, 6)
  {
  }

  // ---- resume details ----

  /**
   * Resume details that passed the request schema are stored exactly when
   * a designation was sent and the photo, email, profile and project links
   * meet the storage patterns, which are narrower than zod's URL and email
   * checks.
   */
  lemma ResumeGap(p: ResumeDetails, isUrl: string -> bool, isEmail: string -> bool)
    requires RequestSchema.ResumeDetailsValid(p, isUrl, isEmail)
    ensures p.basicInformation.Given? && p.basicInformation.value.email.Given?
    ensures ResumeDetailsModel.ResumeStored(p)
        <==> && p.basicInformation.value.currentDesignation.Given?
             && Matching(ResumeDetailsModel.PersonalOf(p).photo, PhotoShape)
             && EmailShape(p.basicInformation.value.email.value)
             && Matching(p.basicInformation.value.linkedIn, LinkedInShape)
             && Matching(p.basicInformation.value.github, GithubShape)
             && (p.projects.Given? ==>
                   forall k :: 0 <= k < |p.projects.value| ==> Matching(p.projects.value[k].link, LinkShape))
  {
  }

  /** A designation is optional in the request and required in storage. */
  lemma DesignationGap(p: ResumeDetails, isUrl: string -> bool, isEmail: string -> bool)
    requires RequestSchema.ResumeDetailsValid(p, isUrl, isEmail)
    ensures RequestSchema.ResumeDetailsValid(
      p.(basicInformation := Given(p.basicInformation.value.(currentDesignation := Absent))), isUrl, isEmail)
    ensures !ResumeDetailsModel.ResumeStored(
      p.(basicInformation := Given(p.basicInformation.value.(currentDesignation := Absent))))
  {
  }

  /** An empty pincode is refused by the request's regex and passed by mongoose's `match`. */
  lemma EmptyPincodeGap(a: Address)
    ensures !RequestSchema.AddressOk(Given(a.(pincode := Given(""))))
    ensures ResumeDetailsModel.AddressStored(a.(pincode := Given("")))
        <==> ResumeDetailsModel.AddressStored(a.(pincode := Absent))
  {
  }

  /** An explicit null for an optional member is a zod type error, and mongoose stores it. */
  lemma NullOptionalGap(p: ResumeDetails, isUrl: string -> bool, isEmail: string -> bool)
    requires p.basicInformation.Given?
    ensures !RequestSchema.ResumeDetailsValid(
      p.(basicInformation := Given(p.basicInformation.value.(middleName := Null))), isUrl, isEmail)
    ensures ResumeDetailsModel.ResumeStored(
      p.(basicInformation := Given(p.basicInformation.value.(middleName := Null))))
        <==> ResumeDetailsModel.ResumeStored(p)
  {
  }

  /** The request's list rules are at least as strict as the storage caps. */
  lemma ShortListsFitStorage(f: Field<seq<string>>)
    requires RequestSchema.ShortListOk(f)
    ensures AtMost(f, 6)
  {
  }
}
