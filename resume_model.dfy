/**
 * The storage-layer rules for resume details, from
 * src/db/models/userResumeDetails.ts: the mongoose `resumeDetailsSchema`.
 * Its nested objects are nested paths, not subdocuments: a missing parent
 * object leaves every path under it missing, and each leaf is validated on
 * its own. Paths with `default: null` are stored as null when missing;
 * the schema has no `education` path, so strict mode drops it.
 */
module ResumeDetailsModel {
  import opened Payloads
  import opened Patterns
  import opened StorageRules
  import Regex

  const PaidOptions: set<string> := {"paid", "unpaid"}

  // ---- nested paths ----

  const NoPersonalInformation: PersonalInformation := PersonalInformation(Absent)
  const NoAddress: Address := Address(Absent, Absent, Absent, Absent, Absent)
  const NoBasicInformation: BasicInformation :=
    BasicInformation(Absent, Absent, Absent, Absent, Absent, Absent, Absent, Absent, Absent)
  const NoSummary: Summary := Summary(Absent)

  /** The leaves under `personalInformation`, all missing when the object is. */
  function PersonalOf(p: ResumeDetails): PersonalInformation {
    if p.personalInformation.Given? then p.personalInformation.value else NoPersonalInformation
  }

  function BasicOf(p: ResumeDetails): BasicInformation {
    if p.basicInformation.Given? then p.basicInformation.value else NoBasicInformation
  }

  function AddressOf(b: BasicInformation): Address {
    if b.address.Given? then b.address.value else NoAddress
  }

  function SummaryOf(p: ResumeDetails): Summary {
    if p.summary.Given? then p.summary.value else NoSummary
  }

  // ---- validators ----

  predicate AddressStored(a: Address) {
    && RequiredString(a.country)
    && RequiredString(a.state)
    && RequiredString(a.city)
    && Matching(a.pincode, PincodeShape)
  }

  predicate BasicStored(b: BasicInformation) {
    && RequiredString(b.firstName)
    && RequiredString(b.lastName)
    && RequiredString(b.currentDesignation)
    && AddressStored(AddressOf(b))
    && RequiredString(b.email) && Matching(b.email, EmailShape)
    && RequiredString(b.mobile) && Matching(b.mobile, MobileShape)
    && Matching(b.linkedIn, LinkedInShape)
    && Matching(b.github, GithubShape)
  }

  predicate CertificationStored(c: Certification) {
    RequiredString(c.certificationName) && Matching(c.year, YearShape)
  }

  predicate InternshipStored(i: Internship) {
    RequiredString(i.title) && InEnum(i.paid, PaidOptions)
  }

  predicate ProjectStored(pr: Project) {
    RequiredString(pr.name) && Matching(pr.link, LinkShape)
  }

  predicate CertificationsStored(f: Field<seq<Certification>>) {
    !f.Given? || forall k :: 0 <= k < |f.value| ==> CertificationStored(f.value[k])
  }

  predicate InternshipsStored(f: Field<seq<Internship>>) {
    !f.Given? || forall k :: 0 <= k < |f.value| ==> InternshipStored(f.value[k])
  }

  predicate ProjectsStored(f: Field<seq<Project>>) {
    !f.Given? || forall k :: 0 <= k < |f.value| ==> ProjectStored(f.value[k])
  }

  /** The document passes `resumeDetailsSchema`'s validation. */
  predicate ResumeStored(p: ResumeDetails) {
    && Matching(PersonalOf(p).photo, PhotoShape)
    && BasicStored(BasicOf(p))
    && RequiredString(SummaryOf(p).summary)
    && CertificationsStored(p.certifications)
    && InternshipsStored(p.internships)
    && ProjectsStored(p.projects)
    && AtMost(p.skills, 6)
    && AtMost(p.domainKnowledge, 6)
    && AtMost(p.achievements, 6)
  }

  // ---- defaults ----

  function AddressDefaults(a: Address): Address {
    a.(addressLine := OrNull(a.addressLine), pincode := OrNull(a.pincode))
  }

  function BasicDefaults(b: BasicInformation): BasicInformation {
    b.(middleName := OrNull(b.middleName),
       address := Given(AddressDefaults(AddressOf(b))),
       linkedIn := OrNull(b.linkedIn),
       github := OrNull(b.github))
  }

  function CertificationDefaults(c: Certification): Certification {
    c.(certificationId := OrNull(c.certificationId), institute := OrNull(c.institute), year := OrNull(c.year))
  }

  function InternshipDefaults(i: Internship): Internship {
    i.(organization := OrNull(i.organization), location := OrNull(i.location),
       startDate := OrNull(i.startDate), endDate := OrNull(i.endDate),
       paid := OrNull(i.paid), ongoing := OrNull(i.ongoing), description := OrNull(i.description))
  }

  function ProjectDefaults(pr: Project): Project {
    pr.(client := OrNull(pr.client), startDate := OrNull(pr.startDate), endDate := OrNull(pr.endDate),
        link := OrNull(pr.link), attachments := OrNull(pr.attachments))
  }

  /** An array of subdocuments: missing becomes `[]`, each element gets its own defaults. */
  function DefaultEach<T>(f: Field<seq<T>>, fill: T -> T): Field<seq<T>> {
    match f
    case Absent => Given([])
    case Null => Null
    case Given(items) => Given(seq(|items|, k requires 0 <= k < |items| => fill(items[k])))
  }

  lemma DefaultEachElements<T>(f: Field<seq<T>>, fill: T -> T)
    ensures f.Absent? ==> DefaultEach(f, fill) == Given([])
    ensures f.Null? ==> DefaultEach(f, fill).Null?
    ensures f.Given? ==> && DefaultEach(f, fill).Given?
                         && |DefaultEach(f, fill).value| == |f.value|
                         && forall k :: 0 <= k < |f.value| ==> DefaultEach(f, fill).value[k] == fill(f.value[k])
  {
  }

  /** An array of strings: missing becomes `[]`. */
  function DefaultList(f: Field<seq<string>>): Field<seq<string>> {
    if f.Absent? then Given([]) else f
  }

  /** A path with a default is never left missing. */
  predicate Filled<T>(f: Field<T>) {
    !f.Absent?
  }

  predicate CertificationFilled(c: Certification) {
    Filled(c.certificationId) && Filled(c.institute) && Filled(c.year)
  }

  predicate InternshipFilled(i: Internship) {
    && Filled(i.organization) && Filled(i.location) && Filled(i.startDate) && Filled(i.endDate)
    && Filled(i.paid) && Filled(i.ongoing) && Filled(i.description)
  }

  predicate ProjectFilled(pr: Project) {
    Filled(pr.client) && Filled(pr.startDate) && Filled(pr.endDate) && Filled(pr.link) && Filled(pr.attachments)
  }

  /** Every path that has a default carries a value or null, and the nested objects exist. */
  predicate Defaulted(r: ResumeDetails) {
    && r.personalInformation.Given? && Filled(r.personalInformation.value.photo)
    && r.basicInformation.Given?
    && Filled(r.basicInformation.value.middleName)
    && Filled(r.basicInformation.value.linkedIn)
    && Filled(r.basicInformation.value.github)
    && r.basicInformation.value.address.Given?
    && Filled(r.basicInformation.value.address.value.addressLine)
    && Filled(r.basicInformation.value.address.value.pincode)
    && r.summary.Given?
    && Filled(r.certifications)
    && (r.certifications.Given? ==>
          forall k :: 0 <= k < |r.certifications.value| ==> CertificationFilled(r.certifications.value[k]))
    && Filled(r.internships)
    && (r.internships.Given? ==>
          forall k :: 0 <= k < |r.internships.value| ==> InternshipFilled(r.internships.value[k]))
    && Filled(r.projects)
    && (r.projects.Given? ==>
          forall k :: 0 <= k < |r.projects.value| ==> ProjectFilled(r.projects.value[k]))
    && Filled(r.skills) && Filled(r.domainKnowledge) && Filled(r.achievements)
  }

  /** A value or null that was sent is kept as it is. */
  predicate Keeps<T(==)>(sent: Field<T>, stored: Field<T>) {
    !sent.Absent? ==> stored == sent
  }

  predicate AddressAgrees(a: Address, b: Address) {
    && Keeps(a.addressLine, b.addressLine)
    && a.country == b.country && a.state == b.state && a.city == b.city
    && Keeps(a.pincode, b.pincode)
  }

  predicate BasicAgrees(a: BasicInformation, b: BasicInformation) {
    && a.firstName == b.firstName
    && Keeps(a.middleName, b.middleName)
    && a.lastName == b.lastName
    && a.currentDesignation == b.currentDesignation
    && AddressAgrees(AddressOf(a), AddressOf(b))
    && a.email == b.email
    && a.mobile == b.mobile
    && Keeps(a.linkedIn, b.linkedIn)
    && Keeps(a.github, b.github)
  }

  predicate CertificationAgrees(a: Certification, b: Certification) {
    && a.certificationName == b.certificationName
    && Keeps(a.certificationId, b.certificationId)
    && Keeps(a.institute, b.institute)
    && Keeps(a.year, b.year)
  }

  predicate InternshipAgrees(a: Internship, b: Internship) {
    && a.title == b.title
    && Keeps(a.organization, b.organization) && Keeps(a.location, b.location)
    && Keeps(a.startDate, b.startDate) && Keeps(a.endDate, b.endDate)
    && Keeps(a.paid, b.paid) && Keeps(a.ongoing, b.ongoing) && Keeps(a.description, b.description)
  }

  predicate ProjectAgrees(a: Project, b: Project) {
    && a.name == b.name
    && Keeps(a.client, b.client) && Keeps(a.startDate, b.startDate) && Keeps(a.endDate, b.endDate)
    && Keeps(a.link, b.link) && Keeps(a.attachments, b.attachments)
  }

  predicate CertificationsAgree(a: Field<seq<Certification>>, b: Field<seq<Certification>>) {
    && (a.Null? ==> b.Null?)
    && (a.Given? ==>
          && b.Given? && |b.value| == |a.value|
          && forall k :: 0 <= k < |a.value| ==> CertificationAgrees(a.value[k], b.value[k]))
  }

  predicate InternshipsAgree(a: Field<seq<Internship>>, b: Field<seq<Internship>>) {
    && (a.Null? ==> b.Null?)
    && (a.Given? ==>
          && b.Given? && |b.value| == |a.value|
          && forall k :: 0 <= k < |a.value| ==> InternshipAgrees(a.value[k], b.value[k]))
  }

  predicate ProjectsAgree(a: Field<seq<Project>>, b: Field<seq<Project>>) {
    && (a.Null? ==> b.Null?)
    && (a.Given? ==>
          && b.Given? && |b.value| == |a.value|
          && forall k :: 0 <= k < |a.value| ==> ProjectAgrees(a.value[k], b.value[k]))
  }

  /**
   * `stored` holds what `sent` holds: required paths are unchanged and a
   * path with a default keeps any value or null that was sent.
   */
  predicate Agrees(sent: ResumeDetails, stored: ResumeDetails) {
    && Keeps(PersonalOf(sent).photo, PersonalOf(stored).photo)
    && BasicAgrees(BasicOf(sent), BasicOf(stored))
    && SummaryOf(sent) == SummaryOf(stored)
    && CertificationsAgree(sent.certifications, stored.certifications)
    && InternshipsAgree(sent.internships, stored.internships)
    && ProjectsAgree(sent.projects, stored.projects)
    && Keeps(sent.skills, stored.skills)
    && Keeps(sent.domainKnowledge, stored.domainKnowledge)
    && Keeps(sent.achievements, stored.achievements)
  }

  /** `default: null`: a path left out is stored as an explicit null. */
  predicate NullIfMissing<T>(sent: Field<T>, stored: Field<T>) {
    sent.Absent? ==> stored == Null
  }

  /** An array path left out is stored as the empty array. */
  predicate EmptyIfMissing<T>(sent: Field<seq<T>>, stored: Field<seq<T>>) {
    sent.Absent? ==> stored == Given([])
  }

  predicate CertificationFills(a: Certification, b: Certification) {
    NullIfMissing(a.certificationId, b.certificationId) && NullIfMissing(a.institute, b.institute)
    && NullIfMissing(a.year, b.year)
  }

  predicate InternshipFills(a: Internship, b: Internship) {
    && NullIfMissing(a.organization, b.organization) && NullIfMissing(a.location, b.location)
    && NullIfMissing(a.startDate, b.startDate) && NullIfMissing(a.endDate, b.endDate)
    && NullIfMissing(a.paid, b.paid) && NullIfMissing(a.ongoing, b.ongoing)
    && NullIfMissing(a.description, b.description)
  }

  predicate ProjectFills(a: Project, b: Project) {
    && NullIfMissing(a.client, b.client) && NullIfMissing(a.startDate, b.startDate)
    && NullIfMissing(a.endDate, b.endDate) && NullIfMissing(a.link, b.link)
    && NullIfMissing(a.attachments, b.attachments)
  }

  predicate CertificationsFill(a: Field<seq<Certification>>, b: Field<seq<Certification>>) {
    && EmptyIfMissing(a, b)
    && (a.Given? ==>
          && b.Given? && |b.value| == |a.value|
          && forall k :: 0 <= k < |a.value| ==> CertificationFills(a.value[k], b.value[k]))
  }

  predicate InternshipsFill(a: Field<seq<Internship>>, b: Field<seq<Internship>>) {
    && EmptyIfMissing(a, b)
    && (a.Given? ==>
          && b.Given? && |b.value| == |a.value|
          && forall k :: 0 <= k < |a.value| ==> InternshipFills(a.value[k], b.value[k]))
  }

  predicate ProjectsFill(a: Field<seq<Project>>, b: Field<seq<Project>>) {
    && EmptyIfMissing(a, b)
    && (a.Given? ==>
          && b.Given? && |b.value| == |a.value|
          && forall k :: 0 <= k < |a.value| ==> ProjectFills(a.value[k], b.value[k]))
  }

  /**
   * Every path with `default: null` that `sent` leaves out (directly, or by
   * leaving out its parent object) is null in `stored`, every array path
   * left out is `[]`, and each sent subdocument's own defaulted paths are
   * filled the same way.
   */
  predicate Fills(sent: ResumeDetails, stored: ResumeDetails) {
    && stored.personalInformation.Given? && stored.basicInformation.Given?
    && stored.basicInformation.value.address.Given?
    && NullIfMissing(PersonalOf(sent).photo, stored.personalInformation.value.photo)
    && NullIfMissing(BasicOf(sent).middleName, stored.basicInformation.value.middleName)
    && NullIfMissing(BasicOf(sent).linkedIn, stored.basicInformation.value.linkedIn)
    && NullIfMissing(BasicOf(sent).github, stored.basicInformation.value.github)
    && NullIfMissing(AddressOf(BasicOf(sent)).addressLine, stored.basicInformation.value.address.value.addressLine)
    && NullIfMissing(AddressOf(BasicOf(sent)).pincode, stored.basicInformation.value.address.value.pincode)
    && CertificationsFill(sent.certifications, stored.certifications)
    && InternshipsFill(sent.internships, stored.internships)
    && ProjectsFill(sent.projects, stored.projects)
    && EmptyIfMissing(sent.skills, stored.skills)
    && EmptyIfMissing(sent.domainKnowledge, stored.domainKnowledge)
    && EmptyIfMissing(sent.achievements, stored.achievements)
  }

  /**
   * The document mongoose builds from a body: defaults applied, nested
   * objects materialised and `education` dropped.
   * `Defaulted(r)` is a corollary of `Fills(p, r)` and `WithDefaultsAgrees`,
   * stated on its own for callers that only hold the stored document.
   */
  function WithDefaults(p: ResumeDetails): (r: ResumeDetails)
    ensures Defaulted(r)
    ensures Fills(p, r)
    ensures r.education.Absent?
  {
    DefaultEachElements(p.certifications, CertificationDefaults);
    DefaultEachElements(p.internships, InternshipDefaults);
    DefaultEachElements(p.projects, ProjectDefaults);
    CertificationDefaultsFill(p.certifications);
    InternshipDefaultsFill(p.internships);
    ProjectDefaultsFill(p.projects);
    ResumeDetails(
      personalInformation := Given(PersonalInformation(OrNull(PersonalOf(p).photo))),
      basicInformation := Given(BasicDefaults(BasicOf(p))),
      summary := Given(SummaryOf(p)),
      education := Absent,
      certifications := DefaultEach(p.certifications, CertificationDefaults),
      internships := DefaultEach(p.internships, InternshipDefaults),
      projects := DefaultEach(p.projects, ProjectDefaults),
      skills := DefaultList(p.skills),
      domainKnowledge := DefaultList(p.domainKnowledge),
      achievements := DefaultList(p.achievements))
  }

  lemma CertificationDefaultsFill(f: Field<seq<Certification>>)
    ensures CertificationsFill(f, DefaultEach(f, CertificationDefaults))
  {
    DefaultEachElements(f, CertificationDefaults);
  }

  lemma InternshipDefaultsFill(f: Field<seq<Internship>>)
    ensures InternshipsFill(f, DefaultEach(f, InternshipDefaults))
  {
    DefaultEachElements(f, InternshipDefaults);
  }

  lemma ProjectDefaultsFill(f: Field<seq<Project>>)
    ensures ProjectsFill(f, DefaultEach(f, ProjectDefaults))
  {
    DefaultEachElements(f, ProjectDefaults);
  }

  /** Nothing that was sent is lost when the defaults are applied. */
  lemma WithDefaultsAgrees(p: ResumeDetails)
    ensures Agrees(p, WithDefaults(p))
  {
    DefaultEachElements(p.certifications, CertificationDefaults);
    DefaultEachElements(p.internships, InternshipDefaults);
    DefaultEachElements(p.projects, ProjectDefaults);
  }

  lemma CertificationDefaultsVerdict(f: Field<seq<Certification>>)
    ensures CertificationsStored(DefaultEach(f, CertificationDefaults)) <==> CertificationsStored(f)
  {
    DefaultEachElements(f, CertificationDefaults);
  }

  lemma InternshipDefaultsVerdict(f: Field<seq<Internship>>)
    ensures InternshipsStored(DefaultEach(f, InternshipDefaults)) <==> InternshipsStored(f)
  {
    DefaultEachElements(f, InternshipDefaults);
  }

  lemma ProjectDefaultsVerdict(f: Field<seq<Project>>)
    ensures ProjectsStored(DefaultEach(f, ProjectDefaults)) <==> ProjectsStored(f)
  {
    DefaultEachElements(f, ProjectDefaults);
  }

  /** Validation gives the same verdict on the body and on the document built from it. */
  lemma WithDefaultsKeepsVerdict(p: ResumeDetails)
    ensures ResumeStored(WithDefaults(p)) <==> ResumeStored(p)
  {
    CertificationDefaultsVerdict(p.certifications);
    InternshipDefaultsVerdict(p.internships);
    ProjectDefaultsVerdict(p.projects);
  }

  // ---- properties of the storage layer ----

  /** Applying the defaults a second time changes nothing. */
  lemma WithDefaultsIdempotent(p: ResumeDetails)
    ensures WithDefaults(WithDefaults(p)) == WithDefaults(p)
  {
    var r := WithDefaults(p);
    DefaultEachElements(r.certifications, CertificationDefaults);
    DefaultEachElements(r.internships, InternshipDefaults);
    DefaultEachElements(r.projects, ProjectDefaults);
    if r.certifications.Given? {
      assert DefaultEach(r.certifications, CertificationDefaults).value == r.certifications.value;
    }
    if r.internships.Given? {
      assert DefaultEach(r.internships, InternshipDefaults).value == r.internships.value;
    }
    if r.projects.Given? {
      assert DefaultEach(r.projects, ProjectDefaults).value == r.projects.value;
    }
  }

  /** The storage schema has no `education` path: whatever is sent there has no effect. */
  lemma EducationIgnored(p: ResumeDetails, e: Field<Education>)
    ensures ResumeStored(p.(education := e)) <==> ResumeStored(p)
    ensures WithDefaults(p.(education := e)) == WithDefaults(p)
  {
  }

  /** basicInformation and summary hold required paths, so leaving either out fails. */
  lemma RequiredObjects(p: ResumeDetails)
    ensures !p.basicInformation.Given? ==> !ResumeStored(p)
    ensures !p.summary.Given? ==> !ResumeStored(p)
    ensures p.basicInformation.Given? && !p.basicInformation.value.address.Given? ==> !ResumeStored(p)
  {
  }

  /** personalInformation holds no required path: leaving it out is accepted on its own. */
  lemma PersonalInformationOptional(p: ResumeDetails)
    ensures ResumeStored(p.(personalInformation := Absent))
        <==> && BasicStored(BasicOf(p))
             && RequiredString(SummaryOf(p).summary)
             && CertificationsStored(p.certifications) && InternshipsStored(p.internships)
             && ProjectsStored(p.projects)
             && AtMost(p.skills, 6) && AtMost(p.domainKnowledge, 6) && AtMost(p.achievements, 6)
  {
  }

  /** What a stored document holds at every required path. */
  lemma RequiredLeaves(p: ResumeDetails)
    requires ResumeStored(p)
    ensures p.basicInformation.Given? && p.summary.Given?
    ensures var b := p.basicInformation.value;
      && RequiredString(b.firstName) && RequiredString(b.lastName) && RequiredString(b.currentDesignation)
      && b.address.Given?
      && RequiredString(b.address.value.country)
      && RequiredString(b.address.value.state)
      && RequiredString(b.address.value.city)
      && RequiredString(b.email) && EmailShape(b.email.value)
      && RequiredString(b.mobile) && MobileShape(b.mobile.value)
    ensures RequiredString(p.summary.value.summary)
    ensures p.certifications.Given? ==>
      forall k :: 0 <= k < |p.certifications.value| ==> RequiredString(p.certifications.value[k].certificationName)
    ensures p.internships.Given? ==>
      forall k :: 0 <= k < |p.internships.value| ==> RequiredString(p.internships.value[k].title)
    ensures p.projects.Given? ==>
      forall k :: 0 <= k < |p.projects.value| ==> RequiredString(p.projects.value[k].name)
  {
  }

  /**
   * skills, domainKnowledge and achievements: missing passes, null fails,
   * otherwise at most six. In a stored document, replacing one list keeps it
   * stored exactly when the new list is missing or holds at most six entries.
   */
  lemma ListCaps(p: ResumeDetails, f: Field<seq<string>>)
    requires ResumeStored(p)
    ensures !p.skills.Null? && (p.skills.Given? ==> |p.skills.value| <= 6)
    ensures !p.domainKnowledge.Null? && (p.domainKnowledge.Given? ==> |p.domainKnowledge.value| <= 6)
    ensures !p.achievements.Null? && (p.achievements.Given? ==> |p.achievements.value| <= 6)
    ensures ResumeStored(p.(skills := f)) <==> f.Absent? || (f.Given? && |f.value| <= 6)
    ensures ResumeStored(p.(domainKnowledge := f)) <==> f.Absent? || (f.Given? && |f.value| <= 6)
    ensures ResumeStored(p.(achievements := f)) <==> f.Absent? || (f.Given? && |f.value| <= 6)
  {
  }

  /**
   * A missing, null or empty string skips every `match` pattern and fails
   * every `required` path: in a stored document, such a value for photo,
   * linkedIn, github or pincode keeps it stored, and for a name, the
   * designation or the summary makes it fail.
   */
  lemma UnsetValues(p: ResumeDetails, f: Field<string>)
    requires ResumeStored(p)
    requires !f.Given? || f.value == []
    ensures ResumeStored(p.(personalInformation := Given(PersonalInformation(f))))
    ensures ResumeStored(p.(basicInformation := Given(BasicOf(p).(linkedIn := f, github := f))))
    ensures ResumeStored(p.(basicInformation :=
      Given(BasicOf(p).(address := Given(AddressOf(BasicOf(p)).(pincode := f))))))
    ensures !ResumeStored(p.(basicInformation := Given(BasicOf(p).(firstName := f))))
    ensures !ResumeStored(p.(basicInformation := Given(BasicOf(p).(lastName := f))))
    ensures !ResumeStored(p.(basicInformation := Given(BasicOf(p).(currentDesignation := f))))
    ensures !ResumeStored(p.(summary := Given(Summary(f))))
  {
  }

  /** The `match` rules of the schema against its regex literals. */
  lemma MatchRulesAreTheRegexes(f: Field<string>)
    ensures Matching(f, PhotoShape) <==> !f.Given? || Regex.Matches(PhotoPattern, f.value)
    ensures Matching(f, PincodeShape)
        <==> !f.Given? || f.value == [] || Regex.Matches(PincodePattern, f.value)
    ensures RequiredString(f) && Matching(f, EmailShape) <==> f.Given? && Regex.Found(EmailPattern, f.value)
    ensures RequiredString(f) && Matching(f, MobileShape) <==> f.Given? && Regex.Matches(MobilePattern, f.value)
    ensures Matching(f, LinkedInShape) <==> !f.Given? || Regex.Matches(HostPattern(LinkedInHost), f.value)
    ensures Matching(f, GithubShape) <==> !f.Given? || Regex.Matches(HostPattern(GithubHost), f.value)
    ensures Matching(f, YearShape) <==> !f.Given? || f.value == [] || Regex.Matches(YearPattern, f.value)
    ensures Matching(f, LinkShape) <==> !f.Given? || Regex.Matches(LinkPattern, f.value)
  {
    if f.Given? {
      var s := f.value;
      PhotoPatternMatches(s);
      PincodePatternMatches(s);
      EmailPatternFound(s);
      MobilePatternMatches(s);
      LinkedInPatternMatches(s);
      GithubPatternMatches(s);
      YearPatternMatches(s);
      LinkPatternMatches(s);
    }
  }

  /** Only "paid", "unpaid", null or nothing is stored for an internship's `paid`. */
  lemma PaidValues(i: Internship)
    ensures InternshipStored(i) ==> !i.paid.Given? || i.paid.value == "paid" || i.paid.value == "unpaid"
    ensures RequiredString(i.title) ==> InternshipStored(i.(paid := Null))
  {
  }
}
