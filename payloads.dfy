/**
 * The two request bodies the backend accepts, as JSON values after parsing.
 * Every member may be missing, an explicit `null`, or a value: both
 * validation layers treat these three cases differently, and the storage
 * layer's `default: null` turns the first into the second.
 */
module Payloads {

  datatype Field<+T> = Absent | Null | Given(value: T)

  /** mongoose `default: null`: a missing member is stored as an explicit null. */
  function OrNull<T>(f: Field<T>): Field<T> {
    if f.Absent? then Null else f
  }

  /** The registration body (`POST /register`). */
  datatype Registration = Registration(
    firstName: Field<string>,
    lastName: Field<string>,
    collegeName: Field<string>,
    specialization: Field<string>,
    course: Field<string>,
    branch: Field<string>,
    passOutYear: Field<real>,
    cgpaOrPercentage: Field<real>,
    gender: Field<string>,
    githubProfile: Field<string>,
    linkedInProfile: Field<string>,
    jobPreferredCountries: Field<seq<string>>,
    jobPreferredStates: Field<seq<string>>,
    jobPreferredCities: Field<seq<string>>,
    dateOfBirth: Field<string>
  )

  /** The members of the registration body, as the paths both layers report issues under. */
  datatype RegistrationPath =
    | FirstName | LastName | CollegeName | Specialization | Course | Branch
    | PassOutYear | CgpaOrPercentage | Gender | GithubProfile | LinkedInProfile
    | JobPreferredCountries | JobPreferredStates | JobPreferredCities | DateOfBirth

  const RegistrationPaths: set<RegistrationPath> := {
    FirstName, LastName, CollegeName, Specialization, Course, Branch,
    PassOutYear, CgpaOrPercentage, Gender, GithubProfile, LinkedInProfile,
    JobPreferredCountries, JobPreferredStates, JobPreferredCities, DateOfBirth
  }

  lemma EveryPathListed()
    ensures forall path :: path in RegistrationPaths
  {
    forall path: RegistrationPath ensures path in RegistrationPaths {
      match path
      case FirstName => case LastName => case CollegeName => case Specialization =>
      case Course => case Branch => case PassOutYear => case CgpaOrPercentage =>
      case Gender => case GithubProfile => case LinkedInProfile =>
      case JobPreferredCountries => case JobPreferredStates => case JobPreferredCities =>
      case DateOfBirth =>
    }
  }

  // ---- the resume-details body (`POST /resume-details`) ----

  datatype PersonalInformation = PersonalInformation(photo: Field<string>)

  datatype Address = Address(
    addressLine: Field<string>,
    country: Field<string>,
    state: Field<string>,
    city: Field<string>,
    pincode: Field<string>
  )

  datatype BasicInformation = BasicInformation(
    firstName: Field<string>,
    middleName: Field<string>,
    lastName: Field<string>,
    currentDesignation: Field<string>,
    address: Field<Address>,
    email: Field<string>,
    mobile: Field<string>,
    linkedIn: Field<string>,
    github: Field<string>
  )

  datatype Summary = Summary(summary: Field<string>)

  datatype Ssc = Ssc(
    institutionName: Field<string>,
    boardName: Field<string>,
    specialization: Field<string>,
    state: Field<string>,
    city: Field<string>,
    startDate: Field<string>,
    endDate: Field<string>,
    mathScore: Field<string>,
    physicsScore: Field<string>,
    chemistryScore: Field<string>
  )

  datatype Grades11And12 = Grades11And12(
    stream: Field<string>,
    institutionName: Field<string>,
    boardName: Field<string>,
    state: Field<string>,
    city: Field<string>,
    startDate: Field<string>,
    endDate: Field<string>,
    mathScore: Field<string>,
    physicsScore: Field<string>,
    chemistryScore: Field<string>
  )

  datatype UnderGraduation = UnderGraduation(
    institutionName: Field<string>,
    university: Field<string>,
    specialization: Field<string>,
    startDate: Field<string>,
    endDate: Field<string>,
    state: Field<string>,
    city: Field<string>,
    cgpa: Field<string>
  )

  datatype Graduation = Graduation(
    institutionName: Field<string>,
    university: Field<string>,
    specialization: Field<string>,
    state: Field<string>,
    startDate: Field<string>,
    endDate: Field<string>,
    city: Field<string>,
    cgpa: Field<string>,
    ongoing: Field<bool>
  )

  datatype Education = Education(
    ssc: Field<Ssc>,
    grades11And12: Field<Grades11And12>,
    underGraduation: Field<UnderGraduation>,
    graduation: Field<Graduation>
  )

  datatype Certification = Certification(
    certificationName: Field<string>,
    certificationId: Field<string>,
    institute: Field<string>,
    year: Field<string>
  )

  datatype Internship = Internship(
    title: Field<string>,
    organization: Field<string>,
    location: Field<string>,
    startDate: Field<string>,
    endDate: Field<string>,
    paid: Field<string>,
    ongoing: Field<bool>,
    description: Field<string>
  )

  datatype Project = Project(
    name: Field<string>,
    client: Field<string>,
    startDate: Field<string>,
    endDate: Field<string>,
    link: Field<string>,
    attachments: Field<string>
  )

  datatype ResumeDetails = ResumeDetails(
    personalInformation: Field<PersonalInformation>,
    basicInformation: Field<BasicInformation>,
    summary: Field<Summary>,
    education: Field<Education>,
    certifications: Field<seq<Certification>>,
    internships: Field<seq<Internship>>,
    projects: Field<seq<Project>>,
    skills: Field<seq<string>>,
    domainKnowledge: Field<seq<string>>,
    achievements: Field<seq<string>>
  )
}
