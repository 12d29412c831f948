/** The records of `types.ts`: what one ingestion run produces and the view state uses. */
module Types {
  import opened Wrappers

  datatype Theme = Light | Dark

  datatype ViewState = Home | About | Projects | Contact

  /** `Project`; `link?: string` is an optional string. */
  datatype Project = Project(
    id: string,
    title: string,
    category: string,
    thumbnail: string,
    images: seq<string>,
    description: string,
    technologies: seq<string>,
    link: Option<string>)

  datatype Experience = Experience(id: string, role: string, company: string, period: string, description: string)

  datatype Education = Education(id: string, degree: string, institution: string, period: string)

  datatype Certification = Certification(id: string, name: string, issuer: string, year: string)

  datatype Course = Course(id: string, title: string, institution: string, year: string)

  datatype Social = Social(linkedin: string, github: string, email: string)

  datatype ProfileData = ProfileData(
    name: string,
    role: string,
    bio: string,
    aboutText: string,
    avatar: string,
    banner: string,
    social: Social)

  /** The object `fetchPortfolioData` returns (and the shape of `data` in `App`). */
  datatype PortfolioData = PortfolioData(
    profile: ProfileData,
    projects: seq<Project>,
    experiences: seq<Experience>,
    skills: seq<string>,
    education: seq<Education>,
    certifications: seq<Certification>,
    courses: seq<Course>)

  /** The profile every ingestion run starts from: all fields empty. */
  const EmptyProfile := ProfileData("", "", "", "", "", "", Social("", "", ""))
}
