/** Records the AI agents return, shared by the full and the simplified agents. */
module AgentTypes {

  /** One entry of a resume's work history. */
  datatype Experience = Experience(title: string, company: string, duration: string, description: string)

  /** One entry of a resume's education. */
  datatype Education = Education(degree: string, field: string, institution: string, year: string)

  /** A parsed resume. */
  datatype Resume = Resume(name: string, email: string, phone: string, skills: seq<string>,
                           education: seq<Education>, experience: seq<Experience>)

  /** The gap report: missing skills, missing requirements, and both together. */
  datatype Gaps = Gaps(gaps: seq<string>, missingSkills: seq<string>, missingRequirements: seq<string>)
}
