/**
 * The three stored record kinds (backend/models/Candidate.js, Interview.js,
 * Job.js). Each schema is a validating and defaulting function: it takes the
 * fields a route hands to the store (absent fields are `None`), applies the
 * schema's setters (trim, lower-case), checks `required`, `enum`, `match`,
 * `min` and `max`, and fills in defaults. A patch validator covers the
 * update routes, where only the fields present in the request are checked.
 */
module Models {
  import opened Common
  import opened Text

  type Id = nat
  /** A point in time, as the store's `Date` values; only order and equality are used. */
  type Date = int
  /** A free-form object (an experience or education entry): key/value pairs in insertion order. */
  type Fields = seq<(string, string)>

  /** What the resume parser returns, as far as the backend reads it. */
  datatype ParsedResume = ParsedResume(
    name: Option<string>, email: Option<string>, phone: Option<string>,
    skills: Option<seq<string>>, experience: Option<seq<Fields>>, education: Option<seq<Fields>>)

  /** What the job-description parser returns, as far as the backend reads it. */
  datatype ParsedJob = ParsedJob(
    requirements: Option<seq<string>>, responsibilities: Option<seq<string>>, skills: Option<seq<string>>)

  /** The summarize endpoint's reply object, `{"summary": text}`. */
  datatype SummaryReply = SummaryReply(summary: string)

  /** A value assigned to a `String` field by the upload routes: a string, or the summarize reply object. */
  datatype StringOrReply = Text(text: string) | ReplyObject(reply: SummaryReply)

  /** Mongoose's string cast: a string is kept; a plain object, whose `toString` is the
      default one, is refused with a cast error. */
  function CastString(v: StringOrReply): (r: Option<string>)
    ensures r.Some? <==> v.Text?
    ensures r.Some? ==> r.value == v.text
  {
    match v
    case Text(t) => Some(t)
    case ReplyObject(_) => None
  }

  /** Mongoose's `required` check on a string: present and non-empty. */
  predicate RequiredStr(s: Option<string>) {
    s.Some? && |s.value| > 0
  }

  function TrimOpt(s: Option<string>): Option<string> {
    if s.Some? then Some(Trim(s.value)) else None
  }

  // =====================================================================
  // Candidate (backend/models/Candidate.js)

  datatype CandidateStatus = New | Reviewed | Shortlisted | Rejected | Hired

  function CandidateStatusName(s: CandidateStatus): string {
    match s
    case New => "New"
    case Reviewed => "Reviewed"
    case Shortlisted => "Shortlisted"
    case Rejected => "Rejected"
    case Hired => "Hired"
  }

  /** The `enum` check: exactly the five names are accepted. */
  function ParseCandidateStatus(s: string): (r: Option<CandidateStatus>)
    ensures r.Some? ==> CandidateStatusName(r.value) == s
    ensures r.None? ==> forall t :: CandidateStatusName(t) != s
  {
    if s == "New" then Some(New)
    else if s == "Reviewed" then Some(Reviewed)
    else if s == "Shortlisted" then Some(Shortlisted)
    else if s == "Rejected" then Some(Rejected)
    else if s == "Hired" then Some(Hired)
    else None
  }

  /** `/^\S+@\S+\.\S+$/`: no white space, an '@' with something before it,
      and a later '.' with something between and after. */
  predicate EmailShape(s: string) {
    (forall i :: 0 <= i < |s| ==> !IsJsSpace(s[i]))
    && exists a, d :: 0 < a < |s| && 0 < d < |s| && a + 2 <= d && d + 2 <= |s| && s[a] == '@' && s[d] == '.'
  }

  datatype MatchEntry = MatchEntry(jobId: Id, score: real, gaps: seq<string>, matchDate: Date)

  /** At most one match entry per job. */
  predicate MatchesUnique(ms: seq<MatchEntry>) {
    forall a, b :: 0 <= a < b < |ms| ==> ms[a].jobId != ms[b].jobId
  }

  datatype Candidate = Candidate(
    id: Id, name: string, email: string, phone: Option<string>,
    skills: seq<string>, experience: seq<Fields>, education: seq<Fields>,
    parsedData: Option<ParsedResume>, summary: string, resumePath: string,
    status: CandidateStatus, matches: seq<MatchEntry>, interviews: seq<Id>,
    createdAt: Date, updatedAt: Date)

  /** The fields a route passes to `Candidate.create` or to an update. An update body is
      the request body itself, so it may carry any schema path, the match entries, the
      interview references and both dates included. */
  datatype CandidateInput = CandidateInput(
    name: Option<string>, email: Option<string>, phone: Option<string>,
    skills: Option<seq<string>>, experience: Option<seq<Fields>>, education: Option<seq<Fields>>,
    parsedData: Option<ParsedResume>, summary: Option<string>, resumePath: Option<string>,
    status: Option<string>, matches: Option<seq<MatchEntry>>, interviews: Option<seq<Id>>,
    createdAt: Option<Date>, updatedAt: Option<Date>)

  /** The schema's `lowercase` and `trim` setters on the email. */
  function NormalizeEmail(e: string): (r: string)
    ensures forall i :: 0 <= i < |r| ==> !IsUpperChar(r[i])
  {
    Lower(Trim(e))
  }

  predicate StoredEmail(e: string) {
    EmailShape(e) && forall i :: 0 <= i < |e| ==> !IsUpperChar(e[i])
  }

  /** The schema's constraints, as they hold of every stored candidate. */
  predicate CandidateOk(c: Candidate) {
    && |c.name| > 0 && !IsJsSpace(c.name[0]) && !IsJsSpace(c.name[|c.name| - 1])
    && StoredEmail(c.email)
    && |c.resumePath| > 0
  }

  /** Paths that fail validation. On create (`creating`) an absent required field fails;
      on an update only the fields present are checked. */
  predicate CandidateFieldsOk(c: CandidateInput, creating: bool) {
    && ((creating || c.name.Some?) ==> RequiredStr(TrimOpt(c.name)))
    && ((creating || c.email.Some?) ==> c.email.Some? && EmailShape(NormalizeEmail(c.email.value)))
    && ((creating || c.resumePath.Some?) ==> RequiredStr(c.resumePath))
    && (c.status.Some? ==> ParseCandidateStatus(c.status.value).Some?)
  }

  function CandidateErrors(c: CandidateInput, creating: bool): (r: set<string>)
    ensures r == {} <==> CandidateFieldsOk(c, creating)
  {
    (if (creating || c.name.Some?) && !RequiredStr(TrimOpt(c.name)) then {"name"} else {})
    + (if (creating || c.email.Some?) && !(c.email.Some? && EmailShape(NormalizeEmail(c.email.value))) then {"email"} else {})
    + (if (creating || c.resumePath.Some?) && !RequiredStr(c.resumePath) then {"resumePath"} else {})
    + (if c.status.Some? && ParseCandidateStatus(c.status.value).None? then {"status"} else {})
  }

  /** `Candidate.create`: setters, validators and defaults. */
  function ValidateCandidate(id: Id, c: CandidateInput, now: Date): (r: Validated<Candidate>)
    ensures r.Valid? <==>
      && c.name.Some? && Trim(c.name.value) != ""
      && c.email.Some? && EmailShape(Lower(Trim(c.email.value)))
      && c.resumePath.Some? && c.resumePath.value != ""
      && (c.status.None? || ParseCandidateStatus(c.status.value).Some?)
    ensures r.Valid? ==> CandidateOk(r.value)
    ensures r.Valid? ==>
      && r.value.id == id
      && r.value.createdAt == c.createdAt.GetOr(now) && r.value.updatedAt == c.updatedAt.GetOr(now)
      && r.value.name == Trim(c.name.value)
      && r.value.email == Lower(Trim(c.email.value))
      && r.value.phone == TrimOpt(c.phone)
      && r.value.resumePath == c.resumePath.value
      && CandidateStatusName(r.value.status) == c.status.GetOr("New")
      && r.value.skills == c.skills.GetOr([])
      && r.value.experience == c.experience.GetOr([])
      && r.value.education == c.education.GetOr([])
      && r.value.parsedData == c.parsedData
      && r.value.summary == c.summary.GetOr("")
      && r.value.matches == c.matches.GetOr([]) && r.value.interviews == c.interviews.GetOr([])
    ensures r.Invalid? ==> r.paths == CandidateErrors(c, true) && r.paths != {}
  {
    if !CandidateFieldsOk(c, true) then Invalid(CandidateErrors(c, true))
    else
      var st := if c.status.Some? then ParseCandidateStatus(c.status.value).value else New;
      Valid(Candidate(
        id, Trim(c.name.value), NormalizeEmail(c.email.value), TrimOpt(c.phone),
        c.skills.GetOr([]), c.experience.GetOr([]), c.education.GetOr([]),
        c.parsedData, c.summary.GetOr(""), c.resumePath.value, st,
        c.matches.GetOr([]), c.interviews.GetOr([]), c.createdAt.GetOr(now), c.updatedAt.GetOr(now)))
  }

  /** `findByIdAndUpdate(id, body, {runValidators: true})`: the fields present replace the
      stored ones, whichever they are; only the id stays. */
  function PatchCandidate(cur: Candidate, p: CandidateInput): (r: Validated<Candidate>)
    ensures r.Valid? <==> CandidateFieldsOk(p, false)
    ensures r.Invalid? ==> r.paths == CandidateErrors(p, false)
    ensures r.Valid? ==>
      && r.value.id == cur.id
      && r.value.matches == p.matches.GetOr(cur.matches) && r.value.interviews == p.interviews.GetOr(cur.interviews)
      && r.value.resumePath == p.resumePath.GetOr(cur.resumePath)
      && r.value.createdAt == p.createdAt.GetOr(cur.createdAt) && r.value.updatedAt == p.updatedAt.GetOr(cur.updatedAt)
      && r.value.name == (if p.name.Some? then Trim(p.name.value) else cur.name)
      && r.value.email == (if p.email.Some? then Lower(Trim(p.email.value)) else cur.email)
      && r.value.status == (if p.status.Some? then ParseCandidateStatus(p.status.value).value else cur.status)
  {
    if !CandidateFieldsOk(p, false) then Invalid(CandidateErrors(p, false))
    else
      var name := if p.name.Some? then Trim(p.name.value) else cur.name;
      var email := if p.email.Some? then NormalizeEmail(p.email.value) else cur.email;
      var st := if p.status.Some? then ParseCandidateStatus(p.status.value).value else cur.status;
      var phone := if p.phone.Some? then TrimOpt(p.phone) else cur.phone;
      var parsed := if p.parsedData.Some? then p.parsedData else cur.parsedData;
      Valid(Candidate(
        cur.id, name, email, phone,
        p.skills.GetOr(cur.skills), p.experience.GetOr(cur.experience), p.education.GetOr(cur.education),
        parsed, p.summary.GetOr(cur.summary), p.resumePath.GetOr(cur.resumePath), st,
        p.matches.GetOr(cur.matches), p.interviews.GetOr(cur.interviews),
        p.createdAt.GetOr(cur.createdAt), p.updatedAt.GetOr(cur.updatedAt)))
  }

  /** An update that passes validation keeps a stored candidate within the schema. */
  lemma PatchCandidateKeepsOk(cur: Candidate, p: CandidateInput)
    requires CandidateOk(cur) && PatchCandidate(cur, p).Valid?
    ensures CandidateOk(PatchCandidate(cur, p).value)
  {
    var r := PatchCandidate(cur, p).value;
    if p.email.Some? {
      assert StoredEmail(r.email);
    } else {
      assert r.email == cur.email;
    }
  }

  // =====================================================================
  // Interview (backend/models/Interview.js)

  datatype InterviewStatus = Scheduled | Completed | Cancelled | Rescheduled

  function InterviewStatusName(s: InterviewStatus): string {
    match s
    case Scheduled => "Scheduled"
    case Completed => "Completed"
    case Cancelled => "Cancelled"
    case Rescheduled => "Rescheduled"
  }

  function ParseInterviewStatus(s: string): (r: Option<InterviewStatus>)
    ensures r.Some? ==> InterviewStatusName(r.value) == s
    ensures r.None? ==> forall t :: InterviewStatusName(t) != s
  {
    if s == "Scheduled" then Some(Scheduled)
    else if s == "Completed" then Some(Completed)
    else if s == "Cancelled" then Some(Cancelled)
    else if s == "Rescheduled" then Some(Rescheduled)
    else None
  }

  /** Ratings are JavaScript numbers; comments and interviewer are strings. */
  datatype Feedback = Feedback(rating: Option<real>, comments: Option<string>, interviewer: Option<string>)

  datatype Interview = Interview(
    id: Id, jobId: Id, candidateId: Id, scheduledDate: Date, duration: int,
    location: string, meetingLink: Option<string>, status: InterviewStatus,
    feedback: Option<Feedback>, notificationSent: bool, createdAt: Date, updatedAt: Date)

  /** The fields a route passes to `Interview.create`, or an update's request body, which
      may carry any schema path, both dates included. */
  datatype InterviewInput = InterviewInput(
    jobId: Option<Id>, candidateId: Option<Id>, scheduledDate: Option<Date>,
    duration: Option<int>, location: Option<string>, meetingLink: Option<string>,
    status: Option<string>, feedback: Option<Feedback>, notificationSent: Option<bool>,
    createdAt: Option<Date>, updatedAt: Option<Date>)

  predicate RatingOk(f: Option<Feedback>) {
    f.None? || f.value.rating.None? || 1.0 <= f.value.rating.value <= 5.0
  }

  predicate InterviewOk(i: Interview) {
    RatingOk(i.feedback)
  }

  predicate InterviewFieldsOk(i: InterviewInput, creating: bool) {
    && (creating ==> i.jobId.Some? && i.candidateId.Some? && i.scheduledDate.Some?)
    && (i.status.Some? ==> ParseInterviewStatus(i.status.value).Some?)
    && RatingOk(i.feedback)
  }

  function InterviewErrors(i: InterviewInput, creating: bool): (r: set<string>)
    ensures r == {} <==> InterviewFieldsOk(i, creating)
  {
    (if creating && i.jobId.None? then {"jobId"} else {})
    + (if creating && i.candidateId.None? then {"candidateId"} else {})
    + (if creating && i.scheduledDate.None? then {"scheduledDate"} else {})
    + (if i.status.Some? && ParseInterviewStatus(i.status.value).None? then {"status"} else {})
    + (if !RatingOk(i.feedback) then {"feedback.rating"} else {})
  }

  /** `Interview.create`: required references and date, enum, rating bounds, defaults. */
  function ValidateInterview(id: Id, i: InterviewInput, now: Date): (r: Validated<Interview>)
    ensures r.Valid? <==>
      && i.jobId.Some? && i.candidateId.Some? && i.scheduledDate.Some?
      && (i.status.None? || ParseInterviewStatus(i.status.value).Some?)
      && (i.feedback.Some? && i.feedback.value.rating.Some? ==> 1.0 <= i.feedback.value.rating.value <= 5.0)
    ensures r.Valid? ==> InterviewOk(r.value)
    ensures r.Valid? ==>
      && r.value.id == id
      && r.value.createdAt == i.createdAt.GetOr(now) && r.value.updatedAt == i.updatedAt.GetOr(now)
      && r.value.jobId == i.jobId.value && r.value.candidateId == i.candidateId.value
      && r.value.scheduledDate == i.scheduledDate.value
      && r.value.duration == i.duration.GetOr(60)
      && r.value.location == i.location.GetOr("Virtual")
      && r.value.meetingLink == i.meetingLink
      && InterviewStatusName(r.value.status) == i.status.GetOr("Scheduled")
      && r.value.feedback == i.feedback
      && r.value.notificationSent == i.notificationSent.GetOr(false)
    ensures r.Invalid? ==> r.paths == InterviewErrors(i, true) && r.paths != {}
  {
    if !InterviewFieldsOk(i, true) then Invalid(InterviewErrors(i, true))
    else
      var st := if i.status.Some? then ParseInterviewStatus(i.status.value).value else Scheduled;
      Valid(Interview(
        id, i.jobId.value, i.candidateId.value, i.scheduledDate.value, i.duration.GetOr(60),
        i.location.GetOr("Virtual"), i.meetingLink, st, i.feedback,
        i.notificationSent.GetOr(false), i.createdAt.GetOr(now), i.updatedAt.GetOr(now)))
  }

  /** `findByIdAndUpdate(id, body, {runValidators: true})`: the fields present replace the
      stored ones; only the id stays. */
  function PatchInterview(cur: Interview, p: InterviewInput): (r: Validated<Interview>)
    ensures r.Valid? <==> InterviewFieldsOk(p, false)
    ensures r.Invalid? ==> r.paths == InterviewErrors(p, false)
    ensures r.Valid? && InterviewOk(cur) ==> InterviewOk(r.value)
    ensures r.Valid? ==>
      && r.value.id == cur.id
      && r.value.createdAt == p.createdAt.GetOr(cur.createdAt) && r.value.updatedAt == p.updatedAt.GetOr(cur.updatedAt)
      && r.value.scheduledDate == p.scheduledDate.GetOr(cur.scheduledDate)
      && r.value.duration == p.duration.GetOr(cur.duration)
      && r.value.location == p.location.GetOr(cur.location)
      && r.value.meetingLink == (if p.meetingLink.Some? then p.meetingLink else cur.meetingLink)
      && r.value.feedback == (if p.feedback.Some? then p.feedback else cur.feedback)
      && r.value.candidateId == p.candidateId.GetOr(cur.candidateId)
      && r.value.jobId == p.jobId.GetOr(cur.jobId)
      && r.value.status == (if p.status.Some? then ParseInterviewStatus(p.status.value).value else cur.status)
      && r.value.notificationSent == p.notificationSent.GetOr(cur.notificationSent)
  {
    if !InterviewFieldsOk(p, false) then Invalid(InterviewErrors(p, false))
    else
      Valid(cur.(
        jobId := p.jobId.GetOr(cur.jobId),
        candidateId := p.candidateId.GetOr(cur.candidateId),
        scheduledDate := p.scheduledDate.GetOr(cur.scheduledDate),
        duration := p.duration.GetOr(cur.duration),
        location := p.location.GetOr(cur.location),
        meetingLink := if p.meetingLink.Some? then p.meetingLink else cur.meetingLink,
        status := if p.status.Some? then ParseInterviewStatus(p.status.value).value else cur.status,
        feedback := if p.feedback.Some? then p.feedback else cur.feedback,
        notificationSent := p.notificationSent.GetOr(cur.notificationSent),
        createdAt := p.createdAt.GetOr(cur.createdAt),
        updatedAt := p.updatedAt.GetOr(cur.updatedAt)))
  }

  // =====================================================================
  // Job (backend/models/Job.js)

  datatype JobType = FullTime | PartTime | Contract | Internship

  function JobTypeName(t: JobType): string {
    match t
    case FullTime => "Full-time"
    case PartTime => "Part-time"
    case Contract => "Contract"
    case Internship => "Internship"
  }

  function ParseJobType(s: string): (r: Option<JobType>)
    ensures r.Some? ==> JobTypeName(r.value) == s
    ensures r.None? ==> forall t :: JobTypeName(t) != s
  {
    if s == "Full-time" then Some(FullTime)
    else if s == "Part-time" then Some(PartTime)
    else if s == "Contract" then Some(Contract)
    else if s == "Internship" then Some(Internship)
    else None
  }

  datatype JobStatus = Open | Closed | OnHold

  function JobStatusName(s: JobStatus): string {
    match s
    case Open => "Open"
    case Closed => "Closed"
    case OnHold => "On Hold"
  }

  function ParseJobStatus(s: string): (r: Option<JobStatus>)
    ensures r.Some? ==> JobStatusName(r.value) == s
    ensures r.None? ==> forall t :: JobStatusName(t) != s
  {
    if s == "Open" then Some(Open)
    else if s == "Closed" then Some(Closed)
    else if s == "On Hold" then Some(OnHold)
    else None
  }

  /** Every enum name parses back to its value. */
  lemma EnumNamesRoundTrip(c: CandidateStatus, i: InterviewStatus, t: JobType, s: JobStatus)
    ensures ParseCandidateStatus(CandidateStatusName(c)) == Some(c)
    ensures ParseInterviewStatus(InterviewStatusName(i)) == Some(i)
    ensures ParseJobType(JobTypeName(t)) == Some(t)
    ensures ParseJobStatus(JobStatusName(s)) == Some(s)
  {
  }

  datatype Job = Job(
    id: Id, title: string, description: string,
    requirements: seq<string>, responsibilities: seq<string>, skills: seq<string>,
    parsedData: Option<ParsedJob>, summary: string, location: string, company: string,
    jobType: JobType, salary: string, status: JobStatus, filePath: Option<string>,
    createdAt: Date, updatedAt: Date)

  /** The request body handed to `Job.create` or to an update: any schema path, both
      dates included. */
  datatype JobInput = JobInput(
    title: Option<string>, description: Option<string>,
    requirements: Option<seq<string>>, responsibilities: Option<seq<string>>, skills: Option<seq<string>>,
    parsedData: Option<ParsedJob>, summary: Option<string>, location: Option<string>,
    company: Option<string>, jobType: Option<string>, salary: Option<string>,
    status: Option<string>, filePath: Option<string>, createdAt: Option<Date>, updatedAt: Option<Date>)

  predicate JobOk(j: Job) {
    && |j.title| > 0 && !IsJsSpace(j.title[0]) && !IsJsSpace(j.title[|j.title| - 1])
    && |j.description| > 0 && |j.company| > 0
  }

  predicate JobFieldsOk(j: JobInput, creating: bool) {
    && ((creating || j.title.Some?) ==> RequiredStr(TrimOpt(j.title)))
    && ((creating || j.description.Some?) ==> RequiredStr(j.description))
    && ((creating || j.company.Some?) ==> RequiredStr(j.company))
    && (j.jobType.Some? ==> ParseJobType(j.jobType.value).Some?)
    && (j.status.Some? ==> ParseJobStatus(j.status.value).Some?)
  }

  function JobErrors(j: JobInput, creating: bool): (r: set<string>)
    ensures r == {} <==> JobFieldsOk(j, creating)
  {
    (if (creating || j.title.Some?) && !RequiredStr(TrimOpt(j.title)) then {"title"} else {})
    + (if (creating || j.description.Some?) && !RequiredStr(j.description) then {"description"} else {})
    + (if (creating || j.company.Some?) && !RequiredStr(j.company) then {"company"} else {})
    + (if j.jobType.Some? && ParseJobType(j.jobType.value).None? then {"jobType"} else {})
    + (if j.status.Some? && ParseJobStatus(j.status.value).None? then {"status"} else {})
  }

  /** `Job.create`: required title (trimmed), description and company, two enums, defaults. */
  function ValidateJob(id: Id, j: JobInput, now: Date): (r: Validated<Job>)
    ensures r.Valid? <==>
      && j.title.Some? && Trim(j.title.value) != ""
      && j.description.Some? && j.description.value != ""
      && j.company.Some? && j.company.value != ""
      && (j.jobType.None? || ParseJobType(j.jobType.value).Some?)
      && (j.status.None? || ParseJobStatus(j.status.value).Some?)
    ensures r.Valid? ==> JobOk(r.value)
    ensures r.Valid? ==>
      && r.value.id == id
      && r.value.createdAt == j.createdAt.GetOr(now) && r.value.updatedAt == j.updatedAt.GetOr(now)
      && r.value.title == Trim(j.title.value)
      && r.value.description == j.description.value
      && r.value.company == j.company.value
      && JobTypeName(r.value.jobType) == j.jobType.GetOr("Full-time")
      && JobStatusName(r.value.status) == j.status.GetOr("Open")
      && r.value.location == j.location.GetOr("Remote")
      && r.value.salary == j.salary.GetOr("Competitive")
      && r.value.requirements == j.requirements.GetOr([])
      && r.value.responsibilities == j.responsibilities.GetOr([])
      && r.value.skills == j.skills.GetOr([])
      && r.value.parsedData == j.parsedData
      && r.value.summary == j.summary.GetOr("")
      && r.value.filePath == j.filePath
    ensures r.Invalid? ==> r.paths == JobErrors(j, true) && r.paths != {}
  {
    if !JobFieldsOk(j, true) then Invalid(JobErrors(j, true))
    else
      var ty := if j.jobType.Some? then ParseJobType(j.jobType.value).value else FullTime;
      var st := if j.status.Some? then ParseJobStatus(j.status.value).value else Open;
      var r := Job(
        id, Trim(j.title.value), j.description.value,
        j.requirements.GetOr([]), j.responsibilities.GetOr([]), j.skills.GetOr([]),
        j.parsedData, j.summary.GetOr(""), j.location.GetOr("Remote"), j.company.value,
        ty, j.salary.GetOr("Competitive"), st, j.filePath, j.createdAt.GetOr(now), j.updatedAt.GetOr(now));
      NewJobOk(j, r);
      Valid(r)
  }

  /** A job whose title is the trimmed non-empty title of valid fields, and whose
      description and company are theirs, is well formed. */
  lemma NewJobOk(j: JobInput, r: Job)
    requires JobFieldsOk(j, true)
    requires r.title == Trim(j.title.value) && r.description == j.description.value && r.company == j.company.value
    ensures JobOk(r)
  {
    assert RequiredStr(TrimOpt(j.title));
  }

  function PatchJob(cur: Job, p: JobInput): (r: Validated<Job>)
    ensures r.Valid? <==> JobFieldsOk(p, false)
    ensures r.Invalid? ==> r.paths == JobErrors(p, false)
    ensures r.Valid? && JobOk(cur) ==> JobOk(r.value)
    ensures r.Valid? ==>
      && r.value.id == cur.id
      && r.value.createdAt == p.createdAt.GetOr(cur.createdAt) && r.value.updatedAt == p.updatedAt.GetOr(cur.updatedAt)
      && r.value.title == (if p.title.Some? then Trim(p.title.value) else cur.title)
      && r.value.description == p.description.GetOr(cur.description)
      && r.value.company == p.company.GetOr(cur.company)
      && r.value.jobType == (if p.jobType.Some? then ParseJobType(p.jobType.value).value else cur.jobType)
      && r.value.status == (if p.status.Some? then ParseJobStatus(p.status.value).value else cur.status)
      && r.value.requirements == p.requirements.GetOr(cur.requirements)
      && r.value.responsibilities == p.responsibilities.GetOr(cur.responsibilities)
      && r.value.skills == p.skills.GetOr(cur.skills)
      && r.value.summary == p.summary.GetOr(cur.summary)
      && r.value.filePath == (if p.filePath.Some? then p.filePath else cur.filePath)
  {
    if !JobFieldsOk(p, false) then Invalid(JobErrors(p, false))
    else
      PatchKeepsJobOk(cur, p);
      Valid(PatchedJob(cur, p))
  }

  /** A valid patch keeps a stored job's title trimmed and non-empty and its description
      and company non-empty. */
  lemma PatchKeepsJobOk(cur: Job, p: JobInput)
    requires JobFieldsOk(p, false)
    ensures JobOk(cur) ==> JobOk(PatchedJob(cur, p))
  {
    var j := PatchedJob(cur, p);
    assert j.description == p.description.GetOr(cur.description);
    assert j.company == p.company.GetOr(cur.company);
  }

  /** The job a valid patch leaves: the given fields replace the stored ones. */
  function PatchedJob(cur: Job, p: JobInput): (j: Job)
    requires JobFieldsOk(p, false)
    ensures j.id == cur.id
    ensures j.createdAt == p.createdAt.GetOr(cur.createdAt) && j.updatedAt == p.updatedAt.GetOr(cur.updatedAt)
    ensures j.title == (if p.title.Some? then Trim(p.title.value) else cur.title)
    ensures j.jobType == (if p.jobType.Some? then ParseJobType(p.jobType.value).value else cur.jobType)
    ensures j.status == (if p.status.Some? then ParseJobStatus(p.status.value).value else cur.status)
  {
    var title := if p.title.Some? then Trim(p.title.value) else cur.title;
    var ty := if p.jobType.Some? then ParseJobType(p.jobType.value).value else cur.jobType;
    var st := if p.status.Some? then ParseJobStatus(p.status.value).value else cur.status;
    var parsed := if p.parsedData.Some? then p.parsedData else cur.parsedData;
    var path := if p.filePath.Some? then p.filePath else cur.filePath;
    Job(
      cur.id, title, p.description.GetOr(cur.description),
      p.requirements.GetOr(cur.requirements), p.responsibilities.GetOr(cur.responsibilities),
      p.skills.GetOr(cur.skills), parsed, p.summary.GetOr(cur.summary),
      p.location.GetOr(cur.location), p.company.GetOr(cur.company), ty,
      p.salary.GetOr(cur.salary), st, path, p.createdAt.GetOr(cur.createdAt), p.updatedAt.GetOr(cur.updatedAt))
  }
}
