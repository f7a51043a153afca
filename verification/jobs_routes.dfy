/**
 * The job routes (backend/routes/jobs.js): list, fetch, create with an
 * optional job-description file and AI enrichment, update and delete.
 */
module JobRoutes {
  import opened Common
  import opened Text
  import opened Sorting
  import opened Models
  import opened Db

  /** The uploaded job-description file; `ext` is its extension as `path.extname` gives it. */
  datatype JdUpload = JdUpload(ext: string)

  /** Both AI replies; the enrichment only happens when both calls succeeded. */
  datatype JobAi = JobAi(parsed: ParsedJob, summary: SummaryReply)

  function JobFilePath(uuid: string, ext: string): (r: string)
    ensures |r| > 0 && StartsWith(r, "uploads/jobs/")
  {
    var r := "uploads/jobs/" + (uuid + ext);
    assert r[..13] == "uploads/jobs/";
    r
  }

  /** The fields handed to `Job.create`: the request body, the AI enrichment when a file
      was uploaded and both AI calls succeeded, and the file path (null without a file). */
  function CreateInput(body: JobInput, path: Option<string>, ai: Option<JobAi>): (r: JobInput)
    ensures r.filePath == path
    ensures r.title == body.title && r.description == body.description && r.company == body.company
    ensures r.jobType == body.jobType && r.status == body.status && r.location == body.location
    ensures path.None? || ai.None? ==> r == body.(filePath := path)
    ensures path.Some? && ai.Some? ==>
      && r.requirements == Some(ai.value.parsed.requirements.GetOr([]))
      && r.responsibilities == Some(ai.value.parsed.responsibilities.GetOr([]))
      && r.skills == Some(ai.value.parsed.skills.GetOr([]))
      && r.parsedData == Some(ai.value.parsed)
      && r.summary == Some(ai.value.summary.summary)
  {
    if path.Some? && ai.Some? then
      var p := ai.value.parsed;
      body.(requirements := Some(p.requirements.GetOr([])),
            responsibilities := Some(p.responsibilities.GetOr([])),
            skills := Some(p.skills.GetOr([])),
            parsedData := Some(p),
            summary := Some(ai.value.summary.summary),
            filePath := path)
    else
      body.(filePath := path)
  }

  /** The route's own check (line 38) lets through a body without a description;
      the schema then refuses it. */
  lemma MissingDescriptionRejected(id: Id, body: JobInput, path: Option<string>, ai: Option<JobAi>, now: Date)
    requires TruthyStr(body.title) && TruthyStr(body.company)
    requires body.description.None? && (path.None? || ai.None?)
    ensures ValidateJob(id, CreateInput(body, path, ai), now) == Invalid(JobErrors(CreateInput(body, path, ai), true))
    ensures "description" in JobErrors(CreateInput(body, path, ai), true)
  {
  }

  /** Lines 62-80 as written: `summary` receives the summarize reply object itself,
      which the store cannot cast to a string, so `Job.create` fails. */
  function CreateJobAsWritten(id: Id, body: JobInput, path: Option<string>, ai: Option<JobAi>, now: Date): (r: Validated<Job>)
    ensures path.Some? && ai.Some? ==> r == Invalid({"summary"})
    ensures path.None? || ai.None? ==> r == ValidateJob(id, CreateInput(body, path, ai), now)
  {
    var summary := if path.Some? && ai.Some? then Some(ReplyObject(ai.value.summary)) else None;
    if summary.Some? && CastString(summary.value).None? then Invalid({"summary"})
    else ValidateJob(id, CreateInput(body, path, ai), now)
  }

  /** The enrichment never touches the fields the schema checks, so it cannot make a
      posting valid or invalid. */
  lemma EnrichmentKeepsFieldsOk(body: JobInput, path: Option<string>, ai: Option<JobAi>, creating: bool)
    ensures JobFieldsOk(CreateInput(body, path, ai), creating) == JobFieldsOk(body, creating)
  {
    var input := CreateInput(body, path, ai);
    assert input.title == body.title && input.description == body.description && input.company == body.company;
    assert input.jobType == body.jobType && input.status == body.status;
  }

  /** Any posting the schema accepts, sent with a description file the AI service handles:
      as written the create fails with a server error; storing the reply's text creates
      the job. */
  lemma AiJobFailsAsWritten(id: Id, body: JobInput, path: Option<string>, ai: Option<JobAi>, now: Date)
    requires JobFieldsOk(body, true) && path.Some? && ai.Some?
    ensures CreateJobAsWritten(id, body, path, ai, now).Invalid?
    ensures ValidateJob(id, CreateInput(body, path, ai), now).Valid?
  {
    EnrichmentKeepsFieldsOk(body, path, ai, true);
  }

  predicate JobNewerFirst(a: Job, b: Job) {
    a.createdAt >= b.createdAt
  }

  lemma JobNewerFirstIsTotalPreorder()
    ensures Total(JobNewerFirst) && Transitive(JobNewerFirst)
  {
  }

  /** GET /: every job, newest first. */
  method ListJobs(st: Store) returns (r: Reply<seq<Job>>)
    ensures r.Success? && r.code == 200
    ensures |r.data| == |st.jobs.Keys|
    ensures forall j :: j in r.data <==> j in st.jobs.Values
    ensures Sorted(r.data, JobNewerFirst)
  {
    JobNewerFirstIsTotalPreorder();
    var js := ListSorted(st.jobs, JobNewerFirst);
    r := Success(200, js);
  }

  /** GET /:id. */
  method GetJob(st: Store, id: Id) returns (r: Reply<Job>)
    ensures id in st.jobs ==> r == Success(200, st.jobs[id])
    ensures id !in st.jobs ==> r == ClientError(404, "Job not found")
  {
    if id in st.jobs {
      r := Success(200, st.jobs[id]);
    } else {
      r := ClientError(404, "Job not found");
    }
  }

  /** POST /: check title and company, store the file if any, enrich, create. */
  method CreateJob(st: Store, body: JobInput, upload: Option<JdUpload>, ai: Option<JobAi>,
                   uuid: string, now: Date) returns (r: Reply<Job>)
    requires st.Valid()
    modifies st
    ensures st.Valid()
    ensures !(TruthyStr(body.title) && TruthyStr(body.company)) ==>
      r == ClientError(400, "Please provide job title and company") && unchanged(st)
    ensures TruthyStr(body.title) && TruthyStr(body.company) ==>
      var path := if upload.Some? then Some(JobFilePath(uuid, upload.value.ext)) else None;
      var v := ValidateJob(old(st.nextId), CreateInput(body, path, ai), now);
      && st.files == (if path.Some? then old(st.files) + {path.value} else old(st.files))
      && st.candidates == old(st.candidates) && st.interviews == old(st.interviews) && st.outbox == old(st.outbox)
      && old(st.nextId) !in old(st.jobs)
      && (v.Valid? ==> r == Success(201, v.value) && st.jobs == old(st.jobs)[v.value.id := v.value])
      && (v.Invalid? ==> r == ServerError && st.jobs == old(st.jobs))
  {
    if !(TruthyStr(body.title) && TruthyStr(body.company)) {
      return ClientError(400, "Please provide job title and company");
    }
    var path: Option<string> := None;
    if upload.Some? {
      path := Some(JobFilePath(uuid, upload.value.ext));
      st.files := st.files + {path.value};
    }
    var input := CreateInput(body, path, ai);
    var id := st.NewId();
    var v := ValidateJob(id, input, now);
    if v.Invalid? {
      return ServerError;
    }
    st.SaveJob(v.value);
    r := Success(201, v.value);
  }

  /** PUT /:id: the update is validated before the lookup. */
  method UpdateJob(st: Store, id: Id, body: JobInput) returns (r: Reply<Job>)
    requires st.Valid()
    modifies st
    ensures st.Valid()
    ensures !JobFieldsOk(body, false) ==> r == ServerError && unchanged(st)
    ensures JobFieldsOk(body, false) && id !in old(st.jobs) ==> r == ClientError(404, "Job not found") && unchanged(st)
    ensures JobFieldsOk(body, false) && id in old(st.jobs) ==>
      var j' := PatchJob(old(st.jobs)[id], body).value;
      && st.jobs == old(st.jobs)[id := j'] && r == Success(200, j')
      && st.candidates == old(st.candidates) && st.interviews == old(st.interviews)
      && st.files == old(st.files) && st.outbox == old(st.outbox) && st.nextId == old(st.nextId)
  {
    if !JobFieldsOk(body, false) {
      return ServerError;
    }
    if id !in st.jobs {
      return ClientError(404, "Job not found");
    }
    var p := PatchJob(st.jobs[id], body);
    st.SaveJob(p.value);
    r := Success(200, p.value);
  }

  /** DELETE /:id: remove the description file if it is on disk, then the record.
      `unlinkOk` is whether removing the file succeeds. */
  method DeleteJob(st: Store, id: Id, unlinkOk: bool) returns (r: Reply<()>)
    requires st.Valid()
    modifies st
    ensures st.Valid()
    ensures id !in old(st.jobs) ==> r == ClientError(404, "Job not found") && unchanged(st)
    ensures id in old(st.jobs) ==>
      var path := old(st.jobs)[id].filePath;
      if TruthyStr(path) && path.value in old(st.files) && !unlinkOk then r == ServerError && unchanged(st)
      else
        && r == Success(200, ())
        && st.files == (if TruthyStr(path) then old(st.files) - {path.value} else old(st.files))
        && st.jobs == old(st.jobs) - {id}
        && st.candidates == old(st.candidates) && st.interviews == old(st.interviews)
        && st.outbox == old(st.outbox) && st.nextId == old(st.nextId)
  {
    if id !in st.jobs {
      return ClientError(404, "Job not found");
    }
    var path := st.jobs[id].filePath;
    if TruthyStr(path) && path.value in st.files {
      if !unlinkOk {
        return ServerError;
      }
      st.files := st.files - {path.value};
    }
    st.jobs := st.jobs - {id};
    r := Success(200, ());
  }
}
