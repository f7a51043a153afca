/**
 * The candidate routes (backend/routes/candidates.js): list, fetch, upload a
 * resume and create, match against a job, update and delete. The AI service's
 * replies, the generated file name and the clock are parameters.
 */
module CandidateRoutes {
  import opened Common
  import opened Text
  import opened Sorting
  import opened Models
  import opened Db

  /** The uploaded resume file; `ext` is its extension as `path.extname` gives it. */
  datatype ResumeUpload = ResumeUpload(ext: string)

  /** The optional form fields sent with the upload. */
  datatype UploadForm = UploadForm(name: Option<string>, email: Option<string>)

  /** Both AI replies; the merge only happens when both calls succeeded. */
  datatype ResumeAi = ResumeAi(parsed: ParsedResume, summary: SummaryReply)

  function ResumePath(uuid: string, ext: string): (r: string)
    ensures |r| > 0 && StartsWith(r, "uploads/resumes/")
  {
    var r := "uploads/resumes/" + (uuid + ext);
    assert r[..16] == "uploads/resumes/";
    r
  }

  /** The fields handed to `Candidate.create` by an upload. */
  function UploadInput(form: UploadForm, ai: Option<ResumeAi>, path: string): (r: CandidateInput)
    ensures r.resumePath == Some(path) && r.status == Some("New")
    ensures r.name.Some? && r.name.value != "" && r.email.Some? && r.email.value != ""
    ensures r.matches.None? && r.interviews.None? && r.createdAt.None? && r.updatedAt.None?
    ensures ai.None? ==>
      && r.name == Some(OrStr(form.name, "Unknown")) && r.email == Some(OrStr(form.email, PlaceholderEmail))
      && r.phone.None? && r.skills.None? && r.experience.None? && r.education.None?
      && r.parsedData.None? && r.summary.None?
    ensures ai.Some? ==>
      && r.name == Some(OrStr(ai.value.parsed.name, OrStr(form.name, "Unknown")))
      && r.email == Some(OrStr(ai.value.parsed.email, OrStr(form.email, PlaceholderEmail)))
      && r.phone == Some(OrStr(ai.value.parsed.phone, ""))
      && r.skills == Some(ai.value.parsed.skills.GetOr([]))
      && r.experience == Some(ai.value.parsed.experience.GetOr([]))
      && r.education == Some(ai.value.parsed.education.GetOr([]))
      && r.parsedData == Some(ai.value.parsed)
      && r.summary == Some(ai.value.summary.summary)
  {
    var name := OrStr(form.name, "Unknown");
    var email := OrStr(form.email, PlaceholderEmail);
    match ai
    case None =>
      CandidateInput(Some(name), Some(email), None, None, None, None, None, None, Some(path), Some("New"),
                     None, None, None, None)
    case Some(a) =>
      var p := a.parsed;
      CandidateInput(
        Some(OrStr(p.name, name)), Some(OrStr(p.email, email)), Some(OrStr(p.phone, "")),
        Some(p.skills.GetOr([])), Some(p.experience.GetOr([])), Some(p.education.GetOr([])),
        Some(p), Some(a.summary.summary), Some(path), Some("New"), None, None, None, None)
  }

  const PlaceholderEmail: string := "unknown@example.com"

  /** The placeholder address is already trimmed and lower-case. */
  lemma PlaceholderIsNormal()
    ensures NormalizeEmail(PlaceholderEmail) == PlaceholderEmail
  {
    PlaceholderIsTrimmed();
    PlaceholderIsLower();
  }

  lemma PlaceholderIsTrimmed()
    ensures Trim(PlaceholderEmail) == PlaceholderEmail
  {
    var e := PlaceholderEmail;
    assert !IsJsSpace(e[0]) && !IsJsSpace(e[|e| - 1]);
    TrimOfTrimmed(e);
  }

  lemma PlaceholderIsLower()
    ensures Lower(PlaceholderEmail) == PlaceholderEmail
  {
    var e := PlaceholderEmail;
    assert forall i :: 0 <= i < |e| ==> !IsUpperChar(e[i]);
    LowerOfLower(e);
  }

  /** The placeholder address has the shape the schema's email pattern demands. */
  lemma PlaceholderHasEmailShape()
    ensures EmailShape(PlaceholderEmail)
  {
    var e := PlaceholderEmail;
    assert forall i :: 0 <= i < |e| ==> !IsJsSpace(e[i]);
    assert e[7] == '@' && e[15] == '.';
  }

  /** "Unknown" is its own trimmed form. */
  lemma UnknownIsTrimmed()
    ensures Trim("Unknown") == "Unknown"
  {
    var n := "Unknown";
    assert !IsJsSpace(n[0]) && !IsJsSpace(n[|n| - 1]);
    TrimOfTrimmed(n);
  }

  /** A create input carrying the placeholder name and address, a resume path and the
      status `New` passes the schema. */
  lemma PlaceholderFieldsOk(input: CandidateInput)
    requires input.name == Some("Unknown") && input.email == Some(PlaceholderEmail)
    requires RequiredStr(input.resumePath) && input.status == Some("New")
    ensures CandidateFieldsOk(input, true)
  {
    PlaceholderIsNormal();
    PlaceholderHasEmailShape();
    UnknownIsTrimmed();
    assert ParseCandidateStatus("New") == Some(New);
  }

  /** An upload with no form fields, whose AI reply (if any) found neither a name nor an
      address, creates the placeholder candidate. */
  lemma PlaceholderUploadIsValid(id: Id, ai: Option<ResumeAi>, path: string, now: Date)
    requires path != ""
    requires ai.Some? ==> ai.value.parsed.name.None? && ai.value.parsed.email.None?
    ensures ValidateCandidate(id, UploadInput(UploadForm(None, None), ai, path), now).Valid?
    ensures var c := ValidateCandidate(id, UploadInput(UploadForm(None, None), ai, path), now).value;
      c.name == "Unknown" && c.email == PlaceholderEmail && c.status == New && c.resumePath == path
  {
    var input := UploadInput(UploadForm(None, None), ai, path);
    PlaceholderFieldsOk(input);
    PlaceholderIsNormal();
    UnknownIsTrimmed();
  }

  /** Lines 68-88 as written: `summary` receives the summarize reply object itself,
      which the store cannot cast to a string, so `Candidate.create` fails. */
  function CreateAsWritten(id: Id, form: UploadForm, ai: Option<ResumeAi>, path: string, now: Date): (r: Validated<Candidate>)
    ensures ai.Some? ==> r == Invalid({"summary"})
    ensures ai.None? ==> r == ValidateCandidate(id, UploadInput(form, ai, path), now)
  {
    var summary := if ai.Some? then Some(ReplyObject(ai.value.summary)) else None;
    if summary.Some? && CastString(summary.value).None? then Invalid({"summary"})
    else ValidateCandidate(id, UploadInput(form, ai, path), now)
  }

  /** A resume the AI service parses without finding a name or address: as written the
      upload fails with a server error; storing the reply's text creates the placeholder
      candidate. */
  lemma AiUploadFailsAsWritten(id: Id, ai: Option<ResumeAi>, path: string, now: Date)
    requires path != "" && ai.Some? && ai.value.parsed.name.None? && ai.value.parsed.email.None?
    ensures CreateAsWritten(id, UploadForm(None, None), ai, path, now).Invalid?
    ensures ValidateCandidate(id, UploadInput(UploadForm(None, None), ai, path), now).Valid?
  {
    PlaceholderUploadIsValid(id, ai, path, now);
  }

  // ---------------------------------------------------------------------
  // match entries

  /** The index of the first entry for `jobId`, or -1 (`findIndex`). */
  function IndexOfJob(ms: seq<MatchEntry>, jobId: Id): (k: int)
    ensures -1 <= k < |ms|
    ensures k >= 0 ==> ms[k].jobId == jobId && forall i :: 0 <= i < k ==> ms[i].jobId != jobId
    ensures k == -1 ==> forall i :: 0 <= i < |ms| ==> ms[i].jobId != jobId
    decreases |ms|
  {
    if |ms| == 0 then -1
    else if ms[0].jobId == jobId then 0
    else
      var k := IndexOfJob(ms[1..], jobId);
      if k == -1 then -1 else k + 1
  }

  /** The loop behind `matches.findIndex(...)`. */
  method FindMatchIndex(ms: seq<MatchEntry>, jobId: Id) returns (k: int)
    ensures -1 <= k < |ms|
    ensures k >= 0 ==> ms[k].jobId == jobId && forall i :: 0 <= i < k ==> ms[i].jobId != jobId
    ensures k == -1 ==> forall i :: 0 <= i < |ms| ==> ms[i].jobId != jobId
  {
    k := 0;
    while k < |ms|
      invariant 0 <= k <= |ms|
      invariant forall i :: 0 <= i < k ==> ms[i].jobId != jobId
    {
      if ms[k].jobId == jobId {
        return;
      }
      k := k + 1;
    }
    k := -1;
  }

  /** Lines 123-143: overwrite the first entry for the job in place, or append one at the
      end. Every other entry, a later one for the same job included, stays where it was. */
  function UpsertMatch(ms: seq<MatchEntry>, e: MatchEntry): (r: seq<MatchEntry>)
    ensures |r| == (if IndexOfJob(ms, e.jobId) >= 0 then |ms| else |ms| + 1)
    ensures forall i :: 0 <= i < |ms| && i != IndexOfJob(ms, e.jobId) ==> r[i] == ms[i]
    ensures IndexOfJob(ms, e.jobId) >= 0 ==> r[IndexOfJob(ms, e.jobId)] == e
    ensures IndexOfJob(ms, e.jobId) < 0 ==> r[|ms|] == e
  {
    var k := IndexOfJob(ms, e.jobId);
    if k >= 0 then
      var r := ms[k := e];
      assert r[k] == e;
      r
    else
      var r := ms + [e];
      assert r[|ms|] == e;
      r
  }

  /** Upserting keeps at most one entry per job, and the job's entry is the new one. */
  lemma {:induction false} UpsertMatchUnique(ms: seq<MatchEntry>, e: MatchEntry)
    requires MatchesUnique(ms)
    ensures MatchesUnique(UpsertMatch(ms, e))
    ensures forall i :: 0 <= i < |UpsertMatch(ms, e)| && UpsertMatch(ms, e)[i].jobId == e.jobId ==> UpsertMatch(ms, e)[i] == e
  {
    var r := UpsertMatch(ms, e);
    var k := IndexOfJob(ms, e.jobId);
    if k >= 0 {
      assert r == ms[k := e];
      forall a, b | 0 <= a < b < |r| ensures r[a].jobId != r[b].jobId {
        if a != k && b != k {
          assert r[a] == ms[a] && r[b] == ms[b];
        } else if a == k {
          assert r[b] == ms[b];
        } else {
          assert r[a] == ms[a];
        }
      }
      forall i | 0 <= i < |r| && r[i].jobId == e.jobId ensures r[i] == e {
        if i != k {
          assert false;
        }
      }
    } else {
      assert r == ms + [e];
      forall i | 0 <= i < |r| && r[i].jobId == e.jobId ensures r[i] == e {
        if i < |ms| {
          assert false;
        }
      }
    }
  }

  /** Upserting twice for the same job is the same as upserting the second entry once. */
  lemma UpsertMatchOverwrites(ms: seq<MatchEntry>, e1: MatchEntry, e2: MatchEntry)
    requires e1.jobId == e2.jobId
    ensures UpsertMatch(UpsertMatch(ms, e1), e2) == UpsertMatch(ms, e2)
  {
    var k := IndexOfJob(ms, e1.jobId);
    var r1 := UpsertMatch(ms, e1);
    if k >= 0 {
      assert r1 == ms[k := e1];
      assert forall i :: 0 <= i < k ==> r1[i] == ms[i];
      assert r1[k] == e1;
      assert IndexOfJob(r1, e2.jobId) == k;
    } else {
      assert r1 == ms + [e1];
      assert forall i :: 0 <= i < |ms| ==> r1[i] == ms[i];
      assert r1[|ms|] == e1;
      assert IndexOfJob(r1, e2.jobId) == |ms|;
    }
  }

  /** What the match route answers: the saved candidate and the raw AI values. */
  datatype MatchResult = MatchResult(candidate: Candidate, matchScore: Option<real>, gaps: Option<seq<string>>)

  /** The AI replies: each may lack its field, and the call itself may fail. */
  datatype MatchReply = MatchReply(score: Option<real>)
  datatype GapReply = GapReply(gaps: Option<seq<string>>)

  /** The entry the route writes; a missing score or gap list takes the schema default. */
  function NewEntry(jobId: Id, m: MatchReply, g: GapReply, now: Date): (e: MatchEntry)
    ensures e.jobId == jobId && e.matchDate == now
    ensures e.score == (if m.score.Some? then m.score.value else 0.0)
    ensures e.gaps == (if g.gaps.Some? then g.gaps.value else [])
  {
    MatchEntry(jobId, m.score.GetOr(0.0), g.gaps.GetOr([]), now)
  }

  // ---------------------------------------------------------------------
  // routes

  predicate NewerFirst(a: Candidate, b: Candidate) {
    a.createdAt >= b.createdAt
  }

  lemma NewerFirstIsTotalPreorder()
    ensures Total(NewerFirst) && Transitive(NewerFirst)
  {
  }

  /** GET /: every candidate, newest first. */
  method ListCandidates(st: Store) returns (r: Reply<seq<Candidate>>)
    ensures r.Success? && r.code == 200
    ensures |r.data| == |st.candidates.Keys|
    ensures forall c :: c in r.data <==> c in st.candidates.Values
    ensures Sorted(r.data, NewerFirst)
  {
    NewerFirstIsTotalPreorder();
    var cs := ListSorted(st.candidates, NewerFirst);
    r := Success(200, cs);
  }

  /** GET /:id. */
  method GetCandidate(st: Store, id: Id) returns (r: Reply<Candidate>)
    ensures id in st.candidates ==> r == Success(200, st.candidates[id])
    ensures id !in st.candidates ==> r == ClientError(404, "Candidate not found")
  {
    if id in st.candidates {
      r := Success(200, st.candidates[id]);
    } else {
      r := ClientError(404, "Candidate not found");
    }
  }

  /** POST /: store the file, merge the AI replies, create. */
  method CreateCandidate(st: Store, upload: Option<ResumeUpload>, form: UploadForm, ai: Option<ResumeAi>,
                         uuid: string, now: Date) returns (r: Reply<Candidate>)
    requires st.Valid()
    modifies st
    ensures st.Valid()
    ensures upload.None? ==> r == ClientError(400, "Please upload a resume file") && unchanged(st)
    ensures upload.Some? ==>
      var path := ResumePath(uuid, upload.value.ext);
      var v := ValidateCandidate(old(st.nextId), UploadInput(form, ai, path), now);
      && st.files == old(st.files) + {path}
      && st.jobs == old(st.jobs) && st.interviews == old(st.interviews) && st.outbox == old(st.outbox)
      && old(st.nextId) !in old(st.candidates)
      && (v.Valid? ==> r == Success(201, v.value) && st.candidates == old(st.candidates)[v.value.id := v.value])
      && (v.Invalid? ==> r == ServerError && st.candidates == old(st.candidates))
  {
    if upload.None? {
      return ClientError(400, "Please upload a resume file");
    }
    var path := ResumePath(uuid, upload.value.ext);
    st.files := st.files + {path};
    var input := UploadInput(form, ai, path);
    var id := st.NewId();
    var v := ValidateCandidate(id, input, now);
    if v.Invalid? {
      return ServerError;
    }
    st.SaveCandidate(v.value);
    r := Success(201, v.value);
  }

  /** POST /:id/match/:jobId. */
  method MatchCandidate(st: Store, id: Id, jobId: Id, matchAi: Option<MatchReply>, gapAi: Option<GapReply>, now: Date)
    returns (r: Reply<MatchResult>)
    requires st.Valid()
    modifies st
    ensures st.Valid()
    ensures id !in old(st.candidates) ==> r == ClientError(404, "Candidate not found") && unchanged(st)
    ensures id in old(st.candidates) && jobId !in old(st.jobs) ==>
      r == ClientError(404, "Job not found") && unchanged(st)
    ensures id in old(st.candidates) && jobId in old(st.jobs) && (matchAi.None? || gapAi.None?) ==>
      r == ServerError && unchanged(st)
    ensures id in old(st.candidates) && jobId in old(st.jobs) && matchAi.Some? && gapAi.Some? ==>
      var c := old(st.candidates)[id];
      var c' := c.(matches := UpsertMatch(c.matches, NewEntry(jobId, matchAi.value, gapAi.value, now)));
      && st.candidates == old(st.candidates)[id := c']
      && (MatchesUnique(c.matches) ==> MatchesUnique(c'.matches))
      && r == Success(200, MatchResult(c', matchAi.value.score, gapAi.value.gaps))
      && st.jobs == old(st.jobs) && st.interviews == old(st.interviews)
      && st.files == old(st.files) && st.outbox == old(st.outbox) && st.nextId == old(st.nextId)
  {
    if id !in st.candidates {
      return ClientError(404, "Candidate not found");
    }
    if jobId !in st.jobs {
      return ClientError(404, "Job not found");
    }
    if matchAi.None? || gapAi.None? {
      return ServerError;
    }
    var c := st.candidates[id];
    var e := NewEntry(jobId, matchAi.value, gapAi.value, now);
    var k := FindMatchIndex(c.matches, jobId);
    assert k == IndexOfJob(c.matches, jobId);
    var ms := if k > -1 then c.matches[k := e] else c.matches + [e];
    if MatchesUnique(c.matches) {
      UpsertMatchUnique(c.matches, e);
    }
    var c' := c.(matches := ms);
    st.SaveCandidate(c');
    r := Success(200, MatchResult(c', matchAi.value.score, gapAi.value.gaps));
  }

  /** PUT /:id: the update is validated before the lookup. */
  method UpdateCandidate(st: Store, id: Id, body: CandidateInput) returns (r: Reply<Candidate>)
    requires st.Valid()
    modifies st
    ensures st.Valid()
    ensures !CandidateFieldsOk(body, false) ==> r == ServerError && unchanged(st)
    ensures CandidateFieldsOk(body, false) && id !in old(st.candidates) ==>
      r == ClientError(404, "Candidate not found") && unchanged(st)
    ensures CandidateFieldsOk(body, false) && id in old(st.candidates) ==>
      var c' := PatchCandidate(old(st.candidates)[id], body).value;
      && st.candidates == old(st.candidates)[id := c'] && r == Success(200, c')
      && st.jobs == old(st.jobs) && st.interviews == old(st.interviews)
      && st.files == old(st.files) && st.outbox == old(st.outbox) && st.nextId == old(st.nextId)
  {
    if !CandidateFieldsOk(body, false) {
      return ServerError;
    }
    if id !in st.candidates {
      return ClientError(404, "Candidate not found");
    }
    var p := PatchCandidate(st.candidates[id], body);
    PatchCandidateKeepsOk(st.candidates[id], body);
    st.SaveCandidate(p.value);
    r := Success(200, p.value);
  }

  /** DELETE /:id: remove the resume file if it is on disk, then the record.
      `unlinkOk` is whether removing the file succeeds. */
  method DeleteCandidate(st: Store, id: Id, unlinkOk: bool) returns (r: Reply<()>)
    requires st.Valid()
    modifies st
    ensures st.Valid()
    ensures id !in old(st.candidates) ==> r == ClientError(404, "Candidate not found") && unchanged(st)
    ensures id in old(st.candidates) ==>
      var path := old(st.candidates)[id].resumePath;
      if path in old(st.files) && !unlinkOk then r == ServerError && unchanged(st)
      else
        && r == Success(200, ())
        && st.files == old(st.files) - {path}
        && st.candidates == old(st.candidates) - {id}
        && st.jobs == old(st.jobs) && st.interviews == old(st.interviews)
        && st.outbox == old(st.outbox) && st.nextId == old(st.nextId)
  {
    if id !in st.candidates {
      return ClientError(404, "Candidate not found");
    }
    var path := st.candidates[id].resumePath;
    if path in st.files {
      if !unlinkOk {
        return ServerError;
      }
      st.files := st.files - {path};
    }
    st.candidates := st.candidates - {id};
    r := Success(200, ());
  }
}
