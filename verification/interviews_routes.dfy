/**
 * The interview routes (backend/routes/interviews.js): list, fetch, schedule
 * with a notification, the busy-slot query handed to the scheduler, update
 * with a rescheduling notification, feedback and delete.
 */
module InterviewRoutes {
  import opened Common
  import opened Sorting
  import opened Models
  import opened Email
  import opened Db

  /** The body of a scheduling request; absent or falsy fields are `None`. */
  datatype ScheduleRequest = ScheduleRequest(
    candidateId: Option<Id>, jobId: Option<Id>, scheduledDate: Option<Date>,
    duration: Option<int>, location: Option<string>, meetingLink: Option<string>)

  /** What a notification needs from outside: the interview date and time as the
      locale formats them, and whether each of the two sends succeeds. */
  datatype Delivery = Delivery(date: string, time: string, candidateSendOk: bool, hrSendOk: bool)

  /** `$pull`: every occurrence of `x` removed, the rest in order. */
  function Without(xs: seq<Id>, x: Id): (r: seq<Id>)
    ensures forall y :: y in r <==> y in xs && y != x
    ensures |r| <= |xs|
    ensures x !in xs ==> r == xs
    decreases |xs|
  {
    if |xs| == 0 then []
    else if xs[0] == x then Without(xs[1..], x)
    else
      assert xs == [xs[0]] + xs[1..];
      [xs[0]] + Without(xs[1..], x)
  }

  /** Deleting an interview undoes what scheduling it did to the candidate's list. */
  lemma {:induction false} WithoutUndoesAppend(xs: seq<Id>, x: Id)
    requires x !in xs
    ensures Without(xs + [x], x) == xs
    decreases |xs|
  {
    if |xs| == 0 {
      assert xs + [x] == [x];
    } else {
      assert (xs + [x])[1..] == xs[1..] + [x];
      WithoutUndoesAppend(xs[1..], x);
      assert xs == [xs[0]] + xs[1..];
    }
  }

  /** The fields `Interview.create` receives when scheduling (lines 65-73). */
  function ScheduleInput(q: ScheduleRequest): (r: InterviewInput)
    ensures r.candidateId == q.candidateId && r.jobId == q.jobId && r.scheduledDate == q.scheduledDate
    ensures r.duration == Some(if q.duration.Some? && q.duration.value != 0 then q.duration.value else 60)
    ensures r.location == Some(if TruthyStr(q.location) then q.location.value else "Virtual")
    ensures r.meetingLink == q.meetingLink && r.status == Some("Scheduled")
    ensures r.feedback.None? && r.notificationSent.None? && r.createdAt.None? && r.updatedAt.None?
  {
    var d := if q.duration.Some? && q.duration.value != 0 then q.duration.value else 60;
    InterviewInput(q.jobId, q.candidateId, q.scheduledDate, Some(d), Some(OrStr(q.location, "Virtual")),
                   q.meetingLink, Some("Scheduled"), None, None, None, None)
  }

  /** A scheduling request with both references and a date always passes the schema. */
  lemma ScheduleInputValid(q: ScheduleRequest, id: Id, now: Date)
    requires q.candidateId.Some? && q.jobId.Some? && q.scheduledDate.Some?
    ensures ValidateInterview(id, ScheduleInput(q), now).Valid?
    ensures ValidateInterview(id, ScheduleInput(q), now).value.status == Scheduled
    ensures !ValidateInterview(id, ScheduleInput(q), now).value.notificationSent
  {
    assert ParseInterviewStatus("Scheduled") == Some(Scheduled);
  }

  predicate EarlierFirst(a: Interview, b: Interview) {
    a.scheduledDate <= b.scheduledDate
  }

  lemma EarlierFirstIsTotalPreorder()
    ensures Total(EarlierFirst) && Transitive(EarlierFirst)
  {
  }

  /** GET /: every interview, earliest first. */
  method ListInterviews(st: Store) returns (r: Reply<seq<Interview>>)
    ensures r.Success? && r.code == 200
    ensures |r.data| == |st.interviews.Keys|
    ensures forall i :: i in r.data <==> i in st.interviews.Values
    ensures Sorted(r.data, EarlierFirst)
  {
    EarlierFirstIsTotalPreorder();
    var sorted := ListSorted(st.interviews, EarlierFirst);
    r := Success(200, sorted);
  }

  /** GET /:id. */
  method GetInterview(st: Store, id: Id) returns (r: Reply<Interview>)
    ensures id in st.interviews ==> r == Success(200, st.interviews[id])
    ensures id !in st.interviews ==> r == ClientError(404, "Interview not found")
  {
    if id in st.interviews {
      r := Success(200, st.interviews[id]);
    } else {
      r := ClientError(404, "Interview not found");
    }
  }

  /** POST /: check the request, create the interview, link it to the candidate, notify. */
  method ScheduleInterview(st: Store, q: ScheduleRequest, d: Delivery, now: Date) returns (r: Reply<Interview>)
    requires st.Valid()
    modifies st
    ensures st.Valid()
    ensures !(q.candidateId.Some? && q.jobId.Some? && q.scheduledDate.Some?) ==>
      r == ClientError(400, "Please provide candidate ID, job ID, and scheduled date") && unchanged(st)
    ensures q.candidateId.Some? && q.jobId.Some? && q.scheduledDate.Some? && q.candidateId.value !in old(st.candidates) ==>
      r == ClientError(404, "Candidate not found") && unchanged(st)
    ensures q.candidateId.Some? && q.jobId.Some? && q.scheduledDate.Some? && q.candidateId.value in old(st.candidates)
            && q.jobId.value !in old(st.jobs) ==>
      r == ClientError(404, "Job not found") && unchanged(st)
    ensures q.candidateId.Some? && q.jobId.Some? && q.scheduledDate.Some? && q.candidateId.value in old(st.candidates)
            && q.jobId.value in old(st.jobs) ==>
      var id := old(st.nextId);
      var i0 := ValidateInterview(id, ScheduleInput(q), now).value;
      var c := old(st.candidates)[q.candidateId.value];
      var c' := c.(interviews := c.interviews + [id]);
      var n := Notify(st.mail, c', old(st.jobs)[q.jobId.value], i0, d.date, d.time, false, d.candidateSendOk, d.hrSendOk);
      && id !in old(st.interviews)
      && st.interviews == old(st.interviews)[id := i0.(notificationSent := n.1)]
      && st.candidates == old(st.candidates)[q.candidateId.value := c']
      && st.outbox == old(st.outbox) + n.0
      && r == Success(201, i0.(notificationSent := n.1))
      && st.jobs == old(st.jobs) && st.files == old(st.files)
  {
    if !(q.candidateId.Some? && q.jobId.Some? && q.scheduledDate.Some?) {
      return ClientError(400, "Please provide candidate ID, job ID, and scheduled date");
    }
    if q.candidateId.value !in st.candidates {
      return ClientError(404, "Candidate not found");
    }
    if q.jobId.value !in st.jobs {
      return ClientError(404, "Job not found");
    }
    r := Create(st, q, q.candidateId.value, q.jobId.value, d, now);
  }

  /** The creating half of POST /, once both references resolve: store the interview
      under a fresh id, append the id to the candidate's list, send the notification and
      record whether it succeeded. */
  method Create(st: Store, q: ScheduleRequest, cid: Id, jid: Id, d: Delivery, now: Date) returns (r: Reply<Interview>)
    requires st.Valid()
    requires q.candidateId == Some(cid) && q.jobId == Some(jid) && q.scheduledDate.Some?
    requires cid in st.candidates && jid in st.jobs
    modifies st
    ensures st.Valid()
    ensures
      var id := old(st.nextId);
      var i0 := ValidateInterview(id, ScheduleInput(q), now).value;
      var c := old(st.candidates)[cid];
      var c' := c.(interviews := c.interviews + [id]);
      var n := Notify(st.mail, c', old(st.jobs)[jid], i0, d.date, d.time, false, d.candidateSendOk, d.hrSendOk);
      && id !in old(st.interviews)
      && st.interviews == old(st.interviews)[id := i0.(notificationSent := n.1)]
      && st.candidates == old(st.candidates)[cid := c']
      && st.outbox == old(st.outbox) + n.0
      && r == Success(201, i0.(notificationSent := n.1))
      && st.jobs == old(st.jobs) && st.files == old(st.files)
  {
    var c := st.candidates[cid];
    var j := st.jobs[jid];
    var id := st.NewId();
    ScheduleInputValid(q, id, now);
    var iv := ValidateInterview(id, ScheduleInput(q), now).value;
    var c' := c.(interviews := c.interviews + [id]);
    var n := Notify(st.mail, c', j, iv, d.date, d.time, false, d.candidateSendOk, d.hrSendOk);
    var iv' := iv.(notificationSent := n.1);
    PutInterview(st.interviews, st.nextId, iv');
    PutCandidate(st.candidates, st.nextId, c');
    st.interviews := st.interviews[id := iv'];
    st.candidates := st.candidates[cid := c'];
    st.outbox := st.outbox + n.0;
    r := Success(201, iv');
  }

  /** One busy interval as the scheduler receives it. */
  datatype BusySlot = BusySlot(scheduledDate: Date, duration: int)

  /** `Interview.find({status: 'Scheduled'}, 'scheduledDate duration')`. */
  method ScheduledSlots(st: Store) returns (r: seq<BusySlot>)
    ensures forall b :: b in r <==>
      exists i :: i in st.interviews.Values && i.status == Scheduled && b == BusySlot(i.scheduledDate, i.duration)
  {
    var all := Values(st.interviews);
    r := [];
    var k := 0;
    while k < |all|
      invariant 0 <= k <= |all|
      invariant forall b :: b in r <==>
        exists m :: 0 <= m < k && all[m].status == Scheduled && b == BusySlot(all[m].scheduledDate, all[m].duration)
    {
      if all[k].status == Scheduled {
        r := r + [BusySlot(all[k].scheduledDate, all[k].duration)];
      }
      k := k + 1;
    }
    forall b | b in r
      ensures exists i :: i in st.interviews.Values && i.status == Scheduled && b == BusySlot(i.scheduledDate, i.duration)
    {
      var m :| 0 <= m < k && all[m].status == Scheduled && b == BusySlot(all[m].scheduledDate, all[m].duration);
      assert all[m] in all;
    }
    forall b | exists i :: i in st.interviews.Values && i.status == Scheduled && b == BusySlot(i.scheduledDate, i.duration)
      ensures b in r
    {
      var i :| i in st.interviews.Values && i.status == Scheduled && b == BusySlot(i.scheduledDate, i.duration);
      assert i in all;
      var m :| 0 <= m < |all| && all[m] == i;
    }
  }

  /** GET /slots/available: the busy slots go to the scheduler; its reply is passed on. */
  method AvailableSlots<R>(st: Store, scheduler: seq<BusySlot> -> Option<R>) returns (r: Reply<R>, sent: seq<BusySlot>)
    ensures forall b :: b in sent <==>
      exists i :: i in st.interviews.Values && i.status == Scheduled && b == BusySlot(i.scheduledDate, i.duration)
    ensures scheduler(sent).Some? ==> r == Success(200, scheduler(sent).value)
    ensures scheduler(sent).None? ==> r == ServerError
  {
    sent := ScheduledSlots(st);
    var reply := scheduler(sent);
    if reply.Some? {
      r := Success(200, reply.value);
    } else {
      r := ServerError;
    }
  }

  /** PUT /:id: validate, update, and notify when the body asks for `Rescheduled`. */
  method UpdateInterview(st: Store, id: Id, body: InterviewInput, d: Delivery) returns (r: Reply<Interview>)
    requires st.Valid()
    modifies st
    ensures st.Valid()
    ensures !InterviewFieldsOk(body, false) ==> r == ServerError && unchanged(st)
    ensures InterviewFieldsOk(body, false) && id !in old(st.interviews) ==>
      r == ClientError(404, "Interview not found") && unchanged(st)
    ensures InterviewFieldsOk(body, false) && id in old(st.interviews) ==>
      var i1 := PatchInterview(old(st.interviews)[id], body).value;
      && st.candidates == old(st.candidates) && st.jobs == old(st.jobs) && st.files == old(st.files)
      && st.nextId == old(st.nextId)
      && if body.status == Some("Rescheduled") && i1.candidateId in old(st.candidates) && i1.jobId in old(st.jobs) then
           var n := Notify(st.mail, old(st.candidates)[i1.candidateId], old(st.jobs)[i1.jobId], i1,
                           d.date, d.time, true, d.candidateSendOk, d.hrSendOk);
           var i2 := if n.1 then i1.(notificationSent := true) else i1;
           st.interviews == old(st.interviews)[id := i2] && st.outbox == old(st.outbox) + n.0 && r == Success(200, i2)
         else
           st.interviews == old(st.interviews)[id := i1] && st.outbox == old(st.outbox) && r == Success(200, i1)
  {
    if !InterviewFieldsOk(body, false) {
      return ServerError;
    }
    if id !in st.interviews {
      return ClientError(404, "Interview not found");
    }
    r := Apply(st, id, body, d);
  }

  /** The updating half of PUT /:id, once the body passed validation and the interview
      exists: patch it and, for a rescheduling whose candidate and job still exist, send
      the notification and record whether it succeeded. */
  method Apply(st: Store, id: Id, body: InterviewInput, d: Delivery) returns (r: Reply<Interview>)
    requires st.Valid()
    requires InterviewFieldsOk(body, false) && id in st.interviews
    modifies st
    ensures st.Valid()
    ensures
      var i1 := PatchInterview(old(st.interviews)[id], body).value;
      && st.candidates == old(st.candidates) && st.jobs == old(st.jobs) && st.files == old(st.files)
      && st.nextId == old(st.nextId)
      && if body.status == Some("Rescheduled") && i1.candidateId in old(st.candidates) && i1.jobId in old(st.jobs) then
           var n := Notify(st.mail, old(st.candidates)[i1.candidateId], old(st.jobs)[i1.jobId], i1,
                           d.date, d.time, true, d.candidateSendOk, d.hrSendOk);
           var i2 := if n.1 then i1.(notificationSent := true) else i1;
           st.interviews == old(st.interviews)[id := i2] && st.outbox == old(st.outbox) + n.0 && r == Success(200, i2)
         else
           st.interviews == old(st.interviews)[id := i1] && st.outbox == old(st.outbox) && r == Success(200, i1)
  {
    var iv := PatchInterview(st.interviews[id], body).value;
    if body.status == Some("Rescheduled") && iv.candidateId in st.candidates && iv.jobId in st.jobs {
      r := SendRescheduled(st, iv, st.candidates[iv.candidateId], st.jobs[iv.jobId], d);
    } else {
      st.SaveInterview(iv);
      r := Success(200, iv);
    }
  }

  /** The rescheduling notice: the messages delivered join the outbox, and the interview is
      saved, marked as notified exactly when both messages went out. */
  method SendRescheduled(st: Store, iv: Interview, c: Candidate, j: Job, d: Delivery) returns (r: Reply<Interview>)
    requires st.Valid() && iv.id < st.nextId && InterviewOk(iv)
    modifies st
    ensures st.Valid()
    ensures
      var n := Notify(st.mail, c, j, iv, d.date, d.time, true, d.candidateSendOk, d.hrSendOk);
      var i2 := if n.1 then iv.(notificationSent := true) else iv;
      && st.interviews == old(st.interviews)[iv.id := i2] && st.outbox == old(st.outbox) + n.0
      && r == Success(200, i2)
    ensures st.candidates == old(st.candidates) && st.jobs == old(st.jobs) && st.files == old(st.files)
    ensures st.nextId == old(st.nextId)
  {
    var n := Notify(st.mail, c, j, iv, d.date, d.time, true, d.candidateSendOk, d.hrSendOk);
    var iv' := if n.1 then iv.(notificationSent := true) else iv;
    st.SaveInterview(iv');
    st.outbox := st.outbox + n.0;
    r := Success(200, iv');
  }

  /** POST /:id/feedback: all three fields must be truthy; the interview becomes Completed. */
  method AddFeedback(st: Store, id: Id, rating: Option<real>, comments: Option<string>, interviewer: Option<string>)
    returns (r: Reply<Interview>)
    requires st.Valid()
    modifies st
    ensures st.Valid()
    ensures !(rating.Some? && rating.value != 0.0 && TruthyStr(comments) && TruthyStr(interviewer)) ==>
      r == ClientError(400, "Please provide rating, comments, and interviewer") && unchanged(st)
    ensures rating.Some? && rating.value != 0.0 && TruthyStr(comments) && TruthyStr(interviewer) && id !in old(st.interviews) ==>
      r == ClientError(404, "Interview not found") && unchanged(st)
    ensures rating.Some? && rating.value != 0.0 && TruthyStr(comments) && TruthyStr(interviewer) && id in old(st.interviews) ==>
      if !(1.0 <= rating.value <= 5.0) then r == ServerError && unchanged(st)
      else
        var i' := old(st.interviews)[id].(feedback := Some(Feedback(rating, comments, interviewer)), status := Completed);
        && st.interviews == old(st.interviews)[id := i'] && r == Success(200, i')
        && st.candidates == old(st.candidates) && st.jobs == old(st.jobs)
        && st.files == old(st.files) && st.outbox == old(st.outbox) && st.nextId == old(st.nextId)
  {
    if !(rating.Some? && rating.value != 0.0 && TruthyStr(comments) && TruthyStr(interviewer)) {
      return ClientError(400, "Please provide rating, comments, and interviewer");
    }
    if id !in st.interviews {
      return ClientError(404, "Interview not found");
    }
    var iv := st.interviews[id].(feedback := Some(Feedback(rating, comments, interviewer)), status := Completed);
    if !RatingOk(iv.feedback) {
      return ServerError;
    }
    st.SaveInterview(iv);
    r := Success(200, iv);
  }

  /** DELETE /:id: pull the id from its candidate's list (if the candidate still exists), then delete. */
  method DeleteInterview(st: Store, id: Id) returns (r: Reply<()>)
    requires st.Valid()
    modifies st
    ensures st.Valid()
    ensures id !in old(st.interviews) ==> r == ClientError(404, "Interview not found") && unchanged(st)
    ensures id in old(st.interviews) ==>
      var cid := old(st.interviews)[id].candidateId;
      && r == Success(200, ())
      && st.interviews == old(st.interviews) - {id}
      && st.candidates == (if cid in old(st.candidates)
                           then old(st.candidates)[cid := old(st.candidates)[cid].(interviews := Without(old(st.candidates)[cid].interviews, id))]
                           else old(st.candidates))
      && st.jobs == old(st.jobs) && st.files == old(st.files) && st.outbox == old(st.outbox) && st.nextId == old(st.nextId)
  {
    if id !in st.interviews {
      return ClientError(404, "Interview not found");
    }
    var cid := st.interviews[id].candidateId;
    if cid in st.candidates {
      var c := st.candidates[cid];
      var c' := c.(interviews := Without(c.interviews, id));
      st.SaveCandidate(c');
    }
    st.interviews := st.interviews - {id};
    r := Success(200, ());
  }
}
