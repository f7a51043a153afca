/**
 * Interview notifications (backend/utils/email.js). A notification is two
 * messages: one to the candidate and one to the recruiting team. The message
 * bodies are modelled as sequences of blocks (headings, paragraphs, labelled
 * items, the meeting link); rendering the blocks as HTML markup is not
 * modelled. The mail transport is an oracle: whether each send succeeds is a
 * parameter.
 */
module Email {
  import opened Common
  import opened Text
  import opened Models

  datatype Block =
    | Heading(text: string)
    | Para(text: string)
    | Item(key: string, value: string)
    | LinkItem(url: string)

  datatype Mail = Mail(from: string, to: string, subject: string, body: seq<Block>)

  /** Sender and recipient settings taken from the environment. */
  datatype MailConfig = MailConfig(fromAddress: string, hrAddress: string)

  const NoSummary: string := "No summary available."
  const PrepareNote: string := "Please be prepared to discuss your qualifications and experience related to this position. If you need to reschedule or have any questions, please contact us as soon as possible."
  const HrNote: string := "Please ensure all necessary preparations are made for the interview."

  /** The subject of the candidate's message. */
  function Subject(title: string, company: string, rescheduled: bool): (r: string)
    ensures rescheduled ==> StartsWith(r, "RESCHEDULED: Interview for ")
    ensures !rescheduled ==> StartsWith(r, "Interview Scheduled: ")
    ensures EndsWith(r, title + " at " + company)
    ensures |r| == (if rescheduled then 27 else 21) + |title| + 4 + |company|
  {
    var prefix := if rescheduled then "RESCHEDULED: Interview for " else "Interview Scheduled: ";
    var r := prefix + (title + " at " + company);
    assert r[..|prefix|] == prefix;
    assert r[|r| - |title + " at " + company|..] == title + " at " + company;
    r
  }

  /** A rescheduling subject is never mistaken for a first-scheduling one. */
  lemma SubjectsDistinguishRescheduling(t1: string, c1: string, t2: string, c2: string)
    ensures Subject(t1, c1, true) != Subject(t2, c2, false)
  {
    var a := Subject(t1, c1, true);
    var b := Subject(t2, c2, false);
    assert a[0] == 'R';
    assert b[0] == 'I';
  }

  /** The recruiting team's subject is the candidate's subject behind a fixed prefix. */
  function HrSubject(subject: string): (r: string)
    ensures StartsWith(r, "HR Notification: ") && EndsWith(r, subject)
    ensures |r| == |subject| + 17
  {
    var prefix := "HR Notification: ";
    var r := prefix + subject;
    assert r[..|prefix|] == prefix;
    assert r[|r| - |subject|..] == subject;
    r
  }

  /** The meeting-link item, present only for a truthy link. */
  function LinkBlocks(link: Option<string>): (r: seq<Block>)
    ensures |r| <= 1
    ensures forall b :: b in r <==> TruthyStr(link) && b == LinkItem(link.value)
  {
    if TruthyStr(link) then [LinkItem(link.value)] else []
  }

  /** The interview-details items shared by both messages. */
  function DetailBlocks(i: Interview, date: string, time: string): (r: seq<Block>)
    ensures Item("Location", i.location) in r && Item("Date", date) in r && Item("Time", time) in r
    ensures Item("Duration", IntToString(i.duration) + " minutes") in r
    ensures forall u :: LinkItem(u) in r <==> TruthyStr(i.meetingLink) && u == i.meetingLink.value
  {
    [ Item("Date", date), Item("Time", time),
      Item("Duration", IntToString(i.duration) + " minutes"),
      Item("Location", i.location) ]
    + LinkBlocks(i.meetingLink)
  }

  /** The greeting line of the candidate's message. */
  function Greeting(name: string): string {
    "Hello " + name + ","
  }

  /** The sentence announcing the interview for the position. */
  function Announcement(rescheduled: bool, title: string, company: string): string {
    var verb := if rescheduled then "rescheduled" else "scheduled";
    "We are pleased to inform you that an interview has been " + verb
    + " for the position of " + title + " at " + company + "."
  }

  /** The candidate's message up to the interview details. */
  function CandidateIntro(c: Candidate, j: Job, rescheduled: bool): (r: seq<Block>)
    ensures Para(Greeting(c.name)) in r
    ensures forall u :: LinkItem(u) !in r
  {
    [ Heading(if rescheduled then "Your interview has been rescheduled" else "Interview Scheduled"),
      Para(Greeting(c.name)),
      Para(Announcement(rescheduled, j.title, j.company)),
      Heading("Interview Details:") ]
  }

  /** The candidate's message after the interview details: the job summary and the sign-off. */
  function CandidateClosing(j: Job): (r: seq<Block>)
    ensures Para(OrStr(Some(j.summary), NoSummary)) in r
    ensures forall u :: LinkItem(u) !in r
  {
    [ Heading("Job Description Summary:"),
      Para(OrStr(Some(j.summary), NoSummary)),
      Para(PrepareNote),
      Para("Best regards, Recruitment Team, " + j.company) ]
  }

  /** Membership in a message assembled from three parts. */
  lemma InParts(head: seq<Block>, details: seq<Block>, tail: seq<Block>)
    ensures forall b :: b in head + details + tail <==> b in head || b in details || b in tail
  {
  }

  function CandidateBody(c: Candidate, j: Job, i: Interview, date: string, time: string, rescheduled: bool): (r: seq<Block>)
    ensures Para(Greeting(c.name)) in r
    ensures Para(OrStr(Some(j.summary), NoSummary)) in r
    ensures Item("Location", i.location) in r && Item("Date", date) in r && Item("Time", time) in r
    ensures Item("Duration", IntToString(i.duration) + " minutes") in r
    ensures forall u :: LinkItem(u) in r <==> TruthyStr(i.meetingLink) && u == i.meetingLink.value
  {
    var head := CandidateIntro(c, j, rescheduled);
    var details := DetailBlocks(i, date, time);
    var tail := CandidateClosing(j);
    var r := head + details + tail;
    assert forall b :: b in details ==> b in r;
    assert forall u :: LinkItem(u) in r ==> LinkItem(u) in details;
    r
  }

  /** The recruiting team's message up to the interview details: who the candidate is. */
  function HrIntro(c: Candidate, j: Job, rescheduled: bool): (r: seq<Block>)
    ensures Item("Name", c.name) in r && Item("Email", c.email) in r && Item("Position", j.title) in r
    ensures Item("Phone", OrStr(c.phone, "Not provided")) in r
    ensures forall u :: LinkItem(u) !in r
  {
    var verb := if rescheduled then "rescheduled" else "scheduled";
    [ Heading(if rescheduled then "Interview Rescheduled" else "Interview Scheduled"),
      Para("An interview has been " + verb + " for the following candidate:"),
      Heading("Candidate Information:"),
      Item("Name", c.name), Item("Email", c.email),
      Item("Phone", OrStr(c.phone, "Not provided")),
      Heading("Interview Details:"),
      Item("Position", j.title) ]
  }

  /** The team's message after the interview details: the candidate's summary and a note. */
  function HrClosing(c: Candidate): (r: seq<Block>)
    ensures Para(OrStr(Some(c.summary), NoSummary)) in r
    ensures forall u :: LinkItem(u) !in r
  {
    [ Heading("Candidate Summary:"),
      Para(OrStr(Some(c.summary), NoSummary)),
      Para(HrNote) ]
  }

  function HrBody(c: Candidate, j: Job, i: Interview, date: string, time: string, rescheduled: bool): (r: seq<Block>)
    ensures Item("Name", c.name) in r && Item("Email", c.email) in r && Item("Position", j.title) in r
    ensures Item("Phone", OrStr(c.phone, "Not provided")) in r
    ensures Para(OrStr(Some(c.summary), NoSummary)) in r
    ensures Item("Location", i.location) in r && Item("Date", date) in r && Item("Time", time) in r
    ensures Item("Duration", IntToString(i.duration) + " minutes") in r
    ensures forall u :: LinkItem(u) in r <==> TruthyStr(i.meetingLink) && u == i.meetingLink.value
  {
    var head := HrIntro(c, j, rescheduled);
    var details := DetailBlocks(i, date, time);
    var tail := HrClosing(c);
    InParts(head, details, tail);
    head + details + tail
  }

  function CandidateMail(cfg: MailConfig, c: Candidate, j: Job, i: Interview, date: string, time: string, rescheduled: bool): (m: Mail)
    ensures m.to == c.email
    ensures m.subject == Subject(j.title, j.company, rescheduled)
  {
    Mail("\"" + j.company + " Recruitment\" <" + cfg.fromAddress + ">", c.email,
         Subject(j.title, j.company, rescheduled), CandidateBody(c, j, i, date, time, rescheduled))
  }

  function HrMail(cfg: MailConfig, c: Candidate, j: Job, i: Interview, date: string, time: string, rescheduled: bool): (m: Mail)
    ensures m.to == cfg.hrAddress
    ensures m.subject == HrSubject(Subject(j.title, j.company, rescheduled))
  {
    Mail("\"Recruitment System\" <" + cfg.fromAddress + ">", cfg.hrAddress,
         HrSubject(Subject(j.title, j.company, rescheduled)), HrBody(c, j, i, date, time, rescheduled))
  }

  /** The messages delivered by one notification, in order, and whether it reported success.
      The candidate's message goes first; the team's is tried only once the first was
      delivered; success means both were. */
  function Notify(cfg: MailConfig, c: Candidate, j: Job, i: Interview, date: string, time: string,
                  rescheduled: bool, candidateSendOk: bool, hrSendOk: bool): (r: (seq<Mail>, bool))
    ensures r.1 <==> candidateSendOk && hrSendOk
    ensures |r.0| == (if !candidateSendOk then 0 else if !hrSendOk then 1 else 2)
    ensures |r.0| > 0 ==> r.0[0] == CandidateMail(cfg, c, j, i, date, time, rescheduled) && r.0[0].to == c.email
    ensures |r.0| > 1 ==> r.0[1] == HrMail(cfg, c, j, i, date, time, rescheduled)
    ensures |r.0| > 1 ==> r.0[1].to == cfg.hrAddress && r.0[1].subject == HrSubject(r.0[0].subject)
  {
    if !candidateSendOk then ([], false)
    else if !hrSendOk then ([CandidateMail(cfg, c, j, i, date, time, rescheduled)], false)
    else ([CandidateMail(cfg, c, j, i, date, time, rescheduled), HrMail(cfg, c, j, i, date, time, rescheduled)], true)
  }
}
