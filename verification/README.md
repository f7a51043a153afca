# Recruitment system core, modelled in Dafny

This project models the deterministic core of a recruitment system. The system has three parts:

- a Node/Express backend that stores jobs, candidates and interviews in a document store and mails interview notifications;
- a Python AI service whose agents parse resumes and job descriptions, summarize texts, detect skill gaps and propose interview slots;
- a React front end whose pages filter, sort and edit lists held in component state.

Each part is modelled in the form its code takes:

- **Backend routes.** The store (`Db.Store`) is a class holding one map per collection, the set of uploaded files, the delivered mail and the next free id. Each route handler is a method that changes the store, and its `ensures` states the response and the complete new state. The store's well-formedness invariant (every record sits under its own id, below the next free id, and passes its schema) is preserved by every handler. An update body may write any schema path, match entries included, so uniqueness of match entries per job is not part of that invariant; the match route keeps it where it already held.
- **Schemas.** The three schemas (`Models`) are validating and defaulting functions that return either the stored record or the list of failed fields.
- **Notification mail.** The mail (`Email`) is a pair of messages built from blocks. Whether each send succeeds is a parameter.
- **Loops in the agents.** The slot generator's loops, the chunking and summarizing loops, the gap-detection loops and the skill collection are methods with loop invariants. Each is proved against a function that states what the loop computes. Lemmas then prove what the code promises about that function: soundness and completeness of the slots, words kept across chunks, and sortedness of the skills.
- **Pure code.** Pure code (section extraction, first-line heuristics, the simplified agents, the front-end reducers) consists of functions with lemmas relating them to each other. Examples are undoing an add by a remove, the idempotence of cleaning, and permutation and order of the sorted lists.

The following are parameters of the operations: the AI service's replies, the language and similarity models, regular-expression matches, the mail transport, file existence, generated file names and the clock.

Time is counted in whole minutes. Strings are `seq<char>`, and case folding and whitespace classes are modelled for ASCII letters and the listed whitespace characters.

The modules `Text`, `Lists`, `Sorting` and `Common` are shared helpers. They model the language built-ins the code relies on:

- Python `str.strip`, `str.split` and `str.lower`;
- JavaScript `trim`, `toLowerCase` and `includes`;
- `filter`;
- `Array.prototype.sort` and Python `sorted` with a comparator.

## Model

| member | source | states |
|---|---|---|
| Models.CastString | backend/models/Candidate.js:36-39 | a string value is stored as it is; the summarize reply object is refused by the `String` cast |
| Models.ParseCandidateStatus | backend/models/Candidate.js:44-48 | exactly the five status names are accepted, each as the status it names |
| Models.NormalizeEmail | backend/models/Candidate.js:9-15 | the `trim` and `lowercase` setters leave no upper-case letter in the address |
| Models.CandidateErrors | backend/models/Candidate.js:3-48 | the set of failing paths is empty exactly when the fields satisfy the schema |
| Models.ValidateCandidate | backend/models/Candidate.js:3-79 | creation succeeds exactly when the name (trimmed) and resume path are non-empty, the normalised address matches the pattern and the status is one of the five; the stored candidate meets the schema, carries the trimmed/lower-cased values, the given matches, interviews and dates or their defaults (empty lists, now); otherwise the failing paths are reported |
| Models.PatchCandidate | backend/routes/candidates.js:163-166 | an update validates only the fields it carries; when they pass, every carried field replaces the stored one (name trimmed, address normalised), matches, interviews, createdAt and updatedAt included, and only the id always stays |
| Models.PatchCandidateKeepsOk | backend/routes/candidates.js:163-166 | an update that passes validation keeps a stored candidate within the schema |
| Models.ParseInterviewStatus | backend/models/Interview.js:29-33 | exactly the four interview statuses are accepted, each as the status it names |
| Models.InterviewErrors | backend/models/Interview.js:3-46 | the set of failing paths is empty exactly when the fields satisfy the schema |
| Models.ValidateInterview | backend/models/Interview.js:3-59 | creation succeeds exactly when job, candidate and date are given, the status is valid and any rating lies in 1..5; the stored interview has the given values and the defaults (60 minutes, `Virtual`, `Scheduled`, not notified, both dates now) |
| Models.PatchInterview | backend/routes/interviews.js:112-116 | an update validates only the fields it carries; every carried field (references, date, duration, location, link, status, feedback, flag, createdAt, updatedAt) replaces the stored one, the id stays, and a valid rating stays valid |
| Models.ParseJobType | backend/models/Job.js:41-45 | exactly the four job types are accepted, each as the type it names |
| Models.ParseJobStatus | backend/models/Job.js:50-54 | exactly `Open`, `Closed` and `On Hold` are accepted |
| Models.EnumNamesRoundTrip | backend/models/Job.js:41-54 | every enum value's name parses back to that value, for all four enums |
| Models.JobErrors | backend/models/Job.js:3-54 | the set of failing paths is empty exactly when the fields satisfy the schema |
| Models.ValidateJob | backend/models/Job.js:3-66 | creation succeeds exactly when the trimmed title, description and company are non-empty and both enums are valid; the stored job has the given values and the defaults (`Remote`, `Full-time`, `Competitive`, `Open`, both dates now) |
| Models.PatchJob | backend/routes/jobs.js:91-94 | an update validates only the fields it carries; every carried field (title, description, company, type, status, lists, summary, file, createdAt, updatedAt) replaces the stored one and the id stays |
| Models.PatchKeepsJobOk | backend/routes/jobs.js:91-94 | an update that passes validation keeps a stored job's title trimmed and non-empty and its description and company non-empty |
| CandidateRoutes.ResumePath | backend/routes/candidates.js:45-48 | the stored file name is a non-empty path under `uploads/resumes/` |
| CandidateRoutes.UploadInput | backend/routes/candidates.js:53-81 | the fields handed to `Candidate.create`: the form's name and address or the placeholders, status `New`, the file path, no matches, interviews or dates; when both AI calls succeed each parsed field takes precedence and the lists default to empty |
| CandidateRoutes.PlaceholderFieldsOk | backend/routes/candidates.js:53-58 | the placeholder name and address, a resume path and status `New` pass the schema |
| CandidateRoutes.PlaceholderUploadIsValid | backend/routes/candidates.js:53-88 | an upload without form fields, whose parse (if any) found no name or address, creates the candidate `Unknown` / `unknown@example.com` with status `New` and the file path |
| CandidateRoutes.CreateAsWritten | backend/routes/candidates.js:68-88 | as written, a successful AI parse stores the summarize reply object into `summary` and creation fails; without AI it is the ordinary creation |
| CandidateRoutes.AiUploadFailsAsWritten | backend/routes/candidates.js:68-88 | a resume parsed without name or address: the written route fails while storing the reply's text creates a valid candidate |
| CandidateRoutes.IndexOfJob | backend/routes/candidates.js:123-125 | `findIndex`: the first entry for the job, or -1 when there is none |
| CandidateRoutes.FindMatchIndex | backend/routes/candidates.js:123-125 | the search loop returns the first index whose entry is for the job, or -1 exactly when no entry is |
| CandidateRoutes.UpsertMatch | backend/routes/candidates.js:127-143 | when the job has an entry, the first one is overwritten in place and the length stays; otherwise the entry is appended at the end; every other position, a later entry for the same job included, keeps its entry |
| CandidateRoutes.UpsertMatchUnique | backend/routes/candidates.js:127-143 | upserting keeps at most one entry per job and that entry is the new one |
| CandidateRoutes.UpsertMatchOverwrites | backend/routes/candidates.js:127-143 | matching twice against one job leaves the same list as matching once with the second result |
| CandidateRoutes.NewEntry | backend/models/Candidate.js:49-66 | the written entry carries the job, the match time, and the reply's score and gaps or their schema defaults 0 and [] |
| CandidateRoutes.NewerFirstIsTotalPreorder | backend/routes/candidates.js:13 | ordering by descending creation date is total and transitive, so the sort is well defined |
| CandidateRoutes.ListCandidates | backend/routes/candidates.js:11-18 | every stored candidate exactly once, newest first |
| CandidateRoutes.GetCandidate | backend/routes/candidates.js:21-35 | the stored candidate, or 404 `Candidate not found` |
| CandidateRoutes.CreateCandidate | backend/routes/candidates.js:38-94 | no file gives 400 and changes nothing; otherwise the file is stored and the validated candidate is saved under a fresh id (201), or nothing is created and the reply is 500 |
| CandidateRoutes.MatchCandidate | backend/routes/candidates.js:97-158 | 404 for a missing candidate, then for a missing job; 500 when an AI call fails; otherwise only the candidate's matches change, by the upsert, uniqueness per job is kept when it held, and the reply carries the raw score and gaps |
| CandidateRoutes.UpdateCandidate | backend/routes/candidates.js:161-176 | invalid fields give 500 before the lookup; a missing id gives 404; otherwise only that candidate changes, to its validated patch, which may replace its matches, interviews and dates |
| CandidateRoutes.DeleteCandidate | backend/routes/candidates.js:179-201 | 404 for a missing id; otherwise the resume file (if on disk) and the record are removed and nothing else changes; a failed unlink gives 500 and changes nothing |
| JobRoutes.JobFilePath | backend/routes/jobs.js:45-53 | the stored file name is a non-empty path under `uploads/jobs/` |
| JobRoutes.CreateInput | backend/routes/jobs.js:55-80 | the fields handed to `Job.create`: the body's own fields untouched, the file path or nothing, and, only with a file and both AI replies, the parsed lists (empty when absent), the parsed data and the summary text |
| JobRoutes.MissingDescriptionRejected | backend/routes/jobs.js:38-40 | a body with title and company but no description passes the route's check and is refused by the schema for its description |
| JobRoutes.CreateJobAsWritten | backend/routes/jobs.js:62-80 | as written, a file with both AI replies stores the summarize reply object into `summary` and creation fails; otherwise it is the ordinary creation |
| JobRoutes.EnrichmentKeepsFieldsOk | backend/routes/jobs.js:55-73 | the AI enrichment never changes whether the schema accepts the posting |
| JobRoutes.AiJobFailsAsWritten | backend/routes/jobs.js:62-80 | a posting the schema accepts, sent with a file the AI handles, fails as written and succeeds when the reply's text is stored |
| JobRoutes.JobNewerFirstIsTotalPreorder | backend/routes/jobs.js:12 | ordering by descending creation date is total and transitive |
| JobRoutes.ListJobs | backend/routes/jobs.js:10-17 | every stored job exactly once, newest first |
| JobRoutes.GetJob | backend/routes/jobs.js:20-32 | the stored job, or 404 `Job not found` |
| JobRoutes.CreateJob | backend/routes/jobs.js:35-86 | a missing title or company gives 400 and changes nothing; otherwise the file (if any) is stored and the validated job is saved under a fresh id (201), or nothing is created and the reply is 500 |
| JobRoutes.UpdateJob | backend/routes/jobs.js:89-104 | invalid fields give 500 before the lookup; a missing id gives 404; otherwise only that job changes, to its validated patch, dates included when the body carries them |
| JobRoutes.DeleteJob | backend/routes/jobs.js:107-129 | 404 for a missing id; otherwise the description file (if on disk) and the record are removed and nothing else changes; a failed unlink gives 500 and changes nothing |
| InterviewRoutes.Without | backend/routes/interviews.js:179-181 | `$pull`: exactly the other ids remain, and a list without the id is unchanged |
| InterviewRoutes.WithoutUndoesAppend | backend/routes/interviews.js:76-77 | pulling an id that was appended to a list without it gives the list back |
| InterviewRoutes.ScheduleInput | backend/routes/interviews.js:65-73 | the created interview's fields: the references and date from the request, duration 60 and location `Virtual` when falsy, status `Scheduled`, no dates given (so both default to now) |
| InterviewRoutes.ScheduleInputValid | backend/routes/interviews.js:65-73 | a request with both references and a date always passes the schema, as a `Scheduled`, not yet notified interview |
| InterviewRoutes.EarlierFirstIsTotalPreorder | backend/routes/interviews.js:15 | ordering by ascending scheduled date is total and transitive |
| InterviewRoutes.ListInterviews | backend/routes/interviews.js:10-21 | every stored interview exactly once, earliest first |
| InterviewRoutes.GetInterview | backend/routes/interviews.js:24-38 | the stored interview, or 404 `Interview not found` |
| InterviewRoutes.ScheduleInterview | backend/routes/interviews.js:41-93 | 400 without candidate, job or date; 404 for a missing candidate, then a missing job, changing nothing; otherwise the new interview, the candidate's appended reference and the delivered mail, with `notificationSent` set exactly when the notification succeeded |
| InterviewRoutes.Create | backend/routes/interviews.js:65-90 | the interview is stored under a fresh id, the id appended to the candidate's list, the delivered mail joins the outbox, jobs and files untouched |
| InterviewRoutes.ScheduledSlots | backend/routes/interviews.js:99-100 | exactly the date and duration of each `Scheduled` interview |
| InterviewRoutes.AvailableSlots | backend/routes/interviews.js:96-107 | the busy intervals of the scheduled interviews go to the scheduler; its reply is passed on with 200, a failure gives 500 |
| InterviewRoutes.UpdateInterview | backend/routes/interviews.js:110-139 | invalid fields give 500, a missing id 404, changing nothing; otherwise the interview is patched (dates included when the body carries them) and, when the body asks for `Rescheduled` and both references resolve, the rescheduling notice is sent and recorded |
| InterviewRoutes.Apply | backend/routes/interviews.js:112-136 | the patched interview is saved; only a rescheduling with both references resolving sends mail; candidates, jobs and files untouched |
| InterviewRoutes.SendRescheduled | backend/routes/interviews.js:122-133 | the delivered mail joins the outbox and the interview is saved, marked notified exactly when the notice succeeded |
| InterviewRoutes.AddFeedback | backend/routes/interviews.js:142-167 | 400 unless rating, comments and interviewer are all truthy; 404 for a missing id; a rating outside 1..5 gives 500 and changes nothing; otherwise the feedback is stored and the status becomes `Completed` |
| InterviewRoutes.DeleteInterview | backend/routes/interviews.js:170-189 | 404 for a missing id; otherwise the interview is removed and its id pulled from its candidate's list (when that candidate exists); nothing else changes |
| Db.Store.constructor | backend/config/db.js:3-14 | an empty store: no records, no files, no mail, satisfying every schema invariant |
| Db.Store.NewId | backend/routes/candidates.js:88 | a fresh document id, held by no record, with every collection unchanged |
| Db.Store.SaveCandidate | backend/routes/candidates.js:143 | `candidate.save()`: the candidate replaces whatever its id held, the store stays valid, nothing else changes |
| Db.Store.SaveInterview | backend/routes/interviews.js:84-85 | `interview.save()`: the interview replaces whatever its id held, nothing else changes |
| Db.Store.SaveJob | backend/routes/jobs.js:91-94 | the job replaces whatever its id held, nothing else changes |
| Db.Values | backend/routes/interviews.js:99-100 | the records of a collection, one per key |
| Db.ListSorted | backend/routes/candidates.js:13 | `find().sort(...)`: every stored record exactly once, in the requested order |
| Email.Subject | backend/utils/email.js:36-38 | the subject starts with `RESCHEDULED: Interview for ` or `Interview Scheduled: ` and ends with the title ` at ` the company, its length being exactly the prefix, title, ` at ` and company lengths added, so nothing else lies between them |
| Email.SubjectsDistinguishRescheduling | backend/utils/email.js:36-38 | no rescheduling subject equals a scheduling subject, whatever the titles and companies |
| Email.HrSubject | backend/utils/email.js:101 | the team's subject is `HR Notification: ` followed by the candidate's subject |
| Email.LinkBlocks | backend/utils/email.js:51 | the meeting-link line appears exactly when the link is truthy, and at most once |
| Email.DetailBlocks | backend/utils/email.js:45-52 | the details list the location, date, time and the duration in minutes, and the meeting link exactly when it is truthy |
| Email.CandidateIntro | backend/utils/email.js:41-43 | the greeting addresses the candidate by name; no link appears |
| Email.CandidateClosing | backend/utils/email.js:54-59 | the job summary, or `No summary available.`, is shown; no link appears |
| Email.CandidateBody | backend/utils/email.js:40-60 | the candidate's message greets them by name, gives location, date, time and duration, the job summary or its fallback, and the link exactly when there is one |
| Email.HrIntro | backend/utils/email.js:63-79 | the team's message lists name, e-mail, phone (or `Not provided`) and position |
| Email.HrClosing | backend/utils/email.js:83-86 | the candidate summary, or `No summary available.`, is shown |
| Email.HrBody | backend/utils/email.js:62-87 | the team's message lists the candidate's contact data, the position, location, date, time and duration, the candidate summary or its fallback, and the link exactly when there is one |
| Email.CandidateMail | backend/utils/email.js:90-95 | addressed to the candidate with the scheduling subject |
| Email.HrMail | backend/utils/email.js:98-103 | addressed to the configured team address with the `HR Notification: ` subject |
| Email.Notify | backend/utils/email.js:22-106 | the candidate's message (to the candidate's address) is sent first and the team's message only after it; success is reported exactly when both were delivered; zero, one or two messages reach the outbox accordingly |
| Scheduler.PositiveInt | ai-service/agents/scheduler.py:115-116 | `isinstance(v, int) and v > 0`: accepts exactly positive integers and `True`, answering a positive number |
| Scheduler.ParseDuration | ai-service/agents/scheduler.py:109-117 | the duration preference when it is a positive integer, otherwise 60; always positive |
| Scheduler.ParseNumSlots | ai-service/agents/scheduler.py:119-127 | the slot-count preference when it is a positive integer, otherwise 10; always positive |
| Scheduler.ParseBusinessHours | ai-service/agents/scheduler.py:86-96 | without `businessHours` the defaults 9, 17 and Monday-Friday; otherwise each key that is present, defaulting the others |
| Scheduler.ParseExistingSlots | ai-service/agents/scheduler.py:129-152 | the loop builds exactly the busy intervals of the usable entries, in order |
| Scheduler.BusyTimesMeaning | ai-service/agents/scheduler.py:129-152 | an interval is busy exactly when some entry with a date and an acceptable duration gives it; an entry without duration blocks 60 minutes |
| Scheduler.IsFree | ai-service/agents/scheduler.py:188-195 | the conflict loop answers free exactly when the slot overlaps no busy interval |
| Scheduler.DaySlotsMeaning | ai-service/agents/scheduler.py:174-203 | a day's slots are exactly the free half-hour grid points whose slot ends by closing time, in increasing order |
| Scheduler.GenerateDaySlots | ai-service/agents/scheduler.py:174-203 | `_generate_day_slots`: the loop yields the day's free grid points from the opening hour |
| Scheduler.FirstBusinessDayMeaning | ai-service/agents/scheduler.py:41-47 | the day found is the first business day from the start; when none of seven days is one, no later day ever is |
| Scheduler.NextBusinessDay | ai-service/agents/scheduler.py:41-47 | the forward search stops at the first business day, or never stops when `days` names no weekday |
| Scheduler.CollectedGrows | ai-service/agents/scheduler.py:55-69 | examining more days only appends slots |
| Scheduler.Take | ai-service/agents/scheduler.py:62-63 | `available_slots[:num_slots]`: a prefix of the list, of length at most `num_slots` |
| Scheduler.Format | ai-service/agents/scheduler.py:72-79 | one slot per start, ending `duration` minutes later |
| Scheduler.TakeOfLonger | ai-service/agents/scheduler.py:62-64 | stopping early once `num_slots` are found gives the same slots as examining all ten days and cutting |
| Scheduler.CollectSlots | ai-service/agents/scheduler.py:49-69 | the day loop yields the first `num_slots` slots of the ten days examined |
| Scheduler.AddDay | ai-service/agents/scheduler.py:56-60 | a business day contributes its slots, any other day nothing |
| Scheduler.GetSlots | ai-service/agents/scheduler.py:18-84 | `get_slots` answers the formatted slots, raises for an hour outside 0-23, or never returns when no weekday is a business day |
| Scheduler.SlotsOfDayMeaning | ai-service/agents/scheduler.py:174-203 | a day's slots are its free grid points, lie within the day, and increase |
| Scheduler.CollectedMeaning | ai-service/agents/scheduler.py:49-69 | the collected slots are the free grid points of the business days examined, increasing across days |
| Scheduler.GetSlotsSound | ai-service/agents/scheduler.py:18-84 | at most `num_slots` slots, each of the chosen duration, each a free grid point of a business day examined, in increasing order |
| Scheduler.TakenSound | ai-service/agents/scheduler.py:55-79 | the cut and formatted list has those four properties for any positive count |
| Scheduler.GetSlotsComplete | ai-service/agents/scheduler.py:18-84 | when fewer than `num_slots` are offered, every free grid point of every business day examined is offered |
| Scheduler.TakenComplete | ai-service/agents/scheduler.py:55-79 | fewer than `n` slots taken means every free grid point of an examined business day is among them |
| Scheduler.StartsComplete | ai-service/agents/scheduler.py:55-69 | the same completeness for the unformatted starts |
| Scheduler.FormatHas | ai-service/agents/scheduler.py:72-79 | every collected start is offered as a slot of the duration |
| Scheduler.AvailableSlots | ai-service/agents/scheduler.py:41-84 | an answer with slots means a business day was found, both hours are valid, and the slots are the first `num_slots` collected from that day |
| Scheduler.DivergesExactly | ai-service/agents/scheduler.py:43-47 | `get_slots` never returns exactly when no day after today is a business day |
| Summarization.CleanText | ai-service/agents/summarization.py:65-76 | the text's words joined by single spaces, cut to the first 3000 words |
| Summarization.CleanTextIdempotent | ai-service/agents/summarization.py:65-76 | cleaning a cleaned text changes nothing |
| Summarization.ChunkingWell | ai-service/agents/summarization.py:78-103 | the word groups cover the words in order, each within the 1000-character budget unless it is one over-long word, greedily filled, with an empty group only first and only for an over-long first word |
| Summarization.GroupWords | ai-service/agents/summarization.py:80-101 | the running-length loop forms exactly those greedy groups |
| Summarization.ChunkStrings | ai-service/agents/summarization.py:78-103 | the chunks split back into well-formed groups of the text's words; no chunks for a text without words |
| Summarization.SplitIntoChunks | ai-service/agents/summarization.py:78-103 | `_split_into_chunks` yields exactly those chunks |
| Summarization.FormatResumeSummary | ai-service/agents/summarization.py:105-116 | the result starts with `Professional Summary: `, and after it neither `The candidate`, `They have` nor `Their` occurs |
| Summarization.FormatResumeSummaryPlain | ai-service/agents/summarization.py:105-116 | a summary without the four rewritten phrases only gains the prefix |
| Summarization.FormatJobSummary | ai-service/agents/summarization.py:118-127 | the result starts with `Job Overview: `, and after it neither `The company is looking for` nor `The position requires` occurs |
| Text.ReplaceRemoves | ai-service/agents/summarization.py:111-114 | `str.replace` leaves no occurrence of the pattern when the pattern cannot overlap a copy of the replacement |
| Text.ReplaceKeepsAbsent | ai-service/agents/summarization.py:111-114 | `str.replace` creates no occurrence of a string that was absent and cannot overlap a copy of the replacement |
| Summarization.FormatJobSummaryPlain | ai-service/agents/summarization.py:118-127 | a summary without the two rewritten phrases only gains the prefix |
| Summarization.FormatByType | ai-service/agents/summarization.py:57-63 | the resume prefix for `resume`, the job prefix for `job`, the combined text unchanged otherwise |
| Summarization.FallbackSummary | ai-service/agents/summarization.py:49-52 | the fallback ends with a full stop, and splitting it before that stop at `.` gives back the first three pieces of the chunk (fewer when there are fewer), each after the first with the joining space; a chunk without `.` becomes itself plus `.` |
| Summarization.ChunkSummaries | ai-service/agents/summarization.py:37-52 | at most one summary per chunk |
| Summarization.ShortChunksIgnored | ai-service/agents/summarization.py:39-41 | chunks of fewer than 30 words add nothing: one summary per long chunk, the same as for the long chunks alone |
| Summarization.SummaryOfShape | ai-service/agents/summarization.py:27-63 | a text of fewer than 50 words comes back cleaned without prefix; a longer one carries the prefix of its type |
| Summarization.AddSummary | ai-service/agents/summarization.py:38-52 | one pass of the chunk loop: a short chunk is skipped, otherwise the model's summary or the fallback is appended |
| Summarization.Summarize | ai-service/agents/summarization.py:15-63 | `summarize` answers exactly the specified summary |
| SimpleAgents.FirstLine | ai-service/agents/simple_agents.py:11-14 | the first line: it holds no line break, and the content is that line alone or that line, a break and more, so the fallback is never used |
| SimpleAgents.ParseResume | ai-service/agents/simple_agents.py:8-34 | the name is the first line; e-mail, phone and skills are the fixed values, with one education and one experience entry |
| SimpleAgents.ParseJob | ai-service/agents/simple_agents.py:39-63 | the title is the first line; company, location, type, the three requirements, three responsibilities and four skills are fixed |
| SimpleAgents.SubsetCard | ai-service/agents/simple_agents.py:76 | a subset has no more elements than its superset |
| SimpleAgents.Match | ai-service/agents/simple_agents.py:68-89 | the score lies in [0, 1]; it is 0.5 when the job names no skill, and otherwise the score times the number of distinct job skills (ignoring case) is the number of them on the resume, so it is 1 exactly when every job skill is on the resume and 0 exactly when none is; `skillsScore` equals it, the other two are 0.5 |
| SimpleAgents.MoreSkillsNeverLower | ai-service/agents/simple_agents.py:73-82 | a resume whose skills (ignoring case) include another's never scores lower against the same job |
| SimpleAgents.OverlapFacts | ai-service/agents/simple_agents.py:76-82 | the overlap is no larger than the job's skills, as large exactly when it covers them |
| SimpleAgents.SameCardSubset | ai-service/agents/simple_agents.py:82 | a subset as large as its superset is the superset |
| SimpleAgents.SimpleSummary | ai-service/agents/simple_agents.py:94-106 | the type's prefix, then the content when at most 100 characters, else its first 100 characters and `...` |
| SimpleAgents.SimpleGaps | ai-service/agents/simple_agents.py:111-132 | the missing skills are exactly the job skills, in order and case, whose lower-case form is not a resume skill, each kept as often as the job lists it; the missing requirements are the first requirement when there is one; the gaps are both, in that order |
| GapDetection.LowerAll | ai-service/agents/gap_detection.py:53-54 | each skill lower-cased, in place |
| GapDetection.MissingSkills | ai-service/agents/gap_detection.py:47-92 | the missing skills are job skills; every job skill when either list is empty; never a job skill matching a resume skill ignoring case |
| GapDetection.SemanticOnlyRemoves | ai-service/agents/gap_detection.py:66-90 | the semantic step only removes skills from the exact-match result, exactly those above 0.75, and none when no skill is above it |
| GapDetection.Indices | ai-service/agents/gap_detection.py:68 | `range(n)`: exactly the numbers 0 to n-1 |
| GapDetection.ExactPass | ai-service/agents/gap_detection.py:57-64 | the matched indices are those whose lower-cased skill is a resume skill; the missing set is the other job skills |
| GapDetection.SemanticPass | ai-service/agents/gap_detection.py:80-87 | the remaining indices whose best similarity exceeds the threshold |
| GapDetection.DetectMissingSkills | ai-service/agents/gap_detection.py:47-92 | the loops compute exactly the specified missing skills |
| GapDetection.Pairs | ai-service/agents/gap_detection.py:110-113 | at most one `key: value` entry per field, for the non-empty values |
| GapDetection.EducationTexts | ai-service/agents/gap_detection.py:107-115 | one text per education entry |
| GapDetection.ExperienceTexts | ai-service/agents/gap_detection.py:118-126 | one text per experience entry |
| GapDetection.ResumeParts | ai-service/agents/gap_detection.py:100-126 | a part for each of skills, education and experience that is present, each non-empty |
| GapDetection.ResumeText | ai-service/agents/gap_detection.py:129 | the combined text is empty exactly when the resume has no skills, education or experience |
| GapDetection.MissingRequirements | ai-service/agents/gap_detection.py:94-147 | an order-preserving subsequence of the requirements: none for no requirements, all of them for an empty resume, otherwise exactly those whose similarity is below 0.6 |
| GapDetection.DetectMissingRequirements | ai-service/agents/gap_detection.py:94-147 | the loop computes exactly the specified missing requirements |
| GapDetection.MissingRequirementsFilter | ai-service/agents/gap_detection.py:139-145 | with requirements and resume text, the missing requirements are the requirements filtered by the threshold |
| GapDetection.Detect | ai-service/agents/gap_detection.py:15-45 | the listed missing skills are the missing-skill set, each once; the requirements are the missing requirements; the gaps are skills then requirements |
| Sections.FindFrom | ai-service/agents/resume_parser.py:271-274 | the first index from `i` whose line passes the test, or the end when none does |
| Sections.FindFromUnique | ai-service/agents/resume_parser.py:271-274 | the first passing index is the only index with those properties |
| Sections.MentionsAnyMeaning | ai-service/agents/resume_parser.py:272 | the scan is the test "some requested header, lower-cased, occurs in the lower-cased line" |
| Sections.MentionsOtherMeaning | ai-service/agents/resume_parser.py:289 | the scan is the test "some common header that is not requested occurs in the line" |
| Sections.OnlyColonLinesEnd | ai-service/agents/resume_parser.py:284-286 | because the line is lower-cased before `isupper()`, only a colon-terminated line can close a section |
| Sections.Section | ai-service/agents/resume_parser.py:264-299 | the section text is stripped |
| Sections.SectionAbsent | ai-service/agents/resume_parser.py:270-277 | no line with a requested header means an empty section |
| Sections.SectionBetween | ai-service/agents/resume_parser.py:264-299 | with the first header line and the first closing line after it (or the end), the section is the stripped join of the lines strictly between |
| Sections.FirstHeaderAt | ai-service/agents/resume_parser.py:271-274 | the header scan stops at the first header line |
| Sections.FirstClosingAt | ai-service/agents/resume_parser.py:283-291 | the closing scan stops at the first closing line after the header, or at the end |
| Sections.FirstOf | ai-service/agents/resume_parser.py:271-291 | a line passing the test with none before it is where the scan stops |
| Sections.FindHeaderLine | ai-service/agents/resume_parser.py:267-277 | the first loop answers the first header line, or -1 |
| Sections.FindEndLine | ai-service/agents/resume_parser.py:283-295 | the second loop answers the first closing line after the start, or the number of lines |
| Sections.ExtractSection | ai-service/agents/resume_parser.py:264-299 | `_extract_section` computes exactly the specified section |
| ResumeParser.ExtractSection | ai-service/agents/resume_parser.py:264-299 | the resume's section: stripped, and empty when no line has a requested header |
| ResumeParser.Head | ai-service/agents/resume_parser.py:64 | `lines[:10]`: the first ten lines, or all when fewer |
| ResumeParser.NameFallbackNone | ai-service/agents/resume_parser.py:62-70 | `Unknown` when none of the first ten lines, stripped, has 2-5 words all starting upper-case |
| ResumeParser.NameFallbackFirst | ai-service/agents/resume_parser.py:62-70 | otherwise the first such line, stripped, which is never `Unknown` |
| ResumeParser.UnknownIsNoName | ai-service/agents/resume_parser.py:70 | the word `Unknown` does not itself look like a name |
| ResumeParser.ExtractName | ai-service/agents/resume_parser.py:55-70 | the person entity when there is one, else the name fallback |
| ResumeParser.FirstNameLine | ai-service/agents/resume_parser.py:64-68 | the loop stops at the first qualifying line |
| ResumeParser.ContainsChar | ai-service/agents/resume_parser.py:230 | `c in s` for a one-character pattern is membership |
| ResumeParser.FirstPiece | ai-service/agents/resume_parser.py:231-232 | the first piece of a split is the text before the first separator |
| ResumeParser.PipeRule | ai-service/agents/resume_parser.py:230-233 | a `\|` always wins: the title is the stripped text before the first `\|` |
| ResumeParser.DashRule | ai-service/agents/resume_parser.py:234-237 | without `\|`, a dash splits only when the duration is not in the line; the title is the stripped text before the first dash |
| ResumeParser.EmptyDurationSkipsDashAndComma | ai-service/agents/resume_parser.py:234-252 | with an empty duration (contained in every string) neither dash nor comma splits: the `at` rule or the first two lines decide |
| ResumeParser.AtSplit | ai-service/agents/resume_parser.py:242-245 | the `at` rule gives lower-case title and company, and the title holds no `at` |
| ResumeParser.StripLower | ai-service/agents/resume_parser.py:243-245 | stripping lower-case text keeps it lower-case |
| ResumeParser.StripKeepsAbsent | ai-service/agents/resume_parser.py:244 | stripping never creates an occurrence of a pattern |
| ResumeParser.Entry | ai-service/agents/resume_parser.py:201-260 | no entry exactly when the block is blank or its title and company (`BlockTitleCompany`: the title rules on the first line, with the second line as fallback) are both empty; otherwise those title and company, the block's duration, and as description the stripped lines from the third on (empty for shorter blocks) |
| ResumeParser.Experiences | ai-service/agents/resume_parser.py:201-262 | at most one entry per block: every entry is the entry of some block, and every block that has an entry contributes it |
| ResumeParser.ExperiencesOfOne | ai-service/agents/resume_parser.py:201-260 | a single block yields its entry, or nothing when it has none |
| ResumeParser.ExperiencesConcat | ai-service/agents/resume_parser.py:201-262 | the entries of two block lists in a row are the entries of the first followed by those of the second, so the entries keep block order |
| ResumeParser.ExperienceOf | ai-service/agents/resume_parser.py:189-262 | no entries without an experience section; otherwise every entry is the entry of one of the section's blocks and every block with an entry contributes it; each entry has a title or a company |
| ResumeParser.EntriesOf | ai-service/agents/resume_parser.py:201-262 | the entry loop computes exactly the entries of the blocks |
| ResumeParser.ExtractExperience | ai-service/agents/resume_parser.py:189-262 | `_extract_experience`, with the split corrected, computes exactly the specified entries |
| ResumeParser.Groups | ai-service/agents/resume_parser.py:199 | each boundary contributes the values of the pattern's two capturing groups, one of which is None |
| ResumeParser.SplitWithGroups | ai-service/agents/resume_parser.py:199 | `re.split` with capturing groups: a section split at least once yields a None item |
| ResumeParser.Pieces | ai-service/agents/resume_parser.py:199 | the pieces the split was evidently meant to yield, one more than the boundaries |
| ResumeParser.ExperiencesAsWritten | ai-service/agents/resume_parser.py:201-203 | as written, the loop raises exactly when some item is None |
| ResumeParser.ExperienceRaisesAsWritten | ai-service/agents/resume_parser.py:199-203 | any experience section split at least once makes the written parser raise, while the pieces themselves yield well-formed entries |
| ResumeParser.MentionedSkills | ai-service/agents/resume_parser.py:104-108 | exactly the known terms the text mentions |
| ResumeParser.KeptSound | ai-service/agents/resume_parser.py:118-121 | every kept skill is the stripped form of a piece of length 2-30 |
| ResumeParser.KeptComplete | ai-service/agents/resume_parser.py:118-121 | every piece whose stripped length is 2-30 is kept, stripped |
| ResumeParser.KeptExactly | ai-service/agents/resume_parser.py:118-121 | a string is kept exactly when it is the stripped form of some piece of 2-30 characters |
| ResumeParser.SkillSet | ai-service/agents/resume_parser.py:104-121 | without a skills section the collected skills are just the mentioned terms; with one, a string is collected exactly when it is a mentioned term or the stripped form of a section piece of 2-30 characters |
| ResumeParser.KeptIsStripped | ai-service/agents/resume_parser.py:119-121 | every kept skill is stripped and 2-30 characters long |
| ResumeParser.FindMentioned | ai-service/agents/resume_parser.py:105-108 | the loop over the known terms finds exactly the mentioned ones |
| ResumeParser.AddKept | ai-service/agents/resume_parser.py:118-121 | the loop over the section's pieces adds exactly the kept ones |
| ResumeParser.AddPiece | ai-service/agents/resume_parser.py:119-121 | one pass adds the stripped piece exactly when it is 2-30 characters long |
| ResumeParser.CollectSkills | ai-service/agents/resume_parser.py:104-121 | the collection computes exactly the specified skill set |
| ResumeParser.SortedList | ai-service/agents/resume_parser.py:123 | `sorted(list(s))`: each element once, in code-point order |
| ResumeParser.ExtractSkills | ai-service/agents/resume_parser.py:93-123 | the collected skills, sorted, each once |
| JdParser.ExtractSection | ai-service/agents/jd_parser.py:222-257 | the job description's section with its own common headers: stripped, and empty when no line has a requested header |
| JdParser.Head | ai-service/agents/jd_parser.py:72 | `lines[:5]`: the first five lines, or all when fewer |
| JdParser.TitleFallback | ai-service/agents/jd_parser.py:70-77 | the fallback title is non-empty and shorter than 100 characters |
| JdParser.TitleFallbackNone | ai-service/agents/jd_parser.py:70-77 | `Unknown Position` when none of the first five lines, stripped, is non-empty and under 100 characters |
| JdParser.TitleFallbackFirst | ai-service/agents/jd_parser.py:71-75 | otherwise the first such line, stripped |
| JdParser.FirstTitleLine | ai-service/agents/jd_parser.py:72-75 | the loop stops at the first usable line |
| JdParser.ExtractTitle | ai-service/agents/jd_parser.py:57-77 | the stripped text of the first matching title pattern, else the fallback |
| JdParser.ExtractCompany | ai-service/agents/jd_parser.py:79-99 | the stripped text of the first matching company pattern, else the organisation entity, else `Unknown Company` |
| JdParser.StrippedItems | ai-service/agents/jd_parser.py:117 | the items are the non-blank inputs, stripped, in input order (a subsequence of the stripped inputs), each as often as it occurs there; every item is stripped, non-empty and the strip of some input, and every non-blank input appears stripped |
| JdParser.Items | ai-service/agents/jd_parser.py:111-121 | no items for an absent section; with bullets, the non-blank stripped bullets in order, each as often as it occurs among them; otherwise the same for the sentences; every item stripped and non-empty |
| JdParser.ExtractRequirements | ai-service/agents/jd_parser.py:101-123 | the `Items` of the requirements section: an ordered subsequence of its stripped bullets (or sentences), each stripped and non-empty, every non-blank one kept |
| JdParser.ExtractResponsibilities | ai-service/agents/jd_parser.py:125-147 | the `Items` of the responsibilities section: an ordered subsequence of its stripped bullets (or sentences), each stripped and non-empty, every non-blank one kept |
| JdParser.FirstCategory | ai-service/agents/jd_parser.py:214-217 | the first category, in the order tried, with a keyword in the text |
| JdParser.FirstCategoryUnique | ai-service/agents/jd_parser.py:214-217 | the first matching category is the only index with those properties |
| JdParser.Capitalize | ai-service/agents/jd_parser.py:217 | `str.capitalize()` keeps the length and the letters up to case; the first character ends up not lower-case (upper-case when it was a lower-case letter) and every later one not upper-case |
| JdParser.JobTypeOf | ai-service/agents/jd_parser.py:203-220 | the job type is always one the job record accepts: the first matching category's capitalised name, or `Full-time` |
| JdParser.JobTypePrecedence | ai-service/agents/jd_parser.py:205-217 | a full-time keyword decides whatever else the text says; each later type is reported only when its keyword occurs and no earlier category matches |
| JdParser.CategoryFound | ai-service/agents/jd_parser.py:215-217 | the keyword loop of one category answers whether some keyword occurs as a word |
| JdParser.ExtractJobType | ai-service/agents/jd_parser.py:203-220 | `_extract_job_type` computes exactly the specified type |
| Dashboard.Search | frontend/src/pages/Dashboard.jsx:96-106 | the survivors keep their order; an empty term keeps everyone; otherwise every copy of a candidate stays exactly when the lower-cased term occurs in its lower-cased name, e-mail or a skill |
| Dashboard.ScoreOrderIsTotalPreorder | frontend/src/pages/Dashboard.jsx:110-111 | descending match score is a total preorder |
| Dashboard.NameOrderIsTotalPreorder | frontend/src/pages/Dashboard.jsx:112-113 | ascending name is a total preorder |
| Dashboard.OrderSorts | frontend/src/pages/Dashboard.jsx:109-116 | sorting orders by descending score for `matchScore`, by name for `name`, and keeps the order otherwise |
| Dashboard.Displayed | frontend/src/pages/Dashboard.jsx:95-119 | a permutation of the search result, by descending score, by ascending name, or in loaded order according to the option |
| Dashboard.EmptySearchShowsEveryone | frontend/src/pages/Dashboard.jsx:97-98 | with an empty term every loaded candidate is displayed exactly once |
| Dashboard.FindById | frontend/src/pages/Dashboard.jsx:122 | `find`: the first candidate with the id, or nothing exactly when none has it |
| Dashboard.ScheduleInterview | frontend/src/pages/Dashboard.jsx:121-125 | the dialog opens with the first loaded candidate carrying the id, or with none exactly when no candidate has it |
| InterviewsPage.AddSlot | frontend/src/pages/Interviews.jsx:72-74 | one blank slot with the current time as id, after the others |
| InterviewsPage.AddKeepsIdsDistinct | frontend/src/pages/Interviews.jsx:72-74 | a fresh id keeps the slot ids distinct |
| InterviewsPage.RemoveSlot | frontend/src/pages/Interviews.jsx:76-80 | with more than one slot, every copy of a slot with another id remains, in order, and none with the id; a single slot is never removed |
| InterviewsPage.RemoveDeletesOne | frontend/src/pages/Interviews.jsx:76-80 | with distinct ids, removing a slot by its id deletes exactly that slot |
| InterviewsPage.RemoveKeepsOne | frontend/src/pages/Interviews.jsx:76-80 | with distinct ids removal never empties the list |
| InterviewsPage.SharedIdEmptiesList | frontend/src/pages/Interviews.jsx:73-78 | two slots added within one millisecond share an id, and removing one then empties the list |
| InterviewsPage.RemoveUndoesAdd | frontend/src/pages/Interviews.jsx:72-80 | removing a slot just added under a fresh id restores the list |
| InterviewsPage.ChangeSlot | frontend/src/pages/Interviews.jsx:82-88 | only the named field of the slots with the id changes; ids, order and every other slot stay |
| InterviewsPage.ChangeKeepsIds | frontend/src/pages/Interviews.jsx:82-88 | editing keeps every id in place, so distinct ids stay distinct |
| InterviewsPage.SubmitSlots | frontend/src/pages/Interviews.jsx:93-98 | refused exactly when no slot has both a date and a time; otherwise every filled slot, in order and as often as it occurs |
| InterviewsPage.AddedSlotIsNotSubmitted | frontend/src/pages/Interviews.jsx:72-98 | a freshly added blank slot does not change what is submitted |
| InterviewsPage.FillingASlotAllowsSubmit | frontend/src/pages/Interviews.jsx:82-98 | filling in date and time of a slot makes the submission go through |
| InterviewsPage.ByStatus | frontend/src/pages/Interviews.jsx:119-122 | everything for `all`, otherwise every interview with that status, in order and as often as it occurs, and no other |
| UploadPage.ChooseJdFile | frontend/src/pages/Upload.jsx:22-36 | no file changes nothing; a PDF becomes the description file; anything else is refused with an error |
| UploadPage.ChooseResumes | frontend/src/pages/Upload.jsx:38-52 | the list becomes every chosen PDF, in order and as often as chosen, and nothing else; the warning shows exactly when some chosen file was not a PDF |
| UploadPage.DropIndex | frontend/src/pages/Upload.jsx:55 | every element except the one at the index; an index out of range changes nothing |
| UploadPage.RemoveResumeFile | frontend/src/pages/Upload.jsx:54-56 | the file at the index leaves the list, the others keep their order |
| UploadPage.JdPayloadOf | frontend/src/pages/Upload.jsx:61-80 | nothing is sent exactly when there is no file and the text is blank; a file takes precedence; text is sent as typed |
| UploadPage.SubmitJd | frontend/src/pages/Upload.jsx:58-116 | a refused submit changes nothing; success clears file and text; failure keeps them; resumes untouched |
| UploadPage.JdSubmitClearsForm | frontend/src/pages/Upload.jsx:94-96 | after a successful upload a second submit is refused |
| UploadPage.SubmitResumes | frontend/src/pages/Upload.jsx:118-169 | refused with an error for an empty list; success reports the count and clears the list; failure keeps it |
| UploadPage.OnlyPdfsAreListed | frontend/src/pages/Upload.jsx:38-56 | choosing, removing and submitting never put a non-PDF file in the list |
| App.AddToast | frontend/src/App.jsx:14-21 | one toast with the type, message and current time as id, after the others |
| App.RemoveToast | frontend/src/App.jsx:23-25 | every toast with the id goes, every other stays, in order and as often as it was there; an absent id changes nothing |
| App.CloseUndoesAdd | frontend/src/App.jsx:14-25 | closing a toast just added under a fresh id gives back the list before it |
| App.RemoveCommutes | frontend/src/App.jsx:23-25 | closing two toasts gives the same list in either order |

## Left out

- Regular expressions and NLP models are parameters, not implementations. This covers:
  - the spaCy person and organisation entities;
  - the title, company, duration, bullet and skill-mention patterns;
  - the sentence splitter;
  - the sentence-embedding similarity in gap detection;
  - the summarization language model.
- The resume parser's e-mail, phone and education extraction is not modelled. These are pattern searches (ai-service/agents/resume_parser.py:72-187).
- The job-description parser's skills and location extraction is not modelled, for the same reason.
- ai-service/agents/matching.py is not part of this model. Its scores are embedding similarities with floating-point weighting.
- `SimpleSchedulerAgent` (ai-service/agents/simple_agents.py:134-160) is not modelled. It returns fixed slots computed from the wall clock.
- The AI service's HTTP layer (ai-service/main.py), the backend's AI proxy and axios wrapper, the server start-up and the database connection are not modelled. Their replies reach the routes as parameters.
- Scheduler: time zones, daylight saving and the parsing of date strings are not modelled. `_parse_datetime` falls back to the current time on a string it cannot parse; the model receives each busy slot with its start already in minutes.
- Case folding (`str.lower`, `toLowerCase`, `str.isupper`, `str.capitalize`) and the `\w`/whitespace classes cover ASCII letters and the listed whitespace characters only. Other Unicode mappings are not modelled.
- `Dashboard.ByName`: `localeCompare` is modelled as code-point order. Locale collation is not modelled.
- Db.ListSorted: states only that a listing holds every record once and is ordered by the sort key. Which of two records with equal keys comes first is left open, because the document store does not fix it.
- A malformed id in a route path makes the document store raise a cast error (a 500 response). It is not modelled, because ids are natural numbers here.
- Concurrent requests are not modelled: each route runs to completion before the next.
- Notification e-mails are block sequences. Their HTML markup and the locale date and time formatting are not modelled; the formatted date and time are string parameters.
- Front end: JSX rendering, the timed hiding of notifications (`setTimeout`), navigation and `alert` are not modelled. Neither are the helper functions in frontend/src/utils/helpers.js other than `isPDF`.
- InterviewsPage.RemoveKeepsOne requires distinct slot ids. Two slots added in the same millisecond share an id, and then removal can empty the list, as InterviewsPage.SharedIdEmptiesList shows.
- PatchCandidate: match entries in an update body are taken as whole entries. The schema's per-entry defaults (score 0, no gaps, match date now) and entries without a job id are not modelled.
- PatchCandidate, PatchJob, PatchInterview: a date field in an update body that cannot be cast to a date makes the store raise a cast error; the model receives dates already parsed, so that error path is not modelled.
- Scheduler.BusyTimesMeaning, Scheduler.BusyMinutes: an existing interview whose `duration` is a fractional number is skipped, as if `timedelta` had refused it. The source accepts it (ai-service/agents/scheduler.py:140-146) and blocks that many minutes, so for such input the model can offer a slot that the source would refuse. Busy intervals are whole minutes here.
- CandidateRoutes.CreateCandidate, JobRoutes.CreateJob: the upload is assumed to be moved to the uploads directory. A failing `file.mv` (backend/routes/candidates.js:51, backend/routes/jobs.js:52) answers 500 before anything is created; that path is not modelled.
- InterviewRoutes.ScheduleInterview, InterviewRoutes.AddFeedback: a `scheduledDate` that cannot be cast to a date, or a `rating` that cannot be cast to a number, makes `Interview.create` or `save` raise, and the route answers 500 (backend/routes/interviews.js:65-73, 159-161). The model receives the date and the rating already parsed, so that path is not modelled.
- CandidateRoutes.GetCandidate, InterviewRoutes.ListInterviews, InterviewRoutes.GetInterview: the source's `populate` (backend/routes/candidates.js:24-25, backend/routes/interviews.js:13-14, 27-28) replaces referenced ids by the referenced documents, or by null for a dangling reference; the interview listing keeps only the candidate's name and e-mail and the job's title and company. The model returns the stored records with their ids.
- The AI service's failure is modelled as a `None` reply. Partial replies (a parse that succeeds followed by a failed summary) are folded into that `None`, because the route's single `try` discards both.

## Findings

| source | as written | input that shows it | evidently intended | confidence | as-written member | corrected member |
|---|---|---|---|---|---|---|
| backend/routes/candidates.js:68-80 | the reply of the summarize endpoint, an object `{summary: text}`, is stored in the candidate's `summary` field, which the schema declares a String, so the save raises a cast error and the upload answers 500 | a resume upload the AI service parses and summarizes successfully | store the reply's `summary` text | not executed | CandidateRoutes.CreateAsWritten, CandidateRoutes.AiUploadFailsAsWritten | CandidateRoutes.UploadInput, CandidateRoutes.CreateCandidate |
| backend/routes/jobs.js:62-69 | the same summarize reply object is stored in the job's String `summary` field, so a create with a description file that the AI service handles answers 500 | any valid posting sent with a description file and successful AI replies | store the reply's `summary` text | not executed | JobRoutes.CreateJobAsWritten, JobRoutes.AiJobFailsAsWritten | JobRoutes.CreateInput, JobRoutes.CreateJob |
| ai-service/agents/resume_parser.py:199 | `re.split` with a pattern that has two capturing groups puts the group values (one of them `None`) between the pieces, and `block.strip()` on `None` raises, so the resume parse fails | an experience section with a line break followed by a year such as `2019`, i.e. any section the pattern splits | split without capturing the groups, so each block is one experience entry | not executed | ResumeParser.ExperiencesAsWritten, ResumeParser.ExperienceRaisesAsWritten | ResumeParser.Experiences, ResumeParser.EntriesOf, ResumeParser.ExtractExperience |
