/**
 * The document store behind the backend routes: one map per collection,
 * keyed by id, the set of uploaded files on disk and the mail delivered so
 * far. Route handlers (candidates_routes.dfy, jobs_routes.dfy,
 * interviews_routes.dfy) are methods that take the store and change it.
 */
module Db {
  import opened Common
  import opened Models
  import opened Email
  import opened Sorting

  /** What a route answers: data with a success code, a client error with its
      message, or a server error (500) whose message comes from the store. */
  datatype Reply<+T> = Success(code: nat, data: T) | ClientError(code: nat, error: string) | ServerError

  class Store {
    var candidates: map<Id, Candidate>
    var jobs: map<Id, Job>
    var interviews: map<Id, Interview>
    /** Paths of the uploaded files present on disk. */
    var files: set<string>
    /** Every message the mail transport has delivered, oldest first. */
    var outbox: seq<Mail>
    /** The next id the store hands out; every stored id is below it. */
    var nextId: Id
    const mail: MailConfig

    /** Each record sits under its own id, ids are fresh, and every record
        satisfies its schema. */
    ghost predicate Valid()
      reads this
    {
      CandidatesOk(candidates, nextId) && JobsOk(jobs, nextId) && InterviewsOk(interviews, nextId)
    }

    constructor (config: MailConfig)
      ensures Valid()
      ensures candidates == map[] && jobs == map[] && interviews == map[]
      ensures files == {} && outbox == [] && mail == config
    {
      candidates, jobs, interviews := map[], map[], map[];
      files, outbox, nextId := {}, [], 0;
      mail := config;
    }

    /** A fresh document id (Mongoose assigns one when a document is built). */
    method NewId() returns (id: Id)
      requires Valid()
      modifies this
      ensures Valid()
      ensures id == old(nextId) && nextId == id + 1
      ensures id !in candidates && id !in jobs && id !in interviews
      ensures candidates == old(candidates) && jobs == old(jobs) && interviews == old(interviews)
      ensures files == old(files) && outbox == old(outbox)
    {
      id := nextId;
      nextId := nextId + 1;
    }

    /** Saving a candidate that satisfies its schema under an issued id: it replaces
        whatever the id held, and nothing else changes. */
    method SaveCandidate(c: Candidate)
      requires Valid() && c.id < nextId && CandidateOk(c)
      modifies this
      ensures Valid()
      ensures candidates == old(candidates)[c.id := c]
      ensures jobs == old(jobs) && interviews == old(interviews)
      ensures files == old(files) && outbox == old(outbox) && nextId == old(nextId)
    {
      PutCandidate(candidates, nextId, c);
      candidates := candidates[c.id := c];
    }

    /** Saving an interview that satisfies its schema under an issued id. */
    method SaveInterview(i: Interview)
      requires Valid() && i.id < nextId && InterviewOk(i)
      modifies this
      ensures Valid()
      ensures interviews == old(interviews)[i.id := i]
      ensures candidates == old(candidates) && jobs == old(jobs)
      ensures files == old(files) && outbox == old(outbox) && nextId == old(nextId)
    {
      PutInterview(interviews, nextId, i);
      interviews := interviews[i.id := i];
    }

    /** Saving a job that satisfies its schema under an issued id. */
    method SaveJob(j: Job)
      requires Valid() && j.id < nextId && JobOk(j)
      modifies this
      ensures Valid()
      ensures jobs == old(jobs)[j.id := j]
      ensures candidates == old(candidates) && interviews == old(interviews)
      ensures files == old(files) && outbox == old(outbox) && nextId == old(nextId)
    {
      PutJob(jobs, nextId, j);
      jobs := jobs[j.id := j];
    }
  }

  predicate CandidatesOk(m: map<Id, Candidate>, next: Id) {
    forall id :: id in m ==> m[id].id == id && id < next && CandidateOk(m[id])
  }

  predicate JobsOk(m: map<Id, Job>, next: Id) {
    forall id :: id in m ==> m[id].id == id && id < next && JobOk(m[id])
  }

  predicate InterviewsOk(m: map<Id, Interview>, next: Id) {
    forall id :: id in m ==> m[id].id == id && id < next && InterviewOk(m[id])
  }

  /** Storing a record that satisfies its schema under its own, already issued id keeps the store valid. */
  lemma PutCandidate(m: map<Id, Candidate>, next: Id, c: Candidate)
    requires CandidatesOk(m, next) && c.id < next && CandidateOk(c)
    ensures CandidatesOk(m[c.id := c], next)
  {
  }

  lemma PutJob(m: map<Id, Job>, next: Id, j: Job)
    requires JobsOk(m, next) && j.id < next && JobOk(j)
    ensures JobsOk(m[j.id := j], next)
  {
  }

  lemma PutInterview(m: map<Id, Interview>, next: Id, i: Interview)
    requires InterviewsOk(m, next) && i.id < next && InterviewOk(i)
    ensures InterviewsOk(m[i.id := i], next)
  {
  }

  /** The values of a map in some order, each once per key. */
  method Values<T(==)>(m: map<Id, T>) returns (r: seq<T>)
    ensures |r| == |m.Keys|
    ensures forall x :: x in r <==> x in m.Values
  {
    var ks := m.Keys;
    r := [];
    while ks != {}
      invariant ks <= m.Keys
      invariant |r| + |ks| == |m.Keys|
      invariant forall x :: x in r <==> exists k :: k in m.Keys - ks && m[k] == x
      decreases |ks|
    {
      var k :| k in ks;
      r := r + [m[k]];
      ks := ks - {k};
    }
  }

  /** `find().sort(...)`: every stored record once, ordered by `le`. Mongo's order
      among records that compare equal is not modelled. */
  method ListSorted<T(==,!new)>(m: map<Id, T>, le: (T, T) -> bool) returns (r: seq<T>)
    requires Total(le) && Transitive(le)
    ensures |r| == |m.Keys|
    ensures forall x :: x in r <==> x in m.Values
    ensures Sorted(r, le)
  {
    var vs := Values(m);
    r := SortBy(vs, le);
    SortBySorted(vs, le);
    assert forall x :: x in r <==> x in multiset(r);
    assert forall x :: x in vs <==> x in multiset(vs);
  }
}
