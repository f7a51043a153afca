/**
 * The candidate dashboard (frontend/src/pages/Dashboard.jsx): the effect that
 * derives the displayed list from the loaded candidates, the search box and
 * the sort selector, and the lookup that opens the scheduling dialog.
 *
 * The effect reads `candidates` and writes a fresh array, so the loaded list
 * is never reordered; here that is simply that the functions take values.
 */
module Dashboard {
  import opened Common
  import opened Text
  import opened Lists
  import opened Sorting

  /** The fields of a candidate card that the dashboard reads. */
  datatype Candidate = Candidate(id: string, name: string, email: string, matchScore: real, skills: seq<string>)

  /** `candidate.skills.some(skill => skill.toLowerCase().includes(term))`. */
  predicate SomeSkillMentions(skills: seq<string>, term: string) {
    exists i :: 0 <= i < |skills| && Contains(Lower(skills[i]), term)
  }

  /** The search condition for an already lower-cased term. */
  predicate MatchesTerm(c: Candidate, term: string) {
    || Contains(Lower(c.name), term)
    || Contains(Lower(c.email), term)
    || SomeSkillMentions(c.skills, term)
  }

  /** The search step: an empty (falsy) term keeps every candidate; otherwise a candidate
      stays exactly when the lower-cased term occurs in its lower-cased name, e-mail or
      one of its skills. The survivors keep their order. */
  function Search(candidates: seq<Candidate>, searchTerm: string): (r: seq<Candidate>)
    ensures IsSubseq(r, candidates)
    ensures searchTerm == "" ==> r == candidates
    ensures searchTerm != "" ==> forall c :: c in r <==> c in candidates && MatchesTerm(c, Lower(searchTerm))
    ensures searchTerm != "" ==> forall c :: multiset(r)[c] == if MatchesTerm(c, Lower(searchTerm)) then multiset(candidates)[c] else 0
  {
    if searchTerm == "" then
      IsSubseqRefl(candidates);
      candidates
    else
      FilterIsSubseq(candidates, c => MatchesTerm(c, Lower(searchTerm)));
      FilterCounts(candidates, c => MatchesTerm(c, Lower(searchTerm)));
      Filter(candidates, c => MatchesTerm(c, Lower(searchTerm)))
  }

  /** `b.matchScore - a.matchScore <= 0`: `a` may stay before `b`. */
  predicate ByScore(a: Candidate, b: Candidate) { a.matchScore >= b.matchScore }

  /** `a.name.localeCompare(b.name) <= 0`, with code-point order for the locale's collation. */
  predicate ByName(a: Candidate, b: Candidate) { LexLe(a.name, b.name) }

  /** The comparator that answers 0 for every pair. */
  predicate AsLoaded(a: Candidate, b: Candidate) { true }

  /** The comparator chosen by the sort selector. */
  function Order(sortOption: string): (Candidate, Candidate) -> bool {
    if sortOption == "matchScore" then ByScore
    else if sortOption == "name" then ByName
    else AsLoaded
  }

  lemma ScoreOrderIsTotalPreorder()
    ensures Total(ByScore) && Transitive(ByScore)
  {
  }

  lemma NameOrderIsTotalPreorder()
    ensures Total(ByName) && Transitive(ByName)
  {
    forall a, b ensures ByName(a, b) || ByName(b, a) {
      LexLeTotal(a.name, b.name);
    }
    forall a, b, c | ByName(a, b) && ByName(b, c) ensures ByName(a, c) {
      LexLeTransitive(a.name, b.name, c.name);
    }
  }

  /** What sorting a list with the selected comparator achieves. */
  lemma OrderSorts(s: seq<Candidate>, sortOption: string)
    ensures sortOption == "matchScore" ==> forall i, j :: 0 <= i < j < |s| ==>
      SortBy(s, Order(sortOption))[i].matchScore >= SortBy(s, Order(sortOption))[j].matchScore
    ensures sortOption == "name" ==> forall i, j :: 0 <= i < j < |s| ==>
      LexLe(SortBy(s, Order(sortOption))[i].name, SortBy(s, Order(sortOption))[j].name)
    ensures sortOption != "matchScore" && sortOption != "name" ==> SortBy(s, Order(sortOption)) == s
  {
    if sortOption == "matchScore" {
      ScoreOrderIsTotalPreorder();
      SortBySorted(s, ByScore);
    } else if sortOption == "name" {
      NameOrderIsTotalPreorder();
      SortBySorted(s, ByName);
    } else {
      SortByKeepsOrder(s, AsLoaded);
    }
  }

  /** The displayed list: a rearrangement of the search result, ordered by descending
      match score for `'matchScore'`, by ascending name for `'name'`, and left in loaded
      order for any other option (the comparator answers 0, and a sort by such a
      comparator returns its input). */
  function Displayed(candidates: seq<Candidate>, searchTerm: string, sortOption: string): (r: seq<Candidate>)
    ensures multiset(r) == multiset(Search(candidates, searchTerm))
    ensures sortOption == "matchScore" ==> forall i, j :: 0 <= i < j < |r| ==> r[i].matchScore >= r[j].matchScore
    ensures sortOption == "name" ==> forall i, j :: 0 <= i < j < |r| ==> LexLe(r[i].name, r[j].name)
    ensures sortOption != "matchScore" && sortOption != "name" ==> r == Search(candidates, searchTerm)
  {
    var filtered := Search(candidates, searchTerm);
    OrderSorts(filtered, sortOption);
    SortBy(filtered, Order(sortOption))
  }

  /** With an empty search term every loaded candidate is displayed exactly once. */
  lemma EmptySearchShowsEveryone(candidates: seq<Candidate>, sortOption: string)
    ensures multiset(Displayed(candidates, "", sortOption)) == multiset(candidates)
  {
  }

  /** `candidates.find(c => c.id === candidateId)`: the first candidate with the id,
      or nothing (`undefined`) when no candidate has it. */
  function FindById(candidates: seq<Candidate>, id: string): (r: Option<Candidate>)
    ensures r.None? <==> forall i :: 0 <= i < |candidates| ==> candidates[i].id != id
    ensures r.Some? ==> exists k :: 0 <= k < |candidates| && candidates[k] == r.value
                                    && r.value.id == id && forall j :: 0 <= j < k ==> candidates[j].id != id
    decreases |candidates|
  {
    if |candidates| == 0 then None
    else if candidates[0].id == id then Some(candidates[0])
    else
      FindById(candidates[1..], id)
  }

  /** `handleScheduleInterview`: the dialog opens with the first loaded candidate
      carrying the id (nothing when there is none); search and sort do not matter. */
  function ScheduleInterview(candidates: seq<Candidate>, candidateId: string): (r: (Option<Candidate>, bool))
    ensures r.1
    ensures r.0.Some? ==> r.0.value in candidates && r.0.value.id == candidateId
    ensures r.0.Some? ==> exists k :: 0 <= k < |candidates| && candidates[k] == r.0.value
                                      && forall j :: 0 <= j < k ==> candidates[j].id != candidateId
    ensures r.0.None? <==> forall c :: c in candidates ==> c.id != candidateId
  {
    (FindById(candidates, candidateId), true)
  }
}
