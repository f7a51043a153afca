/**
 * The summarization agent (ai-service/agents/summarization.py): text cleaning,
 * word-budget chunking, the per-chunk summarization loop and the
 * type-specific formatting. The language model is an oracle: `model(chunk)`
 * is its summary, or `None` when the call raises.
 */
module Summarization {
  import opened Common
  import opened Text

  const MaxWords: nat := 3000
  const MaxChunkLength: int := 1000
  const ShortTextWords: nat := 50
  const ShortChunkWords: nat := 30
  const ResumePrefix: string := "Professional Summary: "
  const JobPrefix: string := "Job Overview: "

  /** `_clean_text`: the words of `text` joined by single spaces, at most the first 3000. */
  function CleanText(text: string): (r: string)
    ensures |Words(text)| <= MaxWords ==> Words(r) == Words(text)
    ensures |Words(text)| > MaxWords ==> Words(r) == Words(text)[..MaxWords]
    ensures r == Join(Words(r), " ")
  {
    var cleaned := Join(Words(text), " ");
    WordsJoin(Words(text));
    var words := Words(cleaned);
    if |words| > MaxWords then
      var kept := words[..MaxWords];
      assert forall w :: w in kept ==> w in words;
      WordsJoin(kept);
      Join(kept, " ")
    else cleaned
  }

  /** Cleaning a cleaned text changes nothing. */
  lemma CleanTextIdempotent(text: string)
    ensures CleanText(CleanText(text)) == CleanText(text)
  {
    var c := CleanText(text);
    assert |Words(c)| <= MaxWords;
    assert Words(CleanText(c)) == Words(c);
  }

  /** The budget a list of words uses: each word's length plus one for the space. */
  function Cost(ws: seq<string>): int {
    if |ws| == 0 then 0 else Cost(ws[..|ws| - 1]) + |ws[|ws| - 1]| + 1
  }

  function Flatten(gs: seq<seq<string>>): seq<string> {
    if |gs| == 0 then [] else Flatten(gs[..|gs| - 1]) + gs[|gs| - 1]
  }

  lemma FlattenAppend(gs: seq<seq<string>>, g: seq<string>)
    ensures Flatten(gs + [g]) == Flatten(gs) + g
  {
    assert (gs + [g])[..|gs|] == gs;
  }

  lemma CostAppend(ws: seq<string>, w: string)
    ensures Cost(ws + [w]) == Cost(ws) + |w| + 1
  {
    assert (ws + [w])[..|ws|] == ws;
  }

  lemma CostSingle(w: string)
    ensures Cost([w]) == |w| + 1
  {
    assert [w][..0] == [];
  }

  /** What the chunking promises about the word groups it forms from `words`. */
  ghost predicate ChunkedWell(words: seq<string>, gs: seq<seq<string>>, maxLength: int) {
    && Flatten(gs) == words
    // each group is within budget, or is one over-long word (or the empty first group)
    && (forall i :: 0 <= i < |gs| ==> Cost(gs[i]) <= maxLength || |gs[i]| <= 1)
    // only the first group can be empty, and only when the first word is over-long
    && (forall i :: 0 < i < |gs| ==> |gs[i]| > 0)
    && (|gs| > 0 && |gs[0]| == 0 <==> |words| > 0 && |words[0]| + 1 > maxLength)
    // greedy: the next group's first word would not have fit
    && (forall i :: 0 <= i < |gs| - 1 ==> Cost(gs[i]) + |gs[i + 1][0]| + 1 > maxLength)
  }

  /** Joining each group by spaces and splitting each chunk again gives the groups back. */
  lemma ChunksOfGroups(gs: seq<seq<string>>, chunks: seq<string>)
    requires forall i :: 0 <= i < |gs| ==> forall w :: w in gs[i] ==> IsWord(w)
    requires |chunks| == |gs| && forall i :: 0 <= i < |gs| ==> chunks[i] == Join(gs[i], " ")
    ensures seq(|chunks|, i requires 0 <= i < |chunks| => Words(chunks[i])) == gs
  {
    forall i | 0 <= i < |gs|
      ensures Words(chunks[i]) == gs[i]
    {
      WordsJoin(gs[i]);
    }
  }

  /** The state of the chunking loop after the first `k` words: the closed groups and
      the open one. */
  ghost predicate Grouping(words: seq<string>, k: nat, groups: seq<seq<string>>, current: seq<string>, maxLength: int) {
    && k <= |words|
    && Flatten(groups) + current == words[..k]
    && (forall i :: 0 <= i < |groups| ==> Cost(groups[i]) <= maxLength || |groups[i]| <= 1)
    && (Cost(current) <= maxLength || |current| <= 1)
    && (forall i :: 0 < i < |groups| ==> |groups[i]| > 0)
    && (k > 0 ==> |current| > 0)
    && (k == 0 ==> groups == [] && current == [])
    && (|groups| > 0 && |groups[0]| == 0 <==> k > 0 && |words[0]| + 1 > maxLength)
    && (forall i :: 0 <= i < |groups| - 1 ==> Cost(groups[i]) + |groups[i + 1][0]| + 1 > maxLength)
    && (|groups| > 0 ==> Cost(groups[|groups| - 1]) + |current[0]| + 1 > maxLength)
  }

  /** The next word fits: it joins the open group. */
  lemma GroupingFits(words: seq<string>, k: nat, groups: seq<seq<string>>, current: seq<string>, maxLength: int)
    requires Grouping(words, k, groups, current, maxLength) && k < |words|
    requires Cost(current) + |words[k]| + 1 <= maxLength
    ensures Grouping(words, k + 1, groups, current + [words[k]], maxLength)
  {
    assert words[..k + 1] == words[..k] + [words[k]];
    CostAppend(current, words[k]);
  }

  /** The next word does not fit: the open group is closed and the word opens the next. */
  lemma GroupingOverflows(words: seq<string>, k: nat, groups: seq<seq<string>>, current: seq<string>, maxLength: int)
    requires Grouping(words, k, groups, current, maxLength) && k < |words|
    requires Cost(current) + |words[k]| + 1 > maxLength
    ensures Grouping(words, k + 1, groups + [current], [words[k]], maxLength)
  {
    OverflowKeepsWords(words, k, groups, current);
    OverflowKeepsBudget(groups, current, groups + [current], maxLength);
    OverflowKeepsGreedy(groups, current, groups + [current], maxLength);
    CostSingle(words[k]);
  }

  lemma OverflowKeepsWords(words: seq<string>, k: nat, groups: seq<seq<string>>, current: seq<string>)
    requires k < |words| && Flatten(groups) + current == words[..k]
    ensures Flatten(groups + [current]) + [words[k]] == words[..k + 1]
  {
    assert words[..k + 1] == words[..k] + [words[k]];
    FlattenAppend(groups, current);
  }

  lemma OverflowKeepsBudget(groups: seq<seq<string>>, current: seq<string>, gs: seq<seq<string>>, maxLength: int)
    requires gs == groups + [current]
    requires forall i :: 0 <= i < |groups| ==> Cost(groups[i]) <= maxLength || |groups[i]| <= 1
    requires Cost(current) <= maxLength || |current| <= 1
    requires forall i :: 0 < i < |groups| ==> |groups[i]| > 0
    requires |groups| > 0 ==> |current| > 0
    ensures forall i :: 0 <= i < |gs| ==> Cost(gs[i]) <= maxLength || |gs[i]| <= 1
    ensures forall i :: 0 < i < |gs| ==> |gs[i]| > 0
  {
    assert forall i :: 0 <= i < |groups| ==> gs[i] == groups[i];
  }

  lemma OverflowKeepsGreedy(groups: seq<seq<string>>, current: seq<string>, gs: seq<seq<string>>, maxLength: int)
    requires gs == groups + [current]
    requires forall i :: 0 < i < |groups| ==> |groups[i]| > 0
    requires forall i :: 0 <= i < |groups| - 1 ==> Cost(groups[i]) + |groups[i + 1][0]| + 1 > maxLength
    requires |groups| > 0 ==> |current| > 0 && Cost(groups[|groups| - 1]) + |current[0]| + 1 > maxLength
    ensures forall i :: 0 < i < |gs| ==> |gs[i]| > 0
    ensures forall i :: 0 <= i < |gs| - 1 ==> Cost(gs[i]) + |gs[i + 1][0]| + 1 > maxLength
  {
    assert forall i :: 0 <= i < |groups| ==> gs[i] == groups[i];
  }

  /** After the last word, closing a non-empty open group gives a good chunking. */
  lemma GroupingDone(words: seq<string>, groups: seq<seq<string>>, current: seq<string>, maxLength: int)
    requires Grouping(words, |words|, groups, current, maxLength)
    ensures ChunkedWell(words, if |current| > 0 then groups + [current] else groups, maxLength)
  {
    assert words[..|words|] == words;
    if |current| > 0 {
      GroupingClose(words, groups, current, maxLength);
    }
  }

  lemma GroupingClose(words: seq<string>, groups: seq<seq<string>>, current: seq<string>, maxLength: int)
    requires Grouping(words, |words|, groups, current, maxLength) && |current| > 0
    ensures ChunkedWell(words, groups + [current], maxLength)
  {
    assert words[..|words|] == words;
    FlattenAppend(groups, current);
    var gs := groups + [current];
    assert forall i :: 0 <= i < |groups| ==> gs[i] == groups[i];
    assert gs[|groups|] == current;
  }

  /** Every word of a group is one of the input words. */
  lemma FlattenMembers(gs: seq<seq<string>>)
    ensures forall i, w :: 0 <= i < |gs| && w in gs[i] ==> w in Flatten(gs)
  {
    if |gs| > 0 {
      FlattenMembers(gs[..|gs| - 1]);
      assert forall i :: 0 <= i < |gs| - 1 ==> gs[i] == gs[..|gs| - 1][i];
    }
  }

  /** Where the chunking loop ends up from a given state: the next word joins the open
      group when the running total stays within budget, else it opens a new group. */
  function Pack(words: seq<string>, k: nat, groups: seq<seq<string>>, current: seq<string>, maxLength: int): seq<seq<string>>
    decreases |words| - k
  {
    if k >= |words| then (if |current| > 0 then groups + [current] else groups)
    else if Cost(current) + |words[k]| + 1 <= maxLength then Pack(words, k + 1, groups, current + [words[k]], maxLength)
    else Pack(words, k + 1, groups + [current], [words[k]], maxLength)
  }

  /** The word groups of `_split_into_chunks`. */
  function Chunking(words: seq<string>, maxLength: int): seq<seq<string>> {
    Pack(words, 0, [], [], maxLength)
  }

  lemma {:induction false} PackWell(words: seq<string>, k: nat, groups: seq<seq<string>>, current: seq<string>, maxLength: int)
    requires Grouping(words, k, groups, current, maxLength)
    ensures ChunkedWell(words, Pack(words, k, groups, current, maxLength), maxLength)
    decreases |words| - k, 1
  {
    if k >= |words| {
      assert Pack(words, k, groups, current, maxLength) == if |current| > 0 then groups + [current] else groups;
      GroupingDone(words, groups, current, maxLength);
    } else if Cost(current) + |words[k]| + 1 <= maxLength {
      PackWellFits(words, k, groups, current, maxLength);
    } else {
      PackWellOverflows(words, k, groups, current, maxLength);
    }
  }

  lemma {:induction false} PackWellFits(words: seq<string>, k: nat, groups: seq<seq<string>>, current: seq<string>, maxLength: int)
    requires Grouping(words, k, groups, current, maxLength) && k < |words|
    requires Cost(current) + |words[k]| + 1 <= maxLength
    ensures ChunkedWell(words, Pack(words, k, groups, current, maxLength), maxLength)
    decreases |words| - k, 0
  {
    var current' := current + [words[k]];
    assert Pack(words, k, groups, current, maxLength) == Pack(words, k + 1, groups, current', maxLength);
    GroupingFits(words, k, groups, current, maxLength);
    PackWell(words, k + 1, groups, current', maxLength);
  }

  lemma {:induction false} PackWellOverflows(words: seq<string>, k: nat, groups: seq<seq<string>>, current: seq<string>, maxLength: int)
    requires Grouping(words, k, groups, current, maxLength) && k < |words|
    requires Cost(current) + |words[k]| + 1 > maxLength
    ensures ChunkedWell(words, Pack(words, k, groups, current, maxLength), maxLength)
    decreases |words| - k, 0
  {
    var groups' := groups + [current];
    assert Pack(words, k, groups, current, maxLength) == Pack(words, k + 1, groups', [words[k]], maxLength);
    GroupingOverflows(words, k, groups, current, maxLength);
    PackWell(words, k + 1, groups', [words[k]], maxLength);
  }

  /** The chunking covers the words in order, keeps to the budget, is greedy, and has an
      empty group only first and only for an over-long first word. */
  lemma ChunkingWell(words: seq<string>, maxLength: int)
    ensures ChunkedWell(words, Chunking(words, maxLength), maxLength)
  {
    PackWell(words, 0, [], [], maxLength);
  }

  /** The loop of `_split_into_chunks` over the words, as groups of words. */
  method GroupWords(words: seq<string>, maxLength: int) returns (groups: seq<seq<string>>)
    ensures groups == Chunking(words, maxLength)
  {
    groups := [];
    var current: seq<string> := [];
    var currentLength := 0;
    for k := 0 to |words|
      invariant Pack(words, k, groups, current, maxLength) == Chunking(words, maxLength)
      invariant currentLength == Cost(current)
    {
      var word := words[k];
      currentLength := currentLength + |word| + 1;
      if currentLength <= maxLength {
        CostAppend(current, word);
        current := current + [word];
      } else {
        CostSingle(word);
        groups := groups + [current];
        current := [word];
        currentLength := |word| + 1;
      }
    }
    if |current| > 0 {
      groups := groups + [current];
    }
  }

  /** The chunk strings: each group joined by single spaces. */
  function ChunkStrings(text: string, maxLength: int): (r: seq<string>)
    ensures ChunkedWell(Words(text), seq(|r|, i requires 0 <= i < |r| => Words(r[i])), maxLength)
    ensures forall i :: 0 <= i < |r| ==> r[i] == Join(Words(r[i]), " ")
    ensures |Words(text)| == 0 ==> r == []
  {
    var groups := Chunking(Words(text), maxLength);
    var r := seq(|groups|, i requires 0 <= i < |groups| => Join(groups[i], " "));
    ChunkingWell(Words(text), maxLength);
    FlattenMembers(groups);
    ChunksOfGroups(groups, r);
    r
  }

  /** `_split_into_chunks`. */
  method SplitIntoChunks(text: string, maxLength: int) returns (chunks: seq<string>)
    ensures chunks == ChunkStrings(text, maxLength)
  {
    var words := Words(text);
    var groups := GroupWords(words, maxLength);
    chunks := seq(|groups|, i requires 0 <= i < |groups| => Join(groups[i], " "));
  }

  /** The phrases `_format_resume_summary` rewrites. */
  predicate HasResumePhrase(s: string) {
    Contains(s, "The resume states") || Contains(s, "The candidate") || Contains(s, "They have") || Contains(s, "Their")
  }

  /** `_format_resume_summary`: the phrases rewritten in turn, behind a fixed prefix.
      Afterwards no third-person phrase that has a replacement is left; a deleted
      "The resume states" can re-form from the text around it, so its absence is not
      promised. */
  function FormatResumeSummary(summary: string): (r: string)
    ensures StartsWith(r, ResumePrefix)
    ensures !Contains(r[|ResumePrefix|..], "The candidate")
    ensures !Contains(r[|ResumePrefix|..], "They have")
    ensures !Contains(r[|ResumePrefix|..], "Their")
  {
    var s1 := ReplaceAll(summary, "The resume states", "");
    var s2 := ReplaceAll(s1, "The candidate", "I");
    var s3 := ReplaceAll(s2, "They have", "I have");
    var s4 := ReplaceAll(s3, "Their", "My");
    ResumeRewritesRemove(s1);
    var r := ResumePrefix + s4;
    assert r[..|ResumePrefix|] == ResumePrefix;
    assert r[|ResumePrefix|..] == s4;
    r
  }

  /** The last three rewrites leave none of their phrases behind. */
  lemma ResumeRewritesRemove(s1: string)
    ensures var s2 := ReplaceAll(s1, "The candidate", "I");
      var s3 := ReplaceAll(s2, "They have", "I have");
      var s4 := ReplaceAll(s3, "Their", "My");
      !Contains(s4, "The candidate") && !Contains(s4, "They have") && !Contains(s4, "Their")
  {
    var s2 := ReplaceAll(s1, "The candidate", "I");
    var s3 := ReplaceAll(s2, "They have", "I have");
    NoOverlapWitness("The candidate", "I", 0);
    NoOverlapWitness("The candidate", "I have", 0);
    NoOverlapWitness("The candidate", "My", 0);
    NoOverlapWitness("They have", "I have", 0);
    NoOverlapWitness("They have", "My", 0);
    NoOverlapWitness("Their", "My", 0);
    ReplaceRemoves(s1, "The candidate", "I");
    ReplaceKeepsAbsent(s2, "They have", "I have", "The candidate");
    ReplaceKeepsAbsent(s3, "Their", "My", "The candidate");
    ReplaceRemoves(s2, "They have", "I have");
    ReplaceKeepsAbsent(s3, "Their", "My", "They have");
    ReplaceRemoves(s3, "Their", "My");
  }

  /** A summary without any of the phrases only gains the prefix. */
  lemma FormatResumeSummaryPlain(summary: string)
    requires !HasResumePhrase(summary)
    ensures FormatResumeSummary(summary) == ResumePrefix + summary
  {
    ReplaceAbsent(summary, "The resume states", "");
    ReplaceAbsent(summary, "The candidate", "I");
    ReplaceAbsent(summary, "They have", "I have");
    ReplaceAbsent(summary, "Their", "My");
  }

  predicate HasJobPhrase(s: string) {
    Contains(s, "The company is looking for") || Contains(s, "The position requires")
  }

  /** `_format_job_summary`: both phrases rewritten, behind a fixed prefix; neither is left. */
  function FormatJobSummary(summary: string): (r: string)
    ensures StartsWith(r, JobPrefix)
    ensures !Contains(r[|JobPrefix|..], "The company is looking for")
    ensures !Contains(r[|JobPrefix|..], "The position requires")
  {
    var s1 := ReplaceAll(summary, "The company is looking for", "We are looking for");
    var s2 := ReplaceAll(s1, "The position requires", "This position requires");
    JobRewritesRemove(summary);
    var r := JobPrefix + s2;
    assert r[..|JobPrefix|] == JobPrefix;
    assert r[|JobPrefix|..] == s2;
    r
  }

  lemma CompanyPhraseNoOverlap()
    ensures NoOverlap("The company is looking for", "We are looking for")
    ensures NoOverlap("The company is looking for", "This position requires")
  {
    CompanyPhraseAgainstOwn();
    CompanyPhraseAgainstPosition();
  }

  lemma CompanyPhraseAgainstOwn()
    ensures NoOverlap("The company is looking for", "We are looking for")
  {
    CompanyLetterNotInOwn();
    OwnLetterNotInCompany();
    NoOverlapWitness("The company is looking for", "We are looking for", 0);
  }

  lemma CompanyLetterNotInOwn()
    ensures "The company is looking for"[0] !in "We are looking for"[1..]
  {
    assert 'T' !in "We are looking for"[1..];
  }

  lemma OwnLetterNotInCompany()
    ensures "We are looking for"[0] !in "The company is looking for"[1..]
  {
    assert 'W' !in "The company is looking for"[1..];
  }

  lemma CompanyPhraseAgainstPosition()
    ensures NoOverlap("The company is looking for", "This position requires")
  {
    CompanyLetterNotInPosition();
    PositionLetterNotInCompany();
    NoOverlapWitness("The company is looking for", "This position requires", 2);
  }

  lemma CompanyLetterNotInPosition()
    ensures "The company is looking for"[0] !in "This position requires"[1..]
  {
    assert 'T' !in "This position requires"[1..];
  }

  lemma PositionLetterNotInCompany()
    ensures "This position requires"[0] !in "The company is looking for"[1..]
  {
    assert 'T' !in "The company is looking for"[1..];
  }

  lemma PositionPhraseNoOverlap()
    ensures NoOverlap("The position requires", "This position requires")
  {
    PhraseLetterNotInPosition();
    PositionLetterNotInPhrase();
    NoOverlapWitness("The position requires", "This position requires", 2);
  }

  lemma PhraseLetterNotInPosition()
    ensures "The position requires"[0] !in "This position requires"[1..]
  {
    assert 'T' !in "This position requires"[1..];
  }

  lemma PositionLetterNotInPhrase()
    ensures "This position requires"[0] !in "The position requires"[1..]
  {
    assert 'T' !in "The position requires"[1..];
  }

  /** Neither rewrite leaves its phrase, or the other's, behind. */
  lemma JobRewritesRemove(summary: string)
    ensures var s1 := ReplaceAll(summary, "The company is looking for", "We are looking for");
      var s2 := ReplaceAll(s1, "The position requires", "This position requires");
      !Contains(s2, "The company is looking for") && !Contains(s2, "The position requires")
  {
    var s1 := ReplaceAll(summary, "The company is looking for", "We are looking for");
    CompanyPhraseNoOverlap();
    PositionPhraseNoOverlap();
    ReplaceRemoves(summary, "The company is looking for", "We are looking for");
    ReplaceKeepsAbsent(s1, "The position requires", "This position requires", "The company is looking for");
    ReplaceRemoves(s1, "The position requires", "This position requires");
  }

  lemma FormatJobSummaryPlain(summary: string)
    requires !HasJobPhrase(summary)
    ensures FormatJobSummary(summary) == JobPrefix + summary
  {
    ReplaceAbsent(summary, "The company is looking for", "We are looking for");
    ReplaceAbsent(summary, "The position requires", "This position requires");
  }

  /** Lines 57-63: the formatting chosen by the content type. */
  function FormatByType(kind: string, combined: string): (r: string)
    ensures kind == "resume" ==> StartsWith(r, ResumePrefix)
    ensures kind == "job" ==> StartsWith(r, JobPrefix)
    ensures kind != "resume" && kind != "job" ==> r == combined
  {
    if kind == "resume" then FormatResumeSummary(combined)
    else if kind == "job" then FormatJobSummary(combined)
    else combined
  }

  /** Lines 50-52: the first three pieces between full stops, rejoined by `". "`, with a
      final stop. Read back, the text before that stop splits into exactly those pieces,
      each after the first behind the space the join added; a chunk without a full stop
      just gains one. */
  function FallbackSummary(chunk: string): (r: string)
    ensures |r| > 0 && r[|r| - 1] == '.'
    ensures var pieces := Split(chunk, '.');
      Split(r[..|r| - 1], '.') == Spaced(pieces[..if |pieces| < 3 then |pieces| else 3])
    ensures '.' !in chunk ==> r == chunk + "."
  {
    var sentences := Split(chunk, '.');
    var firstThree := sentences[..if |sentences| < 3 then |sentences| else 3];
    var body := Join(firstThree, ". ");
    JoinIsSpacedJoin(firstThree);
    SpacedKeepsNoStop(sentences, |firstThree|);
    SplitJoin(Spaced(firstThree), '.');
    var r := body + ".";
    assert r[..|r| - 1] == body;
    if '.' !in chunk then
      SplitJoin([chunk], '.');
      assert firstThree == [chunk];
      r
    else
      r
  }

  /** Pieces of a split on '.' stay free of '.' when spaced. */
  lemma SpacedKeepsNoStop(pieces: seq<string>, n: nat)
    requires n <= |pieces| && forall q :: q in pieces ==> '.' !in q
    ensures forall q :: q in Spaced(pieces[..n]) ==> '.' !in q
  {
    forall q | q in Spaced(pieces[..n]) ensures '.' !in q {
      var k :| 0 <= k < n && Spaced(pieces[..n])[k] == q;
      assert pieces[k] in pieces;
    }
  }

  /** `" " + p` for every piece. */
  function AddSpace(ps: seq<string>): (r: seq<string>)
    ensures |r| == |ps| && forall i :: 0 <= i < |ps| ==> r[i] == " " + ps[i]
  {
    seq(|ps|, i requires 0 <= i < |ps| => " " + ps[i])
  }

  /** The pieces as `". ".join` lays them out between full stops: the first as it is,
      every later one behind a space. */
  function Spaced(ps: seq<string>): (r: seq<string>)
    ensures |r| == |ps|
    ensures |ps| > 0 ==> r[0] == ps[0] && forall i :: 1 <= i < |ps| ==> r[i] == " " + ps[i]
  {
    if |ps| == 0 then [] else [ps[0]] + AddSpace(ps[1..])
  }

  /** A space before a `". "`-join is the `"."`-join of the pieces with a space each. */
  lemma {:induction false} SpaceBeforeJoin(ps: seq<string>)
    requires |ps| > 0
    ensures " " + Join(ps, ". ") == Join(AddSpace(ps), ".")
    decreases |ps|
  {
    if |ps| > 1 {
      SpaceBeforeJoin(ps[1..]);
      assert AddSpace(ps)[1..] == AddSpace(ps[1..]);
      assert " " + Join(ps, ". ") == (" " + ps[0]) + "." + (" " + Join(ps[1..], ". "));
    }
  }

  /** Joining by `". "` is joining the spaced pieces by `"."`. */
  lemma JoinIsSpacedJoin(ps: seq<string>)
    ensures Join(ps, ". ") == Join(Spaced(ps), ".")
  {
    if |ps| > 1 {
      var tail := AddSpace(ps[1..]);
      assert Spaced(ps) == [ps[0]] + tail;
      JoinCons(ps[0], tail, ".");
      SpaceBeforeJoin(ps[1..]);
      DotThenSpace(ps[0], Join(ps[1..], ". "));
    }
  }

  /** Joining a first piece in front of a non-empty rest puts one separator between them. */
  lemma JoinCons(x: string, tail: seq<string>, sep: string)
    requires |tail| > 0
    ensures Join([x] + tail, sep) == x + sep + Join(tail, sep)
  {
    assert ([x] + tail)[1..] == tail;
  }

  lemma DotThenSpace(x: string, rest: string)
    ensures x + ". " + rest == x + "." + (" " + rest)
  {
    assert ". " == "." + " ";
  }

  /** The summary of each chunk of at least 30 words, in order: the model's, or the
      fallback when the model raises. */
  function ChunkSummaries(chunks: seq<string>, model: string -> Option<string>): (r: seq<string>)
    ensures |r| <= |chunks|
  {
    if |chunks| == 0 then []
    else
      var last := chunks[|chunks| - 1];
      ChunkSummaries(chunks[..|chunks| - 1], model)
      + (if |Words(last)| < ShortChunkWords then [] else [model(last).GetOr(FallbackSummary(last))])
  }

  /** Chunks shorter than 30 words add nothing: the summaries are those of the long chunks. */
  lemma {:induction false} ShortChunksIgnored(chunks: seq<string>, model: string -> Option<string>)
    ensures |ChunkSummaries(chunks, model)| == |LongChunks(chunks)|
    ensures ChunkSummaries(chunks, model) == ChunkSummaries(LongChunks(chunks), model)
  {
    if |chunks| > 0 {
      var init := chunks[..|chunks| - 1];
      var last := chunks[|chunks| - 1];
      ShortChunksIgnored(init, model);
      var longs := LongChunks(init);
      if |Words(last)| >= ShortChunkWords {
        assert LongChunks(chunks) == longs + [last];
        assert (longs + [last])[..|longs|] == longs;
        assert ChunkSummaries(longs + [last], model)
            == ChunkSummaries(longs, model) + [model(last).GetOr(FallbackSummary(last))];
      } else {
        assert LongChunks(chunks) == longs;
        assert ChunkSummaries(chunks, model) == ChunkSummaries(init, model);
      }
    }
  }

  function LongChunks(chunks: seq<string>): seq<string> {
    if |chunks| == 0 then []
    else
      var last := chunks[|chunks| - 1];
      LongChunks(chunks[..|chunks| - 1]) + (if |Words(last)| < ShortChunkWords then [] else [last])
  }

  /** What `summarize` answers. */
  function SummaryOf(text: string, kind: string, model: string -> Option<string>): string {
    var clean := CleanText(text);
    if |Words(clean)| < ShortTextWords then clean
    else FormatByType(kind, Join(ChunkSummaries(ChunkStrings(clean, MaxChunkLength), model), " "))
  }

  /** A text of fewer than 50 words comes back cleaned, without any prefix; a longer one
      gets the prefix of its type. */
  lemma SummaryOfShape(text: string, kind: string, model: string -> Option<string>)
    ensures |Words(text)| < ShortTextWords ==> SummaryOf(text, kind, model) == CleanText(text)
    ensures |Words(text)| >= ShortTextWords && kind == "resume" ==> StartsWith(SummaryOf(text, kind, model), ResumePrefix)
    ensures |Words(text)| >= ShortTextWords && kind == "job" ==> StartsWith(SummaryOf(text, kind, model), JobPrefix)
  {
    var clean := CleanText(text);
    if |Words(text)| >= ShortTextWords {
      assert |Words(clean)| >= ShortTextWords;
    }
  }

  /** One pass of the chunk loop: a chunk of fewer than 30 words is skipped; otherwise the
      model's summary, or the fallback when the model raises, is appended. */
  method AddSummary(summaries: seq<string>, chunk: string, model: string -> Option<string>) returns (r: seq<string>)
    ensures r == summaries + (if |Words(chunk)| < ShortChunkWords then [] else [model(chunk).GetOr(FallbackSummary(chunk))])
  {
    if |Words(chunk)| < ShortChunkWords {
      return summaries;
    }
    var summary := model(chunk);
    if summary.Some? {
      r := summaries + [summary.value];
    } else {
      r := summaries + [FallbackSummary(chunk)];
    }
  }

  lemma ChunkSummariesStep(chunks: seq<string>, k: nat, model: string -> Option<string>)
    requires k < |chunks|
    ensures ChunkSummaries(chunks[..k + 1], model) == ChunkSummaries(chunks[..k], model)
      + (if |Words(chunks[k])| < ShortChunkWords then [] else [model(chunks[k]).GetOr(FallbackSummary(chunks[k]))])
  {
    assert chunks[..k + 1][..k] == chunks[..k];
  }

  /** `summarize`: clean, return short texts as they are, else summarize chunk by chunk. */
  method Summarize(text: string, kind: string, model: string -> Option<string>) returns (r: string)
    ensures r == SummaryOf(text, kind, model)
  {
    var clean := CleanText(text);
    if |Words(clean)| < ShortTextWords {
      return clean;
    }
    var chunks := SplitIntoChunks(clean, MaxChunkLength);
    var summaries: seq<string> := [];
    for k := 0 to |chunks|
      invariant summaries == ChunkSummaries(chunks[..k], model)
    {
      ChunkSummariesStep(chunks, k, model);
      summaries := AddSummary(summaries, chunks[k], model);
    }
    assert chunks[..|chunks|] == chunks;
    r := FormatByType(kind, Join(summaries, " "));
  }
}
