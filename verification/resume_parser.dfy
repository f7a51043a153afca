/**
 * The deterministic parts of the full resume parser
 * (ai-service/agents/resume_parser.py): section extraction, the name
 * fallback, the splitting of experience entries into title, company,
 * duration and description, and the post-processing of extracted skills.
 *
 * The spaCy person entity, the regular expressions that find durations,
 * bullet points and skill mentions, and the split of the experience section
 * into entries are parameters.
 */
module ResumeParser {
  import opened Common
  import opened Text
  import opened Lists
  import opened Sorting
  import opened Sections
  import opened AgentTypes

  /** Headers that can close a resume section. */
  const CommonHeaders: seq<string> := ["education", "experience", "skills", "projects", "certifications",
                                       "publications", "awards", "languages", "interests", "references"]
  const SkillHeaders: seq<string> := ["skills", "technical skills", "technologies"]
  const ExperienceHeaders: seq<string> := ["experience", "work experience", "professional experience", "employment"]

  /** The known technical terms searched for in the whole text. */
  const TechSkills: seq<string> := [
    "Python", "Java", "JavaScript", "C++", "C#", "TypeScript", "PHP", "Go", "Ruby", "Swift",
    "Kotlin", "React", "Angular", "Vue", "Node.js", "Express", "Django", "Flask", "Spring Boot",
    "SQL", "MongoDB", "PostgreSQL", "MySQL", "Oracle", "AWS", "Azure", "GCP", "Docker", "Kubernetes",
    "Machine Learning", "AI", "Data Science", "DevOps", "CI/CD", "Git", "HTML", "CSS", "TensorFlow",
    "PyTorch", "Scikit-learn", "NLP", "Computer Vision", "REST API", "GraphQL", "Microservices"]

  /** How many leading lines the name fallback looks at. */
  const NameLines: nat := 10

  /** `_extract_section` with the resume's common headers. */
  method ExtractSection(text: string, headers: seq<string>) returns (r: string)
    ensures r == Section(text, headers, CommonHeaders)
    ensures Strip(r) == r
    ensures (forall l :: l in Split(text, '\n') ==> !HasHeader(l, headers)) ==> r == ""
  {
    r := Sections.ExtractSection(text, headers, CommonHeaders);
    SectionAbsent(text, headers, CommonHeaders);
  }

  // ---------------------------------------------------------------------
  // name

  /** A stripped line of two to five words, each starting with an upper-case letter. */
  predicate IsNameLine(line: string) {
    var ws := Words(line);
    2 <= |ws| <= 5 && forall i :: 0 <= i < |ws| ==> |ws[i]| > 0 && IsUpperChar(ws[i][0])
  }

  function Head(lines: seq<string>, n: nat): (r: seq<string>)
    ensures |r| == if |lines| < n then |lines| else n
    ensures forall i :: 0 <= i < |r| ==> r[i] == lines[i]
  {
    if |lines| < n then lines else lines[..n]
  }

  predicate StrippedIsNameLine(line: string) {
    IsNameLine(Strip(line))
  }

  /** The name fallback: the first of the first ten lines that, stripped, looks like a name. */
  function NameFallback(text: string): (r: string)
  {
    var lines := Head(Split(text, '\n'), NameLines);
    var k := FindFrom(lines, StrippedIsNameLine, 0);
    if k == |lines| then "Unknown" else Strip(lines[k])
  }

  /** "Unknown" comes back when none of the first ten lines qualifies. */
  lemma NameFallbackNone(text: string)
    requires forall i :: 0 <= i < |Split(text, '\n')| && i < NameLines ==> !IsNameLine(Strip(Split(text, '\n')[i]))
    ensures NameFallback(text) == "Unknown"
  {
    var all := Split(text, '\n');
    var lines := Head(all, NameLines);
    forall i | 0 <= i < |lines| ensures !StrippedIsNameLine(lines[i]) {
      assert lines[i] == all[i];
    }
    FindFromUnique(lines, StrippedIsNameLine, 0, |lines|);
  }

  /** Otherwise the result is the first qualifying line, stripped, which is never "Unknown";
      so "Unknown" comes back exactly when no line qualifies. */
  lemma NameFallbackFirst(text: string, k: nat)
    requires k < |Split(text, '\n')| && k < NameLines && IsNameLine(Strip(Split(text, '\n')[k]))
    requires forall i :: 0 <= i < k ==> !IsNameLine(Strip(Split(text, '\n')[i]))
    ensures NameFallback(text) == Strip(Split(text, '\n')[k])
    ensures NameFallback(text) != "Unknown"
  {
    var all := Split(text, '\n');
    var lines := Head(all, NameLines);
    forall i | 0 <= i < k ensures !StrippedIsNameLine(lines[i]) {
      assert lines[i] == all[i];
    }
    FindFromUnique(lines, StrippedIsNameLine, 0, k);
    UnknownIsNoName();
  }

  /** A single word never looks like a name. */
  lemma UnknownIsNoName()
    ensures !IsNameLine("Unknown")
  {
    WordsOfWord("Unknown");
  }

  /** `_extract_name`: the person entity near the start when spaCy finds one, else the fallback. */
  method ExtractName(text: string, person: Option<string>) returns (r: string)
    ensures person.Some? ==> r == person.value
    ensures person.None? ==> r == NameFallback(text)
  {
    if person.Some? {
      return person.value;
    }
    var lines := Head(Split(text, '\n'), NameLines);
    var k := FirstNameLine(lines);
    if k < |lines| {
      return Strip(lines[k]);
    }
    r := "Unknown";
  }

  /** The scan over the leading lines. */
  method FirstNameLine(lines: seq<string>) returns (k: nat)
    ensures k == FindFrom(lines, StrippedIsNameLine, 0)
  {
    k := 0;
    while k < |lines|
      invariant 0 <= k <= |lines|
      invariant forall j :: 0 <= j < k ==> !StrippedIsNameLine(lines[j])
    {
      if StrippedIsNameLine(lines[k]) {
        break;
      }
      k := k + 1;
    }
    FindFromUnique(lines, StrippedIsNameLine, 0, k);
  }

  // ---------------------------------------------------------------------
  // experience entries

  /** The two pieces around the first occurrence of `sep`, each stripped. */
  function AroundFirst(s: string, sep: string): (r: (string, string))
    requires |sep| > 0 && Contains(s, sep)
  {
    var parts := SplitOn(s, sep);
    (Strip(parts[0]), Strip(parts[1]))
  }

  /** Title and company from the (stripped) first line of an entry, `second` being its
      second line when there is one. */
  function TitleCompany(first: string, second: Option<string>, duration: string): (r: (string, string))
  {
    if Contains(first, "|") then AroundFirst(first, "|")
    else if Contains(first, "-") && !Contains(first, duration) then AroundFirst(first, "-")
    else if Contains(first, ",") && !Contains(first, duration) then AroundFirst(first, ",")
    else if Contains(Lower(first), "at") then AtSplit(first)
    else (first, if second.Some? then Strip(second.value) else "")
  }

  lemma ContainsChar(s: string, c: char)
    ensures Contains(s, [c]) <==> c in s
  {
    forall i | OccursAt(s, [c], i) ensures s[i] == c {
      assert s[i..i + 1] == [c];
    }
    if c in s {
      var i :| 0 <= i < |s| && s[i] == c;
      assert OccursAt(s, [c], i);
    }
  }

  /** The first piece of a split on a character that occurs is the text before its
      first occurrence. */
  lemma FirstPiece(s: string, c: char)
    requires c in s
    ensures var p := SplitOn(s, [c])[0];
      |p| < |s| && s[|p|] == c && s[..|p|] == p && c !in p
  {
    ContainsChar(s, c);
    var r := SplitOn(s, [c]);
    var p := r[0];
    assert |r| > 1;
    assert StartsWith(s, p + [c]);
    var q := s[..|p| + 1];
    assert q == p + [c];
    assert q[|p|] == c && q[..|p|] == p;
    ContainsChar(p, c);
  }

  /** A `|` always wins: the title is what precedes the first `|`, stripped. */
  lemma PipeRule(first: string, second: Option<string>, duration: string)
    requires '|' in first
    ensures exists k :: 0 <= k < |first| && first[k] == '|' && '|' !in first[..k]
                        && TitleCompany(first, second, duration).0 == Strip(first[..k])
  {
    ContainsChar(first, '|');
    assert TitleCompany(first, second, duration) == AroundFirst(first, "|");
    FirstPiece(first, '|');
    var k := |SplitOn(first, "|")[0]|;
    assert first[..k] == SplitOn(first, "|")[0];
  }

  /** Without a `|`, a dash splits only when the duration is not part of the line; the
      title is then what precedes the first dash. */
  lemma DashRule(first: string, second: Option<string>, duration: string)
    requires '|' !in first && '-' in first && !Contains(first, duration)
    ensures exists k :: 0 <= k < |first| && first[k] == '-' && '-' !in first[..k]
                        && TitleCompany(first, second, duration).0 == Strip(first[..k])
  {
    ContainsChar(first, '|');
    ContainsChar(first, '-');
    assert TitleCompany(first, second, duration) == AroundFirst(first, "-");
    FirstPiece(first, '-');
    var k := |SplitOn(first, "-")[0]|;
    assert first[..k] == SplitOn(first, "-")[0];
  }

  /** An empty duration counts as contained in every line, so without one neither a
      dash nor a comma ever splits. */
  lemma EmptyDurationSkipsDashAndComma(first: string, second: Option<string>)
    requires '|' !in first
    ensures TitleCompany(first, second, "") ==
      if Contains(Lower(first), "at") then AtSplit(first)
      else (first, if second.Some? then Strip(second.value) else "")
  {
    ContainsChar(first, '|');
    EmptyIsContained(first);
  }

  /** The `at` rule, taken when no earlier rule applies: lower-cased text around the first `at`. */
  function AtSplit(first: string): (r: (string, string))
    requires Contains(Lower(first), "at")
    ensures Lower(r.0) == r.0 && Lower(r.1) == r.1
    ensures !Contains(r.0, "at")
  {
    var low := Lower(first);
    var parts := SplitOn(low, "at");
    ReplaceAbsent(parts[0], "at", "");
    StripLower(parts[0]);
    var rest := low[|parts[0]| + 2..];
    assert parts[1] == SplitOn(rest, "at")[0];
    assert parts[1] == rest[..|parts[1]|];
    StripLower(parts[1]);
    StripKeepsAbsent(parts[0], "at");
    (Strip(ReplaceAll(parts[0], "at", "")), Strip(parts[1]))
  }

  /** A piece of lower-case text stays lower-case when stripped. */
  lemma StripLower(s: string)
    requires forall i :: 0 <= i < |s| ==> !IsUpperChar(s[i])
    ensures Lower(Strip(s)) == Strip(s)
  {
    StripSpec(s);
    var a := LeadingSpace(s);
    var b := a + |Strip(s)|;
    LowerOfLower(s[a..b]);
  }

  /** Stripping never creates an occurrence. */
  lemma StripKeepsAbsent(s: string, pat: string)
    requires !Contains(s, pat)
    ensures !Contains(Strip(s), pat)
  {
    StripSpec(s);
    var a := LeadingSpace(s);
    var b := a + |Strip(s)|;
    SliceKeepsAbsent(s, a, b, pat);
  }

  /** What the title and company rules give for a block: its first line, stripped, and
      its second line when there is one. */
  function BlockTitleCompany(block: string, duration: string): (string, string) {
    var lines := Split(block, '\n');
    TitleCompany(Strip(lines[0]), if |lines| > 1 then Some(lines[1]) else None, duration)
  }

  /** One experience entry from a block of the experience section; `duration` is what the
      date patterns find in the block ("" when none). None when the block is blank or
      yields neither a title nor a company. */
  function Entry(block: string, duration: string): (r: Option<Experience>)
    ensures r.None? <==> Strip(block) == "" || BlockTitleCompany(block, duration) == ("", "")
    ensures r.Some? ==> (r.value.title, r.value.company) == BlockTitleCompany(block, duration)
    ensures r.Some? ==> r.value.title != "" || r.value.company != ""
    ensures r.Some? ==> r.value.duration == duration
    ensures r.Some? ==> Strip(r.value.description) == r.value.description
    ensures r.Some? && |Split(block, '\n')| <= 2 ==> r.value.description == ""
    ensures r.Some? && |Split(block, '\n')| > 2 ==>
      r.value.description == Strip(Join(Split(block, '\n')[2..], "\n"))
  {
    if Strip(block) == "" then None
    else
      var lines := Split(block, '\n');
      var tc := BlockTitleCompany(block, duration);
      var rest := Join(if |lines| > 2 then lines[2..] else [], "\n");
      StripIdempotent(rest);
      assert |lines| <= 2 ==> Strip(rest) == "";
      if tc.0 != "" || tc.1 != "" then Some(Experience(tc.0, tc.1, duration, Strip(rest))) else None
  }

  /** The entry of a block, with its duration found by `durationOf`. */
  function EntryWith(durationOf: string -> string): string -> Option<Experience> {
    b => Entry(b, durationOf(b))
  }

  /** The entry of every block, present or not, in block order. */
  function BlockEntries(blocks: seq<string>, durationOf: string -> string): (r: seq<Option<Experience>>)
    ensures |r| == |blocks|
    ensures forall i :: 0 <= i < |blocks| ==> r[i] == Entry(blocks[i], durationOf(blocks[i]))
  {
    Map(blocks, EntryWith(durationOf))
  }

  /** The entries of a list of blocks, in order: exactly the blocks that have an entry
      contribute it, and the entries of joined lists are joined (`ExperiencesConcat`). */
  function Experiences(blocks: seq<string>, durationOf: string -> string): (r: seq<Experience>)
    ensures |r| <= |blocks|
    ensures forall e :: e in r ==> exists i :: 0 <= i < |blocks| && Entry(blocks[i], durationOf(blocks[i])) == Some(e)
    ensures forall i :: 0 <= i < |blocks| && Entry(blocks[i], durationOf(blocks[i])).Some? ==>
      Entry(blocks[i], durationOf(blocks[i])).value in r
    ensures forall e :: e in r ==> e.title != "" || e.company != ""
  {
    var os := BlockEntries(blocks, durationOf);
    PresentExactly(os);
    Present(os)
  }

  /** A single block contributes its entry when it has one. */
  lemma ExperiencesOfOne(b: string, durationOf: string -> string)
    ensures var e := Entry(b, durationOf(b));
      Experiences([b], durationOf) == if e.Some? then [e.value] else []
  {
    var os := BlockEntries([b], durationOf);
    assert os[..0] == [];
  }

  /** The entries of two lists of blocks one after the other are the entries of each, joined. */
  lemma ExperiencesConcat(a: seq<string>, b: seq<string>, durationOf: string -> string)
    ensures Experiences(a + b, durationOf) == Experiences(a, durationOf) + Experiences(b, durationOf)
  {
    var ea, eb := BlockEntries(a, durationOf), BlockEntries(b, durationOf);
    MapConcat(a, b, EntryWith(durationOf));
    PresentConcat(ea, eb);
  }

  /** `_extract_experience`: nothing without an experience section, otherwise the entries of
      the blocks the section splits into (`splitBlocks`), durations found by `durationOf`. */
  function ExperienceOf(text: string, splitBlocks: string -> seq<string>, durationOf: string -> string): (r: seq<Experience>)
    ensures Section(text, ExperienceHeaders, CommonHeaders) == "" ==> r == []
    ensures forall e :: e in r ==> e.title != "" || e.company != ""
    ensures var blocks := splitBlocks(Section(text, ExperienceHeaders, CommonHeaders));
      Section(text, ExperienceHeaders, CommonHeaders) != "" ==>
        && (forall e :: e in r ==> exists i :: 0 <= i < |blocks| && Entry(blocks[i], durationOf(blocks[i])) == Some(e))
        && (forall i :: 0 <= i < |blocks| && Entry(blocks[i], durationOf(blocks[i])).Some? ==>
              Entry(blocks[i], durationOf(blocks[i])).value in r)
  {
    var section := Section(text, ExperienceHeaders, CommonHeaders);
    if section == "" then [] else Experiences(splitBlocks(section), durationOf)
  }

  /** The entry loop, over blocks as the entry pattern would give them without its
      capturing groups. */
  method EntriesOf(blocks: seq<string>, durationOf: string -> string) returns (r: seq<Experience>)
    ensures r == Experiences(blocks, durationOf)
  {
    r := [];
    var i := 0;
    while i < |blocks|
      invariant 0 <= i <= |blocks|
      invariant r == Experiences(blocks[..i], durationOf)
    {
      var block := blocks[i];
      ExperiencesStep(blocks, i, durationOf);
      i := i + 1;
      if Strip(block) == "" {
        continue;
      }
      var e := Entry(block, durationOf(block));
      if e.Some? {
        r := r + [e.value];
      }
    }
    assert blocks[..i] == blocks;
  }

  lemma ExperiencesStep(blocks: seq<string>, i: nat, durationOf: string -> string)
    requires i < |blocks|
    ensures var e := Entry(blocks[i], durationOf(blocks[i]));
      Experiences(blocks[..i + 1], durationOf) == Experiences(blocks[..i], durationOf) + (if e.Some? then [e.value] else [])
  {
    assert blocks[..i + 1] == blocks[..i] + [blocks[i]];
    ExperiencesConcat(blocks[..i], [blocks[i]], durationOf);
    ExperiencesOfOne(blocks[i], durationOf);
  }

  method ExtractExperience(text: string, splitBlocks: string -> seq<string>, durationOf: string -> string)
    returns (r: seq<Experience>)
    ensures r == ExperienceOf(text, splitBlocks, durationOf)
  {
    var section := ExtractSection(text, ExperienceHeaders);
    if section == "" {
      return [];
    }
    r := EntriesOf(splitBlocks(section), durationOf);
  }

  // ---------------------------------------------------------------------
  // the entry split as written

  /** A boundary the entry pattern finds before a line: whether the line starts with a
      year (first alternative) or with a month and year (second), and the century the
      alternative's group captured. */
  datatype Boundary = Boundary(yearFirst: bool, century: string)

  /** The values of the pattern's two capturing groups at a boundary: the group of the
      alternative that did not match is None. */
  function Groups(b: Boundary): (r: seq<Option<string>>)
    ensures |r| == 2 && None in r
  {
    if b.yearFirst then [Some(b.century), None] else [None, Some(b.century)]
  }

  /** What `re.split` returns for a section cut into `first` and the pieces after each
      boundary: every boundary contributes its group values between the pieces. */
  function SplitWithGroups(first: string, rest: seq<(Boundary, string)>): (r: seq<Option<string>>)
    ensures |rest| > 0 ==> None in r
    decreases |rest|
  {
    if |rest| == 0 then [Some(first)]
    else
      var last := rest[|rest| - 1];
      var g := Groups(last.0);
      var r := SplitWithGroups(first, rest[..|rest| - 1]) + g + [Some(last.1)];
      assert None in g;
      r
  }

  /** The pieces themselves, which the entry pattern was evidently meant to produce. */
  function Pieces(first: string, rest: seq<(Boundary, string)>): (r: seq<string>)
    ensures |r| == |rest| + 1
  {
    [first] + seq(|rest|, i requires 0 <= i < |rest| => rest[i].1)
  }

  /** The entry loop as written, over the items `re.split` returns: a None item raises
      (None has no `strip`), which is None here. */
  function ExperiencesAsWritten(items: seq<Option<string>>, durationOf: string -> string): (r: Option<seq<Experience>>)
    ensures r.None? <==> None in items
    decreases |items|
  {
    if |items| == 0 then Some([])
    else
      var init := items[..|items| - 1];
      assert items == init + [items[|items| - 1]];
      match ExperiencesAsWritten(init, durationOf)
      case None => None
      case Some(es) =>
        match items[|items| - 1]
        case None => None
        case Some(b) =>
          var e := Entry(b, durationOf(b));
          Some(es + if e.Some? then [e.value] else [])
  }

  /** As written, any experience section the pattern splits at least once makes the
      parser raise, so the whole resume parse fails; splitting without the groups yields
      the entries. */
  lemma ExperienceRaisesAsWritten(first: string, rest: seq<(Boundary, string)>, durationOf: string -> string)
    requires |rest| > 0
    ensures ExperiencesAsWritten(SplitWithGroups(first, rest), durationOf).None?
    ensures forall e :: e in Experiences(Pieces(first, rest), durationOf) ==> e.title != "" || e.company != ""
  {
  }

  // ---------------------------------------------------------------------
  // skills

  /** The known terms the text mentions (`mentioned` is the word-boundary, case-insensitive search). */
  function MentionedSkills(mentioned: string -> bool): (r: set<string>)
    ensures forall x :: x in r <==> x in TechSkills && mentioned(x)
  {
    set s | s in TechSkills && mentioned(s)
  }

  /** The pieces of the skills section: its bullet items (`bullets`) or, without any, its
      comma-separated parts. */
  function SkillCandidates(section: string, bullets: string -> seq<string>): seq<string> {
    if |bullets(section)| > 0 then bullets(section) else SplitOn(section, ",")
  }

  /** A piece is kept when its stripped form has between 2 and 30 characters. */
  predicate KeepsPiece(x: string) {
    2 <= |Strip(x)| <= 30
  }

  /** The stripped forms of the kept pieces. */
  function Kept(xs: seq<string>): set<string>
    decreases |xs|
  {
    if |xs| == 0 then {}
    else
      var last := xs[|xs| - 1];
      Kept(xs[..|xs| - 1]) + (if KeepsPiece(last) then {Strip(last)} else {})
  }

  /** Every kept string is the stripped form of a kept piece. */
  lemma {:induction false} KeptSound(xs: seq<string>, y: string)
    requires y in Kept(xs)
    ensures exists i :: 0 <= i < |xs| && KeepsPiece(xs[i]) && Strip(xs[i]) == y
    decreases |xs|
  {
    var n := |xs| - 1;
    if !(KeepsPiece(xs[n]) && Strip(xs[n]) == y) {
      var init := xs[..n];
      KeptSound(init, y);
      var i :| 0 <= i < |init| && KeepsPiece(init[i]) && Strip(init[i]) == y;
      assert xs[i] == init[i];
    }
  }

  /** The stripped form of every kept piece is kept. */
  lemma {:induction false} KeptComplete(xs: seq<string>, i: nat)
    requires i < |xs| && KeepsPiece(xs[i])
    ensures Strip(xs[i]) in Kept(xs)
    decreases |xs|
  {
    var n := |xs| - 1;
    var init := xs[..n];
    var tail: set<string> := if KeepsPiece(xs[n]) then {Strip(xs[n])} else {};
    assert Kept(xs) == Kept(init) + tail;
    if i < n {
      assert init[i] == xs[i];
      KeptComplete(init, i);
    } else {
      assert Strip(xs[i]) in tail;
    }
  }

  /** `x` is the stripped form of one of the pieces, 2 to 30 characters long. */
  predicate KeptFrom(xs: seq<string>, x: string) {
    exists i :: 0 <= i < |xs| && KeepsPiece(xs[i]) && Strip(xs[i]) == x
  }

  /** The kept strings are exactly the stripped forms of the kept pieces. */
  lemma KeptExactly(xs: seq<string>)
    ensures forall x :: x in Kept(xs) <==> KeptFrom(xs, x)
  {
    forall x ensures x in Kept(xs) <==> KeptFrom(xs, x) {
      if x in Kept(xs) {
        KeptSound(xs, x);
      }
      if KeptFrom(xs, x) {
        var i :| 0 <= i < |xs| && KeepsPiece(xs[i]) && Strip(xs[i]) == x;
        KeptComplete(xs, i);
      }
    }
  }

  /** The skills `_extract_skills` collects before sorting: the known terms mentioned and,
      when there is a skills section, the stripped forms of its 2-30 character pieces. */
  function SkillSet(text: string, mentioned: string -> bool, bullets: string -> seq<string>): (r: set<string>)
    ensures MentionedSkills(mentioned) <= r
    ensures forall x :: x in r ==> x in MentionedSkills(mentioned) || (2 <= |x| <= 30 && Strip(x) == x)
    ensures Section(text, SkillHeaders, CommonHeaders) == "" ==> r == MentionedSkills(mentioned)
    ensures var section := Section(text, SkillHeaders, CommonHeaders);
      section != "" ==>
        forall x :: x in r <==> x in MentionedSkills(mentioned) || KeptFrom(SkillCandidates(section, bullets), x)
  {
    var section := Section(text, SkillHeaders, CommonHeaders);
    if section == "" then MentionedSkills(mentioned)
    else
      KeptIsStripped(SkillCandidates(section, bullets));
      KeptExactly(SkillCandidates(section, bullets));
      MentionedSkills(mentioned) + Kept(SkillCandidates(section, bullets))
  }

  lemma KeptIsStripped(xs: seq<string>)
    ensures forall x :: x in Kept(xs) ==> 2 <= |x| <= 30 && Strip(x) == x
  {
    forall x | x in Kept(xs) ensures 2 <= |x| <= 30 && Strip(x) == x {
      KeptSound(xs, x);
      var i :| 0 <= i < |xs| && KeepsPiece(xs[i]) && Strip(xs[i]) == x;
      StripIdempotent(xs[i]);
    }
  }

  /** The loop over the known terms. */
  method FindMentioned(mentioned: string -> bool) returns (found: set<string>)
    ensures found == MentionedSkills(mentioned)
  {
    found := {};
    for i := 0 to |TechSkills|
      invariant found == set s | s in TechSkills[..i] && mentioned(s)
    {
      assert TechSkills[..i + 1] == TechSkills[..i] + [TechSkills[i]];
      if mentioned(TechSkills[i]) {
        found := found + {TechSkills[i]};
      }
    }
    assert TechSkills[..|TechSkills|] == TechSkills;
  }

  /** The loop over the section's pieces. */
  method AddKept(found0: set<string>, xs: seq<string>) returns (found: set<string>)
    ensures found == found0 + Kept(xs)
  {
    found := found0;
    for j := 0 to |xs|
      invariant found == found0 + Kept(xs[..j])
    {
      KeptStep(xs, j);
      found := AddPiece(found, xs[j]);
    }
    assert xs[..|xs|] == xs;
  }

  /** One pass of the piece loop: the stripped piece is added when its length is 2 to 30. */
  method AddPiece(found: set<string>, piece: string) returns (r: set<string>)
    ensures r == found + (if KeepsPiece(piece) then {Strip(piece)} else {})
  {
    r := found;
    var skill := Strip(piece);
    if 2 <= |skill| <= 30 {
      r := r + {skill};
    }
  }

  lemma KeptStep(xs: seq<string>, j: nat)
    requires j < |xs|
    ensures Kept(xs[..j + 1]) == Kept(xs[..j]) + (if KeepsPiece(xs[j]) then {Strip(xs[j])} else {})
  {
    assert xs[..j + 1][..j] == xs[..j];
  }

  /** The collection part of `_extract_skills`. */
  method CollectSkills(text: string, mentioned: string -> bool, bullets: string -> seq<string>)
    returns (found: set<string>)
    ensures found == SkillSet(text, mentioned, bullets)
  {
    found := FindMentioned(mentioned);
    var section := ExtractSection(text, SkillHeaders);
    if section != "" {
      var additional := bullets(section);
      if |additional| == 0 {
        additional := SplitOn(section, ",");
      }
      found := AddKept(found, additional);
    }
  }

  /** `sorted(list(s))` on strings: each element once, in code-point order. */
  method SortedList(s: set<string>) returns (r: seq<string>)
    ensures forall x :: x in r <==> x in s
    ensures Sorted(r, LexLe)
    ensures Distinct(r)
  {
    var listed := ListOf(s);
    LexLeIsTotalPreorder();
    SortBySorted(listed, LexLe);
    r := SortBy(listed, LexLe);
    DistinctPerm(listed, r);
    assert forall x :: x in r <==> x in multiset(listed);
  }

  /** `_extract_skills` after the searches: the collected skills, sorted, each once. */
  method ExtractSkills(text: string, mentioned: string -> bool, bullets: string -> seq<string>) returns (r: seq<string>)
    ensures forall x :: x in r <==> x in SkillSet(text, mentioned, bullets)
    ensures Sorted(r, LexLe)
    ensures Distinct(r)
  {
    var found := CollectSkills(text, mentioned, bullets);
    r := SortedList(found);
  }
}
