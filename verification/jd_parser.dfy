/**
 * The deterministic parts of the full job-description parser
 * (ai-service/agents/jd_parser.py): section extraction, the title and
 * company fallbacks, the shaping of requirement and responsibility lists,
 * and the job-type keyword search.
 *
 * The title and company patterns, the spaCy organisation entity, the bullet
 * pattern and the sentence splitter are parameters.
 */
module JdParser {
  import opened Common
  import opened Text
  import opened Sections
  import opened Lists
  import Models

  /** Headers that can close a job-description section. */
  const CommonHeaders: seq<string> := ["requirements", "responsibilities", "qualifications", "about",
                                       "benefits", "company", "what we offer", "apply"]
  const RequirementHeaders: seq<string> := ["requirements", "qualifications", "what you need",
                                            "what we're looking for", "what we require", "minimum requirements"]
  const ResponsibilityHeaders: seq<string> := ["responsibilities", "duties", "what you'll do",
                                               "job description", "the role", "day-to-day"]

  /** How many leading lines the title fallback looks at, and the length a title stays under. */
  const TitleLines: nat := 5
  const TitleLimit: nat := 100

  /** `_extract_section` with the job description's common headers. */
  method ExtractSection(text: string, headers: seq<string>) returns (r: string)
    ensures r == Section(text, headers, CommonHeaders)
    ensures Strip(r) == r
    ensures (forall l :: l in Split(text, '\n') ==> !HasHeader(l, headers)) ==> r == ""
  {
    r := Sections.ExtractSection(text, headers, CommonHeaders);
    SectionAbsent(text, headers, CommonHeaders);
  }

  // ---------------------------------------------------------------------
  // title and company

  /** A line that, stripped, is non-empty and shorter than the limit. */
  predicate IsTitleLine(line: string) {
    var t := Strip(line);
    |t| > 0 && |t| < TitleLimit
  }

  function Head(lines: seq<string>, n: nat): (r: seq<string>)
    ensures |r| == if |lines| < n then |lines| else n
    ensures forall i :: 0 <= i < |r| ==> r[i] == lines[i]
  {
    if |lines| < n then lines else lines[..n]
  }

  /** The title fallback: the first usable line among the first five, else "Unknown Position". */
  function TitleFallback(text: string): (r: string)
    ensures 0 < |r| < TitleLimit
  {
    var lines := Head(Split(text, '\n'), TitleLines);
    var k := FindFrom(lines, IsTitleLine, 0);
    if k == |lines| then "Unknown Position" else Strip(lines[k])
  }

  /** With no usable line among the first five the title is "Unknown Position". */
  lemma TitleFallbackNone(text: string)
    requires forall i :: 0 <= i < |Split(text, '\n')| && i < TitleLines ==> !IsTitleLine(Split(text, '\n')[i])
    ensures TitleFallback(text) == "Unknown Position"
  {
    var all := Split(text, '\n');
    var lines := Head(all, TitleLines);
    assert forall i :: 0 <= i < |lines| ==> !IsTitleLine(lines[i]) by {
      forall i | 0 <= i < |lines| ensures !IsTitleLine(lines[i]) {
        assert lines[i] == all[i];
      }
    }
    FindFromUnique(lines, IsTitleLine, 0, |lines|);
  }

  /** Otherwise the title is the first usable line, stripped. */
  lemma TitleFallbackFirst(text: string, k: nat)
    requires k < |Split(text, '\n')| && k < TitleLines && IsTitleLine(Split(text, '\n')[k])
    requires forall i :: 0 <= i < k ==> !IsTitleLine(Split(text, '\n')[i])
    ensures TitleFallback(text) == Strip(Split(text, '\n')[k])
  {
    var all := Split(text, '\n');
    var lines := Head(all, TitleLines);
    FindFromUnique(lines, IsTitleLine, 0, k);
  }

  /** The scan over the leading lines. */
  method FirstTitleLine(lines: seq<string>) returns (k: nat)
    ensures k == FindFrom(lines, IsTitleLine, 0)
  {
    k := 0;
    while k < |lines|
      invariant 0 <= k <= |lines|
      invariant forall j :: 0 <= j < k ==> !IsTitleLine(lines[j])
    {
      if IsTitleLine(lines[k]) {
        break;
      }
      k := k + 1;
    }
    FindFromUnique(lines, IsTitleLine, 0, k);
  }

  /** `_extract_title`: the text captured by the first matching title pattern (`explicit`),
      stripped, else the fallback. */
  method ExtractTitle(text: string, explicit: Option<string>) returns (r: string)
    ensures explicit.Some? ==> r == Strip(explicit.value)
    ensures explicit.None? ==> r == TitleFallback(text)
  {
    if explicit.Some? {
      return Strip(explicit.value);
    }
    var lines := Head(Split(text, '\n'), TitleLines);
    var k := FirstTitleLine(lines);
    if k < |lines| {
      return Strip(lines[k]);
    }
    r := "Unknown Position";
  }

  /** `_extract_company`: the captured text of the first matching company pattern, stripped,
      else the first organisation entity, else "Unknown Company". */
  function ExtractCompany(explicit: Option<string>, org: Option<string>): (r: string)
    ensures explicit.Some? ==> r == Strip(explicit.value)
    ensures explicit.None? && org.Some? ==> r == org.value
    ensures explicit.None? && org.None? ==> r == "Unknown Company"
  {
    if explicit.Some? then Strip(explicit.value)
    else if org.Some? then org.value
    else "Unknown Company"
  }

  // ---------------------------------------------------------------------
  // requirements and responsibilities

  /** `x.strip()` of every item, in order. */
  function StripAll(xs: seq<string>): (r: seq<string>)
    ensures |r| == |xs| && forall i :: 0 <= i < |xs| ==> r[i] == Strip(xs[i])
  {
    seq(|xs|, i requires 0 <= i < |xs| => Strip(xs[i]))
  }

  predicate NonBlank(s: string) {
    s != ""
  }

  /** `[x.strip() for x in xs if x.strip()]`: the stripped items in their order, blanks
      dropped; every item kept is the strip of an input, and every input that does not
      strip to nothing is kept. */
  function StrippedItems(xs: seq<string>): (r: seq<string>)
    ensures |r| <= |xs|
    ensures IsSubseq(r, StripAll(xs))
    ensures forall x :: x in r ==> x != "" && Strip(x) == x
    ensures forall x :: x in r ==> exists i :: 0 <= i < |xs| && Strip(xs[i]) == x
    ensures forall x :: x in xs && Strip(x) != "" ==> Strip(x) in r
    ensures forall x :: multiset(r)[x] == if x != "" then multiset(StripAll(xs))[x] else 0
  {
    StrippedItemsSound(xs);
    StrippedItemsComplete(xs);
    FilterIsSubseq(StripAll(xs), NonBlank);
    StrippedItemsCounts(xs);
    Filter(StripAll(xs), NonBlank)
  }

  /** Each non-empty stripped input is kept as often as it occurs; the empty string never. */
  lemma StrippedItemsCounts(xs: seq<string>)
    ensures forall x :: multiset(Filter(StripAll(xs), NonBlank))[x] == if x != "" then multiset(StripAll(xs))[x] else 0
  {
    FilterCounts(StripAll(xs), NonBlank);
  }

  /** Every kept item is stripped, non-empty and the strip of some input. */
  lemma StrippedItemsSound(xs: seq<string>)
    ensures forall x :: x in Filter(StripAll(xs), NonBlank) ==>
      x != "" && Strip(x) == x && exists i :: 0 <= i < |xs| && Strip(xs[i]) == x
  {
    var all := StripAll(xs);
    forall x | x in Filter(all, NonBlank)
      ensures x != "" && Strip(x) == x && exists i :: 0 <= i < |xs| && Strip(xs[i]) == x
    {
      var i :| 0 <= i < |all| && all[i] == x;
      StripIdempotent(xs[i]);
    }
  }

  /** Every input that does not strip to nothing is kept, stripped. */
  lemma StrippedItemsComplete(xs: seq<string>)
    ensures forall x :: x in xs && Strip(x) != "" ==> Strip(x) in Filter(StripAll(xs), NonBlank)
  {
    var all := StripAll(xs);
    forall x | x in xs && Strip(x) != "" ensures Strip(x) in Filter(all, NonBlank) {
      var i :| 0 <= i < |xs| && xs[i] == x;
      assert all[i] == Strip(x);
    }
  }

  /** The items of a section: its bullet items (`bullets`) or, without any, its sentences
      (`sentences`), stripped, blanks dropped, in their order; nothing for an absent section. */
  function Items(section: string, bullets: string -> seq<string>, sentences: string -> seq<string>): (r: seq<string>)
    ensures section == "" ==> r == []
    ensures forall x :: x in r ==> x != "" && Strip(x) == x
    ensures section != "" && |bullets(section)| > 0 ==>
      && IsSubseq(r, StripAll(bullets(section)))
      && (forall x :: x in r ==> exists i :: 0 <= i < |bullets(section)| && Strip(bullets(section)[i]) == x)
      && (forall x :: x in bullets(section) && Strip(x) != "" ==> Strip(x) in r)
      && (forall x :: multiset(r)[x] == if x != "" then multiset(StripAll(bullets(section)))[x] else 0)
    ensures section != "" && |bullets(section)| == 0 ==>
      && IsSubseq(r, StripAll(sentences(section)))
      && (forall x :: x in r ==> exists i :: 0 <= i < |sentences(section)| && Strip(sentences(section)[i]) == x)
      && (forall x :: x in sentences(section) && Strip(x) != "" ==> Strip(x) in r)
      && (forall x :: multiset(r)[x] == if x != "" then multiset(StripAll(sentences(section)))[x] else 0)
  {
    if section == "" then []
    else if |bullets(section)| > 0 then StrippedItems(bullets(section))
    else StrippedItems(sentences(section))
  }

  /** `_extract_requirements`. */
  method ExtractRequirements(text: string, bullets: string -> seq<string>, sentences: string -> seq<string>)
    returns (r: seq<string>)
    ensures r == Items(Section(text, RequirementHeaders, CommonHeaders), bullets, sentences)
    ensures forall x :: x in r ==> x != "" && Strip(x) == x
  {
    var section := ExtractSection(text, RequirementHeaders);
    if section == "" {
      return [];
    }
    r := Items(section, bullets, sentences);
  }

  /** `_extract_responsibilities`. */
  method ExtractResponsibilities(text: string, bullets: string -> seq<string>, sentences: string -> seq<string>)
    returns (r: seq<string>)
    ensures r == Items(Section(text, ResponsibilityHeaders, CommonHeaders), bullets, sentences)
    ensures forall x :: x in r ==> x != "" && Strip(x) == x
  {
    var section := ExtractSection(text, ResponsibilityHeaders);
    if section == "" {
      return [];
    }
    r := Items(section, bullets, sentences);
  }

  // ---------------------------------------------------------------------
  // job type

  /** The categories in the order they are tried, each with its keywords. */
  const JobTypes: seq<(string, seq<string>)> := [
    ("full-time", ["full-time", "full time", "permanent", "regular"]),
    ("part-time", ["part-time", "part time"]),
    ("contract", ["contract", "temporary", "contractor"]),
    ("internship", ["internship", "intern"])]

  /** A regular-expression word character (letters, digits, underscore). */
  predicate IsWordChar(c: char) {
    'a' <= c <= 'z' || 'A' <= c <= 'Z' || '0' <= c <= '9' || c == '_'
  }

  /** `\bkw\b` matching at `i`, for a keyword that starts and ends with a letter. */
  predicate WordAt(t: string, kw: string, i: int) {
    OccursAt(t, kw, i)
    && (i == 0 || !IsWordChar(t[i - 1]))
    && (i + |kw| == |t| || !IsWordChar(t[i + |kw|]))
  }

  predicate MentionsWord(t: string, kw: string) {
    exists i :: 0 <= i <= |t| - |kw| && WordAt(t, kw, i)
  }

  predicate CategoryMatches(lower: string, k: nat)
    requires k < |JobTypes|
  {
    exists q :: 0 <= q < |JobTypes[k].1| && MentionsWord(lower, JobTypes[k].1[q])
  }

  /** The first category at or after `k` with a keyword in the text, or `|JobTypes|`. */
  function FirstCategory(lower: string, k: nat): (r: nat)
    requires k <= |JobTypes|
    ensures k <= r <= |JobTypes|
    ensures r < |JobTypes| ==> CategoryMatches(lower, r)
    ensures forall j :: k <= j < r ==> !CategoryMatches(lower, j)
    decreases |JobTypes| - k
  {
    if k == |JobTypes| then k
    else if CategoryMatches(lower, k) then k
    else FirstCategory(lower, k + 1)
  }

  function UpperChar(c: char): char {
    if 'a' <= c <= 'z' then (c as int - 32) as char else c
  }

  /** `str.capitalize()`: first character upper-case, the rest lower-case. */
  function Capitalize(s: string): (r: string)
    ensures |r| == |s|
    ensures Lower(r) == Lower(s)
    ensures |r| > 0 ==> !IsLowerChar(r[0]) && (IsLowerChar(s[0]) ==> IsUpperChar(r[0]))
    ensures forall i :: 1 <= i < |r| ==> !IsUpperChar(r[i])
  {
    if |s| == 0 then "" else [UpperChar(s[0])] + Lower(s[1..])
  }

  /** The category names, capitalised, are the job types the job record accepts. */
  lemma CapitalizedNames()
    ensures Capitalize(JobTypes[0].0) == "Full-time"
    ensures Capitalize(JobTypes[1].0) == "Part-time"
    ensures Capitalize(JobTypes[2].0) == "Contract"
    ensures Capitalize(JobTypes[3].0) == "Internship"
  {
    CapitalizedFullTime();
    CapitalizedPartTime();
    CapitalizedContract();
    CapitalizedInternship();
  }

  lemma CapitalizedFullTime()
    ensures Capitalize("full-time") == "Full-time"
  {
    LowerOfLower("ull-time");
  }

  lemma CapitalizedPartTime()
    ensures Capitalize("part-time") == "Part-time"
  {
    LowerOfLower("art-time");
  }

  lemma CapitalizedContract()
    ensures Capitalize("contract") == "Contract"
  {
    LowerOfLower("ontract");
  }

  lemma CapitalizedInternship()
    ensures Capitalize("internship") == "Internship"
  {
    LowerOfLower("nternship");
  }

  /** `_extract_job_type` as a value: the capitalised name of the first category with a
      keyword in the lower-cased text, "Full-time" when there is none. */
  function JobTypeOf(text: string): (r: string)
    ensures Models.ParseJobType(r).Some?
    ensures var f := FirstCategory(Lower(text), 0);
      f < |JobTypes| ==> r == Capitalize(JobTypes[f].0)
    ensures FirstCategory(Lower(text), 0) == |JobTypes| ==> r == "Full-time"
  {
    var f := FirstCategory(Lower(text), 0);
    CapitalizedNames();
    if f == |JobTypes| then "Full-time" else Capitalize(JobTypes[f].0)
  }

  /** Precedence: a full-time keyword decides the type whatever else the text says, and a
      later category is chosen only when no earlier one has a keyword in the text. */
  lemma JobTypePrecedence(text: string)
    ensures CategoryMatches(Lower(text), 0) ==> JobTypeOf(text) == "Full-time"
    ensures JobTypeOf(text) == "Part-time" ==> CategoryMatches(Lower(text), 1) && !CategoryMatches(Lower(text), 0)
    ensures JobTypeOf(text) == "Contract" ==>
      CategoryMatches(Lower(text), 2) && forall j :: 0 <= j < 2 ==> !CategoryMatches(Lower(text), j)
    ensures JobTypeOf(text) == "Internship" ==>
      CategoryMatches(Lower(text), 3) && forall j :: 0 <= j < 3 ==> !CategoryMatches(Lower(text), j)
  {
    CapitalizedNames();
    var f := FirstCategory(Lower(text), 0);
    if CategoryMatches(Lower(text), 0) {
      assert f == 0;
    }
  }

  /** The keyword loop of one category. */
  method CategoryFound(lower: string, k: nat) returns (found: bool)
    requires k < |JobTypes|
    ensures found == CategoryMatches(lower, k)
  {
    var keywords := JobTypes[k].1;
    for q := 0 to |keywords|
      invariant forall p :: 0 <= p < q ==> !MentionsWord(lower, keywords[p])
    {
      if MentionsWord(lower, keywords[q]) {
        return true;
      }
    }
    return false;
  }

  /** `_extract_job_type` step by step: categories in order, first hit returns. */
  method ExtractJobType(text: string) returns (r: string)
    ensures r == JobTypeOf(text)
  {
    var lower := Lower(text);
    for k := 0 to |JobTypes|
      invariant forall j :: 0 <= j < k ==> !CategoryMatches(lower, j)
    {
      var found := CategoryFound(lower, k);
      if found {
        assert FirstCategory(lower, 0) == k by {
          FirstCategoryUnique(lower, 0, k);
        }
        return Capitalize(JobTypes[k].0);
      }
    }
    FirstCategoryUnique(lower, 0, |JobTypes|);
    r := "Full-time";
  }

  lemma {:induction false} FirstCategoryUnique(lower: string, i: nat, k: nat)
    requires i <= k <= |JobTypes|
    requires k < |JobTypes| ==> CategoryMatches(lower, k)
    requires forall j :: i <= j < k ==> !CategoryMatches(lower, j)
    ensures FirstCategory(lower, i) == k
    decreases |JobTypes| - i
  {
    if i < k {
      FirstCategoryUnique(lower, i + 1, k);
    }
  }
}
