/**
 * The line-based section extraction both document parsers share
 * (`_extract_section` in ai-service/agents/resume_parser.py and
 * ai-service/agents/jd_parser.py, which differ only in their list of
 * common headers).
 *
 * A section starts after the first line containing one of the requested
 * headers (case-insensitively) and runs up to the first later line that
 * looks like a header of another section, or to the end of the text.
 */
module Sections {
  import opened Text

  /** The first index at or after `i` whose line satisfies `p`, or `|lines|` when none does. */
  function FindFrom(lines: seq<string>, p: string -> bool, i: nat): (r: nat)
    requires i <= |lines|
    ensures i <= r <= |lines|
    ensures r < |lines| ==> p(lines[r])
    ensures forall j :: i <= j < r ==> !p(lines[j])
    decreases |lines| - i
  {
    if i == |lines| then |lines|
    else if p(lines[i]) then i
    else FindFrom(lines, p, i + 1)
  }

  /** The first index is the only index with those properties. */
  lemma {:induction false} FindFromUnique(lines: seq<string>, p: string -> bool, i: nat, k: nat)
    requires i <= k <= |lines|
    requires k < |lines| ==> p(lines[k])
    requires forall j :: i <= j < k ==> !p(lines[j])
    ensures FindFrom(lines, p, i) == k
    decreases |lines| - i
  {
    if i < k {
      FindFromUnique(lines, p, i + 1, k);
    }
  }

  /** Some header of `hs`, lower-cased, occurs in the (already lower-cased) line `l`. */
  predicate MentionsAny(l: string, hs: seq<string>)
    decreases |hs|
  {
    |hs| > 0 && (Contains(l, Lower(hs[0])) || MentionsAny(l, hs[1..]))
  }

  /** The scan over a header list is the "some header occurs" test. */
  lemma {:induction false} MentionsAnyMeaning(l: string, hs: seq<string>)
    ensures MentionsAny(l, hs) <==> exists h :: h in hs && Contains(l, Lower(h))
    decreases |hs|
  {
    if |hs| > 0 {
      MentionsAnyMeaning(l, hs[1..]);
      assert hs == [hs[0]] + hs[1..];
      if exists h :: h in hs && Contains(l, Lower(h)) {
        var h :| h in hs && Contains(l, Lower(h));
        assert h == hs[0] || h in hs[1..];
      }
    }
  }

  /** `any(header.lower() in line.lower() for header in section_headers)`. */
  predicate HasHeader(line: string, headers: seq<string>) {
    MentionsAny(Lower(line), headers)
  }

  /** Some common header that is not one of the requested headers occurs in `l`. */
  predicate MentionsOther(l: string, headers: seq<string>, common: seq<string>)
    decreases |common|
  {
    && |common| > 0
    && ((Lower(common[0]) !in headers && Contains(l, Lower(common[0]))) || MentionsOther(l, headers, common[1..]))
  }

  lemma {:induction false} MentionsOtherMeaning(l: string, headers: seq<string>, common: seq<string>)
    ensures MentionsOther(l, headers, common) <==> exists h :: h in common && Lower(h) !in headers && Contains(l, Lower(h))
    decreases |common|
  {
    if |common| > 0 {
      MentionsOtherMeaning(l, headers, common[1..]);
      assert common == [common[0]] + common[1..];
      if exists h :: h in common && Lower(h) !in headers && Contains(l, Lower(h)) {
        var h :| h in common && Lower(h) !in headers && Contains(l, Lower(h));
        assert h == common[0] || h in common[1..];
      }
    }
  }

  /** A line that closes the section: after strip and lower-casing it is non-empty,
      upper-case or colon-terminated, and contains a common header that is not one
      of the requested headers. */
  predicate EndsSection(line: string, headers: seq<string>, common: seq<string>) {
    var l := Lower(Strip(line));
    && (PyIsUpper(l) || EndsWith(l, ":")) && |l| > 0
    && MentionsOther(l, headers, common)
  }

  /** Because the line is lower-cased first, only a colon-terminated line can close a section. */
  lemma OnlyColonLinesEnd(line: string, headers: seq<string>, common: seq<string>)
    requires EndsSection(line, headers, common)
    ensures EndsWith(Lower(Strip(line)), ":")
  {
    LowerIsNeverUpper(Strip(line));
  }

  /** The test of the first scan, as a function value. */
  function Opens(headers: seq<string>): string -> bool {
    l => HasHeader(l, headers)
  }

  /** The test of the second scan, as a function value. */
  function Closes(headers: seq<string>, common: seq<string>): string -> bool {
    l => EndsSection(l, headers, common)
  }

  /** `_extract_section` as a value. */
  function Section(text: string, headers: seq<string>, common: seq<string>): (r: string)
    ensures Strip(r) == r
  {
    var lines := Split(text, '\n');
    var s := FindFrom(lines, Opens(headers), 0);
    if s == |lines| then ""
    else
      var e := FindFrom(lines, Closes(headers, common), s + 1);
      StripIdempotent(Join(lines[s + 1..e], "\n"));
      Strip(Join(lines[s + 1..e], "\n"))
  }

  /** The section is empty when no line carries a header. */
  lemma SectionAbsent(text: string, headers: seq<string>, common: seq<string>)
    ensures (forall l :: l in Split(text, '\n') ==> !HasHeader(l, headers)) ==> Section(text, headers, common) == ""
  {
    var lines := Split(text, '\n');
    if forall l :: l in lines ==> !HasHeader(l, headers) {
      forall j | 0 <= j < |lines| ensures !Opens(headers)(lines[j]) {
        assert lines[j] in lines;
      }
      FirstOf(lines, Opens(headers), 0, |lines|);
    }
  }

  /** When line `s` is the first header line and line `e` the first closing line after it
      (or the end of the text), the section is the stripped join of the lines strictly
      between them. */
  lemma SectionBetween(text: string, headers: seq<string>, common: seq<string>, s: nat, e: nat)
    requires s < e <= |Split(text, '\n')|
    requires HasHeader(Split(text, '\n')[s], headers)
    requires forall j :: 0 <= j < s ==> !HasHeader(Split(text, '\n')[j], headers)
    requires e < |Split(text, '\n')| ==> EndsSection(Split(text, '\n')[e], headers, common)
    requires forall j :: s < j < e ==> !EndsSection(Split(text, '\n')[j], headers, common)
    ensures Section(text, headers, common) == Strip(Join(Split(text, '\n')[s + 1..e], "\n"))
  {
    FirstHeaderAt(Split(text, '\n'), headers, s);
    FirstClosingAt(Split(text, '\n'), headers, common, s, e);
  }

  lemma FirstHeaderAt(lines: seq<string>, headers: seq<string>, s: nat)
    requires s < |lines| && HasHeader(lines[s], headers)
    requires forall j :: 0 <= j < s ==> !HasHeader(lines[j], headers)
    ensures FindFrom(lines, Opens(headers), 0) == s
  {
    FirstOf(lines, Opens(headers), 0, s);
  }

  lemma FirstClosingAt(lines: seq<string>, headers: seq<string>, common: seq<string>, s: nat, e: nat)
    requires s < e <= |lines|
    requires e < |lines| ==> EndsSection(lines[e], headers, common)
    requires forall j :: s < j < e ==> !EndsSection(lines[j], headers, common)
    ensures FindFrom(lines, Closes(headers, common), s + 1) == e
  {
    FirstOf(lines, Closes(headers, common), s + 1, e);
  }

  /** `FindFromUnique` for a hypothesis phrased through the function value. */
  lemma FirstOf(lines: seq<string>, p: string -> bool, i: nat, k: nat)
    requires i <= k <= |lines|
    requires k < |lines| ==> p(lines[k])
    requires forall j :: i <= j < k ==> !p(lines[j])
    ensures FindFrom(lines, p, i) == k
  {
    FindFromUnique(lines, p, i, k);
  }

  /** The first loop: the index of the first header line, or -1. */
  method FindHeaderLine(lines: seq<string>, headers: seq<string>) returns (start: int)
    ensures var f := FindFrom(lines, Opens(headers), 0);
      if f == |lines| then start == -1 else start == f
  {
    start := -1;
    var i := 0;
    while i < |lines|
      invariant 0 <= i <= |lines|
      invariant FindFrom(lines, Opens(headers), i) == FindFrom(lines, Opens(headers), 0)
    {
      if HasHeader(lines[i], headers) {
        start := i;
        break;
      }
      i := i + 1;
    }
  }

  /** The second loop: the index of the first closing line after `start`, or `|lines|`. */
  method FindEndLine(lines: seq<string>, headers: seq<string>, common: seq<string>, start: nat)
    returns (end: nat)
    requires start < |lines|
    ensures end == FindFrom(lines, Closes(headers, common), start + 1)
  {
    end := |lines|;
    var k := start + 1;
    while k < |lines|
      invariant start + 1 <= k <= |lines|
      invariant FindFrom(lines, Closes(headers, common), k) == FindFrom(lines, Closes(headers, common), start + 1)
    {
      if EndsSection(lines[k], headers, common) {
        end := k;
        break;
      }
      k := k + 1;
    }
  }

  /** `_extract_section` step by step: scan for the header line, then for the closing line. */
  method ExtractSection(text: string, headers: seq<string>, common: seq<string>) returns (r: string)
    ensures r == Section(text, headers, common)
  {
    var lines := Split(text, '\n');
    var start := FindHeaderLine(lines, headers);
    if start == -1 {
      return "";
    }
    var end := FindEndLine(lines, headers, common, start);
    r := Strip(Join(lines[start + 1..end], "\n"));
  }
}
