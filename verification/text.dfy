/**
 * String primitives shared by the backend, the AI agents and the frontend:
 * the whitespace classes of Python and JavaScript, ASCII case folding,
 * strip/trim, splitting on a separator, Python's whitespace `split()`,
 * joining, substring search and `str.replace`.
 *
 * Case folding and whitespace are modelled for the characters listed in each
 * predicate; other Unicode case mappings and separators are not modelled.
 */
module Text {

  /** Python's `str.isspace` on the characters this model covers. */
  predicate IsPySpace(c: char) {
    c == ' ' || c == '\t' || c == '\n' || c == '\r' || c == '\U{000B}' || c == '\U{000C}'
    || ('\U{001C}' <= c <= '\U{001F}') || c == '\U{0085}' || c == '\U{00A0}'
  }

  /** JavaScript's white space and line terminators (`String.prototype.trim`, regex `\s`). */
  predicate IsJsSpace(c: char) {
    c == ' ' || c == '\t' || c == '\n' || c == '\r' || c == '\U{000B}' || c == '\U{000C}'
    || c == '\U{00A0}' || c == '\U{1680}' || ('\U{2000}' <= c <= '\U{200A}')
    || c == '\U{2028}' || c == '\U{2029}' || c == '\U{202F}' || c == '\U{205F}'
    || c == '\U{3000}' || c == '\U{FEFF}'
  }

  predicate IsUpperChar(c: char) { 'A' <= c <= 'Z' }
  predicate IsLowerChar(c: char) { 'a' <= c <= 'z' }

  function LowerChar(c: char): (r: char)
    ensures !IsUpperChar(r)
    ensures IsUpperChar(c) ==> IsLowerChar(r)
    ensures !IsUpperChar(c) ==> r == c
  {
    if IsUpperChar(c) then (c as int + 32) as char else c
  }

  /** `str.lower()` / `String.prototype.toLowerCase()` on ASCII letters. */
  function Lower(s: string): (r: string)
    ensures |r| == |s|
    ensures forall i :: 0 <= i < |s| ==> r[i] == LowerChar(s[i])
  {
    seq(|s|, i requires 0 <= i < |s| => LowerChar(s[i]))
  }

  lemma LowerIdempotent(s: string)
    ensures Lower(Lower(s)) == Lower(s)
  {
  }

  /** A string without upper-case letters is its own lower-case form. */
  lemma LowerOfLower(s: string)
    requires forall i :: 0 <= i < |s| ==> !IsUpperChar(s[i])
    ensures Lower(s) == s
  {
  }

  /** Python's `str.isupper()`: at least one cased character and no lower-case one. */
  predicate PyIsUpper(s: string) {
    (exists i :: 0 <= i < |s| && IsUpperChar(s[i]))
    && forall i :: 0 <= i < |s| ==> !IsLowerChar(s[i])
  }

  /** A lower-cased string is never upper in Python's sense. */
  lemma LowerIsNeverUpper(s: string)
    ensures !PyIsUpper(Lower(s))
  {
  }

  // ---------------------------------------------------------------------
  // strip / trim

  function StripLeft(s: string, space: char -> bool): (r: string)
    ensures |r| <= |s| && r == s[|s| - |r|..]
    ensures |r| > 0 ==> !space(r[0])
    ensures forall i :: 0 <= i < |s| - |r| ==> space(s[i])
    decreases |s|
  {
    if |s| > 0 && space(s[0]) then
      var r := StripLeft(s[1..], space);
      assert forall i :: 1 <= i < |s| - |r| ==> s[i] == s[1..][i - 1];
      r
    else s
  }

  function StripRight(s: string, space: char -> bool): (r: string)
    ensures |r| <= |s| && r == s[..|r|]
    ensures |r| > 0 ==> !space(r[|r| - 1])
    ensures forall i :: |r| <= i < |s| ==> space(s[i])
    decreases |s|
  {
    if |s| > 0 && space(s[|s| - 1]) then
      var r := StripRight(s[..|s| - 1], space);
      assert forall i :: |r| <= i < |s| - 1 ==> s[i] == s[..|s| - 1][i];
      r
    else s
  }

  /** Python's `str.strip()`. */
  function Strip(s: string): (r: string)
    ensures |r| <= |s|
    ensures |r| > 0 ==> !IsPySpace(r[0]) && !IsPySpace(r[|r| - 1])
  {
    var l := StripLeft(s, IsPySpace);
    var t := StripRight(l, IsPySpace);
    assert |t| > 0 ==> t[0] == l[0];
    t
  }

  /** JavaScript's `String.prototype.trim()` (and Mongoose's `trim: true`). */
  function Trim(s: string): (r: string)
    ensures |r| <= |s|
    ensures |r| > 0 ==> !IsJsSpace(r[0]) && !IsJsSpace(r[|r| - 1])
  {
    var l := StripLeft(s, IsJsSpace);
    var t := StripRight(l, IsJsSpace);
    assert |t| > 0 ==> t[0] == l[0];
    t
  }

  /** The number of white-space characters `Strip` removes from the front. */
  function LeadingSpace(s: string): nat {
    |s| - |StripLeft(s, IsPySpace)|
  }

  /** The stripped string is the slice of the input that starts after its leading white
      space, and only white space lies before and after that slice. */
  lemma StripSpec(s: string)
    ensures LeadingSpace(s) + |Strip(s)| <= |s|
    ensures Strip(s) == s[LeadingSpace(s)..LeadingSpace(s) + |Strip(s)|]
    ensures forall i :: 0 <= i < LeadingSpace(s) ==> IsPySpace(s[i])
    ensures forall i :: LeadingSpace(s) + |Strip(s)| <= i < |s| ==> IsPySpace(s[i])
  {
    var l := StripLeft(s, IsPySpace);
    var r := StripRight(l, IsPySpace);
    var a := LeadingSpace(s);
    assert Strip(s) == r;
    SliceOfSuffix(s, a, |r|);
    SpaceAfterSlice(s, a, |r|);
  }

  lemma SliceOfSuffix(s: string, a: nat, n: nat)
    requires a + n <= |s|
    ensures s[a..][..n] == s[a..a + n]
  {
  }

  /** White space after the kept part of the suffix is white space after it in `s`. */
  lemma SpaceAfterSlice(s: string, a: nat, n: nat)
    requires a + n <= |s|
    requires forall i :: n <= i < |s[a..]| ==> IsPySpace(s[a..][i])
    ensures forall i :: a + n <= i < |s| ==> IsPySpace(s[i])
  {
    forall i | a + n <= i < |s| ensures IsPySpace(s[i]) {
      assert s[i] == s[a..][i - a];
    }
  }

  /** A string with no white space at either end is its own trimmed form. */
  lemma TrimOfTrimmed(s: string)
    requires |s| > 0 ==> !IsJsSpace(s[0]) && !IsJsSpace(s[|s| - 1])
    ensures Trim(s) == s
  {
    assert StripLeft(s, IsJsSpace) == s;
    assert StripRight(s, IsJsSpace) == s;
  }

  /** Stripping twice is stripping once. */
  lemma StripIdempotent(s: string)
    ensures Strip(Strip(s)) == Strip(s)
  {
    var t := Strip(s);
    StripSpec(s);
    assert StripLeft(t, IsPySpace) == t;
    assert StripRight(t, IsPySpace) == t;
  }

  // ---------------------------------------------------------------------
  // split on one separator, join

  /** Python's `s.split(sep)` / JavaScript's `s.split(sep)` for a one-character separator. */
  function Split(s: string, sep: char): (r: seq<string>)
    ensures |r| > 0
    ensures forall p :: p in r ==> sep !in p
    decreases |s|
  {
    if |s| == 0 then [""]
    else
      var rest := Split(s[1..], sep);
      if s[0] == sep then [""] + rest
      else [[s[0]] + rest[0]] + rest[1..]
  }

  /** `sep.join(parts)`. */
  function Join(parts: seq<string>, sep: string): (r: string)
    decreases |parts|
  {
    if |parts| == 0 then ""
    else if |parts| == 1 then parts[0]
    else parts[0] + sep + Join(parts[1..], sep)
  }

  /** Joining the pieces of a split with the separator gives back the input. */
  lemma {:induction false} JoinSplit(s: string, sep: char)
    ensures Join(Split(s, sep), [sep]) == s
    decreases |s|
  {
    if |s| > 0 {
      var rest := Split(s[1..], sep);
      JoinSplit(s[1..], sep);
      if s[0] == sep {
        assert Split(s, sep) == [""] + rest;
        assert s == [sep] + s[1..];
      } else {
        if |rest| == 1 {
          assert Join(Split(s, sep), [sep]) == [s[0]] + rest[0];
        } else {
          assert Split(s, sep)[1..] == rest[1..];
          assert Join(Split(s, sep), [sep]) == [s[0]] + rest[0] + [sep] + Join(rest[1..], [sep]);
        }
        assert s == [s[0]] + s[1..];
      }
    }
  }

  /** Splitting a join of separator-free pieces gives back the pieces. */
  lemma {:induction false} SplitJoin(parts: seq<string>, sep: char)
    requires |parts| > 0
    requires forall p :: p in parts ==> sep !in p
    ensures Split(Join(parts, [sep]), sep) == parts
    decreases |parts|, |parts[0]|
  {
    var p := parts[0];
    if |p| > 0 {
      var parts' := [p[1..]] + parts[1..];
      TailKeepsNoSep(parts, sep);
      SplitJoin(parts', sep);
      JoinDropsFirstChar(parts, sep);
      assert p[0] in p;
      assert p == [p[0]] + p[1..];
    } else if |parts| > 1 {
      SplitJoin(parts[1..], sep);
      JoinEmptyHead(parts, sep);
      assert parts == [""] + parts[1..];
    }
  }

  /** Dropping the first character of the first part keeps every part free of `sep`. */
  lemma TailKeepsNoSep(parts: seq<string>, sep: char)
    requires |parts| > 0 && |parts[0]| > 0
    requires forall p :: p in parts ==> sep !in p
    ensures forall q :: q in [parts[0][1..]] + parts[1..] ==> sep !in q
  {
    var p := parts[0];
    assert p in parts;
    forall k | 0 <= k < |p| - 1 ensures p[1..][k] != sep {
      assert p[1..][k] == p[k + 1];
      assert p[k + 1] in p;
    }
    forall q | q in parts[1..] ensures sep !in q {
      assert q in parts;
    }
  }

  /** A join whose first part starts with a character starts with that character, and
      the rest is the join with that character dropped. */
  lemma JoinDropsFirstChar(parts: seq<string>, sep: char)
    requires |parts| > 0 && |parts[0]| > 0
    ensures var j := Join(parts, [sep]);
      |j| > 0 && j[0] == parts[0][0] && j[1..] == Join([parts[0][1..]] + parts[1..], [sep])
  {
    var p := parts[0];
    var parts' := [p[1..]] + parts[1..];
    var j := Join(parts, [sep]);
    if |parts| == 1 {
      assert j == p;
    } else {
      var rest := [sep] + Join(parts[1..], [sep]);
      assert j == p + rest;
      assert parts'[0] == p[1..] && parts'[1..] == parts[1..];
      assert Join(parts', [sep]) == p[1..] + rest;
      DropFirstOfConcat(p, rest);
    }
  }

  lemma DropFirstOfConcat(a: string, b: string)
    requires |a| > 0
    ensures (a + b)[0] == a[0] && (a + b)[1..] == a[1..] + b
  {
  }

  /** A join whose first part is empty starts with the separator. */
  lemma JoinEmptyHead(parts: seq<string>, sep: char)
    requires |parts| > 1 && parts[0] == ""
    ensures Join(parts, [sep]) == [sep] + Join(parts[1..], [sep])
  {
  }

  // ---------------------------------------------------------------------
  // Python's str.split() with no argument: maximal runs of non-space

  predicate IsWord(w: string) {
    |w| > 0 && forall i :: 0 <= i < |w| ==> !IsPySpace(w[i])
  }

  function Words(s: string): (r: seq<string>)
    ensures forall w :: w in r ==> IsWord(w)
    ensures |s| > 0 && !IsPySpace(s[0]) ==> |r| > 0 && |r[0]| > 0 && r[0][0] == s[0]
    decreases |s|
  {
    if |s| == 0 then []
    else if IsPySpace(s[0]) then Words(s[1..])
    else
      var rest := Words(s[1..]);
      if |s| > 1 && !IsPySpace(s[1]) then
        var first := [s[0]] + rest[0];
        assert IsWord(first) by {
          assert IsWord(rest[0]);
          forall i | 0 <= i < |first| ensures !IsPySpace(first[i]) {
            if i > 0 { assert first[i] == rest[0][i - 1]; }
          }
        }
        [first] + rest[1..]
      else [[s[0]]] + rest
  }

  /** A word followed by white space (or nothing) is the first word. */
  lemma {:induction false} WordsPrefix(w: string, t: string)
    requires IsWord(w)
    requires |t| == 0 || IsPySpace(t[0])
    ensures Words(w + t) == [w] + Words(t)
    decreases |w|
  {
    var s := w + t;
    assert s[0] == w[0];
    if |w| == 1 {
      assert s[1..] == t;
      assert |s| > 1 ==> s[1] == t[0];
      assert w == [s[0]];
    } else {
      assert IsWord(w[1..]);
      WordsPrefix(w[1..], t);
      assert s[1..] == w[1..] + t;
      assert s[1] == w[1];
      assert w == [w[0]] + w[1..];
    }
  }

  /** Words joined by single spaces split back into the same words. */
  lemma {:induction false} WordsJoin(ws: seq<string>)
    requires forall w :: w in ws ==> IsWord(w)
    ensures Words(Join(ws, " ")) == ws
    decreases |ws|
  {
    if |ws| == 1 {
      WordsPrefix(ws[0], "");
      assert ws[0] + "" == ws[0];
    } else if |ws| > 1 {
      var rest := Join(ws[1..], " ");
      WordsJoin(ws[1..]);
      assert Join(ws, " ") == ws[0] + (" " + rest);
      WordsPrefix(ws[0], " " + rest);
      assert (" " + rest)[1..] == rest;
      assert ws == [ws[0]] + ws[1..];
    }
  }

  /** A string with no white space splits into itself. */
  lemma WordsOfWord(w: string)
    requires IsWord(w)
    ensures Words(w) == [w]
  {
    WordsJoin([w]);
  }

  // ---------------------------------------------------------------------
  // substrings

  predicate StartsWith(s: string, p: string) {
    |p| <= |s| && s[..|p|] == p
  }

  predicate EndsWith(s: string, p: string) {
    |p| <= |s| && s[|s| - |p|..] == p
  }

  /** `needle` occurs in `haystack` starting at index `i`. */
  predicate OccursAt(haystack: string, needle: string, i: int) {
    0 <= i <= |haystack| - |needle| && haystack[i..i + |needle|] == needle
  }

  /** `needle in haystack` (Python) / `haystack.includes(needle)` (JavaScript). */
  predicate Contains(haystack: string, needle: string) {
    exists i :: 0 <= i <= |haystack| - |needle| && OccursAt(haystack, needle, i)
  }

  /** An executable search for an occurrence at or after `from`. */
  function ContainsFrom(haystack: string, needle: string, from: nat): (b: bool)
    requires from <= |haystack|
    ensures b <==> exists i :: from <= i <= |haystack| - |needle| && OccursAt(haystack, needle, i)
    decreases |haystack| - from
  {
    if from + |needle| > |haystack| then false
    else if OccursAt(haystack, needle, from) then true
    else ContainsFrom(haystack, needle, from + 1)
  }

  function ContainsExec(haystack: string, needle: string): (b: bool)
    ensures b == Contains(haystack, needle)
  {
    ContainsFrom(haystack, needle, 0)
  }

  /** A slice holds no occurrence the whole string lacks. */
  lemma SliceKeepsAbsent(s: string, a: nat, b: nat, pat: string)
    requires a <= b <= |s|
    requires !Contains(s, pat)
    ensures !Contains(s[a..b], pat)
  {
    forall i | 0 <= i <= |s[a..b]| - |pat| ensures !OccursAt(s[a..b], pat, i) {
      var t := s[a..b];
      var u, v := t[i..i + |pat|], s[a + i..a + i + |pat|];
      forall k | 0 <= k < |u| ensures u[k] == v[k] {
        assert u[k] == t[i + k];
      }
      assert u == v;
      assert !OccursAt(s, pat, a + i);
    }
  }

  lemma EmptyIsContained(s: string)
    ensures Contains(s, "")
  {
    assert OccursAt(s, "", 0);
  }

  // ---------------------------------------------------------------------
  // Python's str.replace(pat, rep): leftmost, non-overlapping, all occurrences

  function ReplaceAll(s: string, pat: string, rep: string): (r: string)
    requires |pat| > 0
    decreases |s|
  {
    if |s| < |pat| then s
    else if s[..|pat|] == pat then rep + ReplaceAll(s[|pat|..], pat, rep)
    else [s[0]] + ReplaceAll(s[1..], pat, rep)
  }

  /** Replacing a pattern that does not occur leaves the string unchanged. */
  lemma {:induction false} ReplaceAbsent(s: string, pat: string, rep: string)
    requires |pat| > 0
    requires !Contains(s, pat)
    ensures ReplaceAll(s, pat, rep) == s
    decreases |s|
  {
    if |s| >= |pat| {
      assert !OccursAt(s, pat, 0);
      assert !Contains(s[1..], pat) by {
        forall i | OccursAt(s[1..], pat, i) ensures false {
          assert s[1..][i..i + |pat|] == s[i + 1..i + 1 + |pat|];
          assert OccursAt(s, pat, i + 1);
        }
      }
      ReplaceAbsent(s[1..], pat, rep);
      assert s == [s[0]] + s[1..];
    }
  }

  /** `q` cannot overlap a copy of `rep` placed in a string: a window of `q` starting at
      the copy disagrees with it, `q`'s first character occurs in `rep` only at its start,
      and `rep`'s first character occurs in `q` only at its start. */
  predicate NoOverlap(q: string, rep: string) {
    && |q| > 0 && |rep| > 0
    && (exists k :: 0 <= k < |q| && k < |rep| && q[k] != rep[k])
    && (forall j :: 0 < j < |rep| ==> rep[j] != q[0])
    && (forall d :: 0 < d < |q| ==> q[d] != rep[0])
  }

  /** `NoOverlap` from a position where the two differ and the single-character conditions. */
  lemma NoOverlapWitness(q: string, rep: string, k: nat)
    requires k < |q| && k < |rep| && q[k] != rep[k]
    requires q[0] !in rep[1..] && rep[0] !in q[1..]
    ensures NoOverlap(q, rep)
  {
    forall j | 0 < j < |rep| ensures rep[j] != q[0] {
      assert rep[j] == rep[1..][j - 1];
    }
    forall d | 0 < d < |q| ensures q[d] != rep[0] {
      assert q[d] == q[1..][d - 1];
    }
  }

  /** A prefix of the result is the same prefix of the input, unless a copy of `rep`
      starts within it. */
  lemma {:induction false} ReplacePrefix(t: string, pat: string, rep: string, m: nat)
    requires |pat| > 0 && |rep| > 0
    requires m <= |ReplaceAll(t, pat, rep)|
    ensures || (m <= |t| && ReplaceAll(t, pat, rep)[..m] == t[..m])
            || (exists k :: 0 <= k < m && OccursAt(ReplaceAll(t, pat, rep), rep, k))
    decreases |t|
  {
    var r := ReplaceAll(t, pat, rep);
    if m == 0 || |t| < |pat| {
    } else if t[..|pat|] == pat {
      assert OccursAt(r, rep, 0);
    } else {
      var u := ReplaceAll(t[1..], pat, rep);
      assert r == [t[0]] + u;
      ReplacePrefix(t[1..], pat, rep, m - 1);
      if m - 1 <= |t[1..]| && u[..m - 1] == t[1..][..m - 1] {
        assert r[..m] == t[..m];
      } else {
        var k :| 0 <= k < m - 1 && OccursAt(u, rep, k);
        assert r[k + 1..k + 1 + |rep|] == u[k..k + |rep|];
        assert OccursAt(r, rep, k + 1);
      }
    }
  }

  /** No occurrence of `q` starts inside a copy of `rep` at the front. */
  lemma NotInsideCopy(r: string, q: string, rep: string, i: nat)
    requires NoOverlap(q, rep)
    requires |rep| <= |r| && r[..|rep|] == rep
    requires i < |rep|
    ensures !OccursAt(r, q, i)
  {
    if i == 0 {
      var k :| 0 <= k < |q| && k < |rep| && q[k] != rep[k];
      assert r[k] == rep[k];
    } else {
      assert r[i] == rep[i];
    }
  }

  /** No occurrence of `q` starts just before a copy of `rep` that begins within its length. */
  lemma NotAcrossCopy(r: string, q: string, rep: string, k: nat)
    requires NoOverlap(q, rep)
    requires 0 < k < |q| && OccursAt(r, rep, k)
    ensures !OccursAt(r, q, 0)
  {
    assert r[k] == rep[0];
  }

  /** `q` does not occur in a copy of `rep` followed by a string without `q`. */
  lemma AbsentAfterCopy(r: string, rep: string, u: string, q: string)
    requires NoOverlap(q, rep)
    requires r == rep + u && !Contains(u, q)
    ensures !Contains(r, q)
  {
    forall i | 0 <= i <= |r| - |q| ensures !OccursAt(r, q, i) {
      if i < |rep| {
        NotInsideCopy(r, q, rep, i);
      } else {
        assert u[i - |rep|..i - |rep| + |q|] == r[i..i + |q|];
        assert !OccursAt(u, q, i - |rep|);
      }
    }
  }

  /** `q` does not occur in a string that lacks it at the front and after its first character. */
  lemma AbsentAfterFirst(r: string, u: string, q: string)
    requires |r| > 0 && r[1..] == u && !Contains(u, q) && !OccursAt(r, q, 0)
    ensures !Contains(r, q)
  {
    forall i | 0 < i <= |r| - |q| ensures !OccursAt(r, q, i) {
      assert u[i - 1..i - 1 + |q|] == r[i..i + |q|];
      assert !OccursAt(u, q, i - 1);
    }
  }

  /** Without the pattern at the front, the first character is kept and the rest replaced. */
  lemma ReplaceSkipsFirst(s: string, pat: string, rep: string)
    requires |pat| > 0 && |s| >= |pat| && s[..|pat|] != pat
    ensures ReplaceAll(s, pat, rep) == [s[0]] + ReplaceAll(s[1..], pat, rep)
  {
  }

  /** When no pattern starts at the front, `q` does not start the result either, unless
      it started the input. */
  lemma NotAtFront(s: string, pat: string, rep: string, q: string)
    requires |pat| > 0 && |s| >= |pat| && s[..|pat|] != pat
    requires NoOverlap(q, rep)
    requires !OccursAt(s, q, 0)
    ensures !OccursAt(ReplaceAll(s, pat, rep), q, 0)
  {
    var r := ReplaceAll(s, pat, rep);
    var u := ReplaceAll(s[1..], pat, rep);
    ReplaceSkipsFirst(s, pat, rep);
    if |q| <= |r| {
      ReplacePrefix(s[1..], pat, rep, |q| - 1);
      if |q| - 1 <= |s[1..]| && u[..|q| - 1] == s[1..][..|q| - 1] {
        SameFront(s, r, u, |q|);
      } else {
        var k :| 0 <= k < |q| - 1 && OccursAt(u, rep, k);
        CopyShifts(r, u, s[0], rep, k);
        NotAcrossCopy(r, q, rep, k + 1);
      }
    }
  }

  lemma SameFront(s: string, r: string, u: string, n: nat)
    requires 0 < n <= |s| && n <= |r| && r == [s[0]] + u && u[..n - 1] == s[1..][..n - 1]
    ensures r[..n] == s[..n]
  {
  }

  lemma CopyShifts(r: string, u: string, c: char, rep: string, k: nat)
    requires r == [c] + u && OccursAt(u, rep, k)
    ensures OccursAt(r, rep, k + 1)
  {
    assert r[k + 1..k + 1 + |rep|] == u[k..k + |rep|];
  }

  /** After the replacement, the pattern no longer occurs, provided it cannot overlap the
      replacement. */
  lemma {:induction false} ReplaceRemoves(s: string, pat: string, rep: string)
    requires NoOverlap(pat, rep)
    ensures !Contains(ReplaceAll(s, pat, rep), pat)
    decreases |s|
  {
    var r := ReplaceAll(s, pat, rep);
    if |s| < |pat| {
    } else if s[..|pat|] == pat {
      ReplaceRemoves(s[|pat|..], pat, rep);
      AbsentAfterCopy(r, rep, ReplaceAll(s[|pat|..], pat, rep), pat);
    } else {
      ReplaceRemoves(s[1..], pat, rep);
      NotAtFront(s, pat, rep, pat);
      AbsentAfterFirst(r, ReplaceAll(s[1..], pat, rep), pat);
    }
  }

  /** A string `q` absent before the replacement stays absent, provided it cannot overlap
      the replacement. */
  lemma {:induction false} ReplaceKeepsAbsent(s: string, pat: string, rep: string, q: string)
    requires |pat| > 0
    requires NoOverlap(q, rep)
    requires !Contains(s, q)
    ensures !Contains(ReplaceAll(s, pat, rep), q)
    decreases |s|
  {
    var r := ReplaceAll(s, pat, rep);
    if |s| < |pat| {
    } else if s[..|pat|] == pat {
      SliceKeepsAbsent(s, |pat|, |s|, q);
      assert s[|pat|..|s|] == s[|pat|..];
      ReplaceKeepsAbsent(s[|pat|..], pat, rep, q);
      AbsentAfterCopy(r, rep, ReplaceAll(s[|pat|..], pat, rep), q);
    } else {
      SliceKeepsAbsent(s, 1, |s|, q);
      assert s[1..|s|] == s[1..];
      ReplaceKeepsAbsent(s[1..], pat, rep, q);
      NotAtFront(s, pat, rep, q);
      AbsentAfterFirst(r, ReplaceAll(s[1..], pat, rep), q);
    }
  }

  // ---------------------------------------------------------------------
  // Python's str.split(sep) for a separator of any length

  /** The first index at or after `from` where `pat` occurs, or -1. */
  function IndexOf(s: string, pat: string, from: nat): (r: int)
    requires from <= |s|
    ensures r == -1 || (from <= r && OccursAt(s, pat, r))
    ensures forall j :: from <= j && (r == -1 || j < r) ==> !OccursAt(s, pat, j)
    decreases |s| - from
  {
    if from + |pat| > |s| then -1
    else if OccursAt(s, pat, from) then from
    else IndexOf(s, pat, from + 1)
  }

  /** `s.split(sep)`: the pieces between the leftmost non-overlapping occurrences of `sep`. */
  function SplitOn(s: string, sep: string): (r: seq<string>)
    requires |sep| > 0
    ensures |r| > 0
    ensures !Contains(r[0], sep)
    ensures Contains(s, sep) <==> |r| > 1
    ensures StartsWith(s, r[0])
    ensures |r| > 1 ==> StartsWith(s, r[0] + sep) && r[1..] == SplitOn(s[|r[0]| + |sep|..], sep)
    decreases |s|
  {
    var i := IndexOf(s, sep, 0);
    if i == -1 then [s]
    else
      var head := s[..i];
      assert !Contains(head, sep) by {
        forall j | OccursAt(head, sep, j) ensures false {
          assert head[j..j + |sep|] == s[j..j + |sep|];
          assert OccursAt(s, sep, j);
        }
      }
      assert s[..i + |sep|] == head + sep;
      [head] + SplitOn(s[i + |sep|..], sep)
  }

  // ---------------------------------------------------------------------
  // decimal rendering of integers (template literals `${n}`)

  function DigitChar(d: nat): char
    requires d < 10
  {
    "0123456789"[d]
  }

  function NatToString(n: nat): (r: string)
    ensures |r| > 0
    decreases n
  {
    if n < 10 then [DigitChar(n)] else NatToString(n / 10) + [DigitChar(n % 10)]
  }

  function IntToString(n: int): (r: string)
    ensures |r| > 0
  {
    if n < 0 then "-" + NatToString(-n) else NatToString(n)
  }
}
