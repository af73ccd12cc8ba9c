/**
 * The string handling the mappers do with JavaScript regular expressions and string methods,
 * written out as character scans: `replace(/^[\n\r]+/, '')`, `/([@&<=]+)/.exec`,
 * `String.prototype.replace` with a string pattern, `toUpperCase` and `Array.prototype.join`.
 */
module Text {
  import opened Wrappers

  predicate IsLineBreak(c: char)
  {
    c == '\n' || c == '\r'
  }

  /** r is s without its maximal leading run of line breaks. */
  ghost predicate BreaksStripped(s: string, r: string)
  {
    |r| <= |s| && r == s[|s| - |r|..] &&
    (forall i :: 0 <= i < |s| - |r| ==> IsLineBreak(s[i])) &&
    (r == [] || !IsLineBreak(r[0]))
  }

  /** `s.replace(/^[\n\r]+/, '')`. */
  function StripLeadingBreaks(s: string): (r: string)
    ensures BreaksStripped(s, r)
  {
    if s != [] && IsLineBreak(s[0]) then StripLeadingBreaks(s[1..]) else s
  }

  /** BreaksStripped determines its result: there is only one way to strip leading breaks. */
  lemma BreaksStrippedUnique(s: string, r1: string, r2: string)
    requires BreaksStripped(s, r1) && BreaksStripped(s, r2)
    ensures r1 == r2
  {
  }

  /** The binding operators of a component attribute: the character class `[@&<=]`. */
  predicate IsBindingChar(c: char)
  {
    c == '@' || c == '&' || c == '<' || c == '='
  }

  /** A half-open range [start, end) of positions in a string. */
  datatype Span = Span(start: nat, end: nat)

  /** m is the first maximal run of binding characters in s: what `/([@&<=]+)/.exec(s)` matches. */
  ghost predicate IsFirstRun(s: string, m: Span)
  {
    m.start < m.end <= |s| && IsBindingChar(s[m.start]) &&
    (forall i :: 0 <= i < m.start ==> !IsBindingChar(s[i])) &&
    (forall i :: m.start <= i < m.end ==> IsBindingChar(s[i])) &&
    (m.end == |s| || !IsBindingChar(s[m.end]))
  }

  /** The first position at or after j that holds a binding character, or |s|. */
  function RunStart(s: string, j: nat): (k: nat)
    requires j <= |s|
    ensures j <= k <= |s|
    ensures forall i :: j <= i < k ==> !IsBindingChar(s[i])
    ensures k == |s| || IsBindingChar(s[k])
    decreases |s| - j
  {
    if j < |s| && !IsBindingChar(s[j]) then RunStart(s, j + 1) else j
  }

  /** The first position at or after j that does not hold a binding character, or |s|. */
  function RunEnd(s: string, j: nat): (k: nat)
    requires j <= |s|
    ensures j <= k <= |s|
    ensures forall i :: j <= i < k ==> IsBindingChar(s[i])
    ensures k == |s| || !IsBindingChar(s[k])
    decreases |s| - j
  {
    if j < |s| && IsBindingChar(s[j]) then RunEnd(s, j + 1) else j
  }

  /** `/([@&<=]+)/.exec(s)`: the leftmost, longest run of binding characters. */
  function BindingRun(s: string): (r: Option<Span>)
    ensures r.None? <==> forall i :: 0 <= i < |s| ==> !IsBindingChar(s[i])
    ensures r.Some? ==> IsFirstRun(s, r.value)
  {
    var start := RunStart(s, 0);
    if start == |s| then None else Some(Span(start, RunEnd(s, start)))
  }

  /** A string has at most one first maximal run. */
  lemma FirstRunUnique(s: string, m: Span)
    requires IsFirstRun(s, m)
    ensures forall m' :: IsFirstRun(s, m') ==> m' == m
  {
  }

  /** pat occurs in s at position k. */
  ghost predicate OccursAt(s: string, pat: string, k: int)
  {
    0 <= k && k + |pat| <= |s| && s[k..k + |pat|] == pat
  }

  /** `s.indexOf(pat, from)`: the first position at or after from where pat occurs. */
  function IndexOf(s: string, pat: string, from: nat): (r: Option<nat>)
    ensures r.None? ==> forall k :: from <= k ==> !OccursAt(s, pat, k)
    ensures r.Some? ==> from <= r.value && OccursAt(s, pat, r.value)
    ensures r.Some? ==> forall k :: from <= k < r.value ==> !OccursAt(s, pat, k)
    decreases |s| + 1 - from
  {
    if from + |pat| > |s| then None
    else if s[from..from + |pat|] == pat then Some(from)
    else IndexOf(s, pat, from + 1)
  }

  /** `s.replace(pat, '')` with a string pattern: removes the first occurrence of pat only. */
  function ReplaceFirst(s: string, pat: string): (r: string)
  {
    match IndexOf(s, pat, 0)
    case None => s
    case Some(k) => s[..k] + s[k + |pat|..]
  }

  /**
   * Removing the matched run by its text (as the mapper does) removes it at the position where
   * the regular expression found it: no copy of the run can occur earlier in the string.
   */
  lemma ReplaceRemovesFirstRun(s: string, m: Span)
    requires IsFirstRun(s, m)
    ensures ReplaceFirst(s, s[m.start..m.end]) == s[..m.start] + s[m.end..]
  {
    var pat := s[m.start..m.end];
    assert OccursAt(s, pat, m.start);
    forall k | 0 <= k < m.start
      ensures !OccursAt(s, pat, k)
    {
      assert !IsBindingChar(s[k]) && IsBindingChar(pat[0]);
      assert k + |pat| <= |s| ==> s[k..k + |pat|][0] == s[k];
    }
    assert IndexOf(s, pat, 0) == Some(m.start);
    assert m.start + |pat| == m.end;
  }

  /** `toUpperCase` on one character, for the letters a to z. */
  function UpperChar(c: char): (u: char)
  {
    if 'a' <= c <= 'z' then (c as int - 32) as char else c
  }

  /** `s.toUpperCase()`, for the letters a to z. */
  function Upper(s: string): (u: string)
    ensures |u| == |s|
    ensures forall i :: 0 <= i < |s| ==> u[i] == UpperChar(s[i])
  {
    if s == [] then [] else [UpperChar(s[0])] + Upper(s[1..])
  }

  /** `parts.join(sep)`. */
  function Join(parts: seq<string>, sep: string): (r: string)
  {
    if parts == [] then ""
    else if |parts| == 1 then parts[0]
    else parts[0] + sep + Join(parts[1..], sep)
  }

  /** Joining one more part appends the separator and that part. */
  lemma {:induction false} JoinSnoc(parts: seq<string>, part: string, sep: string)
    requires parts != []
    ensures Join(parts + [part], sep) == Join(parts, sep) + sep + part
  {
    var longer := parts + [part];
    if |parts| == 1 {
      assert longer[1..] == [part];
    } else {
      assert longer[1..] == parts[1..] + [part];
      JoinSnoc(parts[1..], part, sep);
    }
  }
}
