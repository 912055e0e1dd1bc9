/** Whitespace trimming, the abstraction of `String.prototype.trim` used by the
    evaluation-name and student-id checks. */
module Text {

  /** A fixed whitespace set: space, tab, the line terminators, vertical tab,
      form feed, no-break space, the byte-order mark and the Unicode line and
      paragraph separators. */
  predicate IsWhitespace(c: char) {
    c == ' ' || c == '\t' || c == '\n' || c == '\r' || c == '\U{000B}' || c == '\U{000C}'
    || c == '\U{00A0}' || c == '\U{FEFF}' || c == '\U{2028}' || c == '\U{2029}'
  }

  /** Whitespace only (or empty): exactly the strings whose trim is empty,
      that is, those `!s.trim()` accepts. */
  predicate IsBlank(s: string) {
    forall i | 0 <= i < |s| :: IsWhitespace(s[i])
  }

  /** Drops the leading whitespace of `s`. */
  function TrimStart(s: string): (r: string)
    ensures |r| <= |s| && r == s[|s| - |r|..]
    ensures forall i | 0 <= i < |s| - |r| :: IsWhitespace(s[i])
    ensures r == [] || !IsWhitespace(r[0])
  {
    if |s| > 0 && IsWhitespace(s[0]) then TrimStart(s[1..]) else s
  }

  /** Drops the trailing whitespace of `s`. */
  function TrimEnd(s: string): (r: string)
    ensures |r| <= |s| && r == s[..|r|]
    ensures forall i | |r| <= i < |s| :: IsWhitespace(s[i])
    ensures r == [] || !IsWhitespace(r[|r| - 1])
  {
    if |s| > 0 && IsWhitespace(s[|s| - 1]) then TrimEnd(s[..|s| - 1]) else s
  }

  /** Drops the whitespace at both ends of `s`. */
  function Trim(s: string): (r: string)
    ensures |r| <= |s|
    ensures r == [] <==> IsBlank(s)
    ensures r != [] ==> !IsWhitespace(r[0]) && !IsWhitespace(r[|r| - 1])
  {
    var front := TrimStart(s);
    var r := TrimEnd(front);
    assert r != [] ==> r[0] == front[0];
    assert r == [] ==> front == [];
    r
  }

  /** Trimming removes whitespace at the ends and nothing else: the result is
      the infix of `s` between a whitespace-only prefix and a whitespace-only
      suffix. */
  lemma TrimDropsOnlyEnds(s: string)
    ensures exists k | 0 <= k <= |s| - |Trim(s)| ::
      Trim(s) == s[k..k + |Trim(s)|] && IsBlank(s[..k]) && IsBlank(s[k + |Trim(s)|..])
  {
    EndsDropped(s, TrimStart(s), Trim(s));
  }

  /** Dropping whitespace from the front and then from the back leaves an
      infix of `s` framed by whitespace. */
  lemma EndsDropped(s: string, front: string, r: string)
    requires |front| <= |s| && front == s[|s| - |front|..]
    requires forall i | 0 <= i < |s| - |front| :: IsWhitespace(s[i])
    requires |r| <= |front| && r == front[..|r|]
    requires forall i | |r| <= i < |front| :: IsWhitespace(front[i])
    ensures exists k | 0 <= k <= |s| - |r| ::
      r == s[k..k + |r|] && IsBlank(s[..k]) && IsBlank(s[k + |r|..])
  {
    var k := |s| - |front|;
    assert s[k + |r|..] == front[|r|..];
    assert r == s[k..k + |r|];
    assert IsBlank(s[..k]);
    assert IsBlank(s[k + |r|..]);
  }

  /** `part` occurs in `s` starting at index `k`. */
  predicate OccursAt(s: string, part: string, k: int) {
    0 <= k <= |s| - |part| && forall i | 0 <= i < |part| :: s[k + i] == part[i]
  }

  /** `s.includes(part)`: `part` occurs somewhere in `s`. */
  predicate Contains(s: string, part: string) {
    exists k | 0 <= k <= |s| :: OccursAt(s, part, k)
  }

  /** The middle part of a concatenation occurs in it after the first part. */
  lemma OccursInMiddle(a: string, b: string, c: string)
    ensures OccursAt(a + b + c, b, |a|) && Contains(a + b + c, b)
  {
    assert forall i | 0 <= i < |b| :: (a + b + c)[|a| + i] == b[i];
  }

  /** Non-empty, with no whitespace at either end: what `Trim` returns for a
      string that is not blank. */
  predicate IsTrimmed(s: string) {
    s != [] && !IsWhitespace(s[0]) && !IsWhitespace(s[|s| - 1])
  }

  /** The trim of a non-blank string is non-empty and trimmed. */
  lemma TrimOfNonBlank(s: string)
    requires !IsBlank(s)
    ensures IsTrimmed(Trim(s))
  {
  }

  /** A string without whitespace at either end is its own trim. */
  lemma {:induction false} TrimOfTrimmed(s: string)
    requires s == [] || (!IsWhitespace(s[0]) && !IsWhitespace(s[|s| - 1]))
    ensures Trim(s) == s
  {
  }

  /** Trimming twice is trimming once. */
  lemma TrimIdempotent(s: string)
    ensures Trim(Trim(s)) == Trim(s)
  {
    TrimOfTrimmed(Trim(s));
  }
}
