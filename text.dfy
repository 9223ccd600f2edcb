/**
 * The string operations the search view relies on: Python's `str.strip()`
 * and the database's case-insensitive substring test (`icontains`).
 */
module Text {

  /** The characters for which Python's `str.isspace()` holds. */
  predicate IsSpace(c: char) {
    || ('\t' <= c <= '\r')
    || ('\U{001C}' <= c <= ' ')
    || c == '\U{0085}' || c == '\U{00A0}' || c == '\U{1680}'
    || ('\U{2000}' <= c <= '\U{200A}')
    || c == '\U{2028}' || c == '\U{2029}' || c == '\U{202F}' || c == '\U{205F}' || c == '\U{3000}'
  }

  /** `s` without its leading whitespace. */
  function TrimStart(s: string): (r: string)
    ensures |r| <= |s| && r == s[|s| - |r|..]
    ensures forall i :: 0 <= i < |s| - |r| ==> IsSpace(s[i])
    ensures r == [] || !IsSpace(r[0])
  {
    if s != [] && IsSpace(s[0]) then TrimStart(s[1..]) else s
  }

  /** `s` without its trailing whitespace. */
  function TrimEnd(s: string): (r: string)
    ensures |r| <= |s| && r == s[..|r|]
    ensures forall i :: |r| <= i < |s| ==> IsSpace(s[i])
    ensures r == [] || !IsSpace(r[|r| - 1])
  {
    if s != [] && IsSpace(s[|s| - 1]) then TrimEnd(s[..|s| - 1]) else s
  }

  /**
   * Python's `str.strip()`: the part of `s` between its leading and its
   * trailing whitespace.
   */
  function Strip(s: string): (r: string)
    ensures exists lead :: Stripped(s, r, lead)
    ensures r == [] || (!IsSpace(r[0]) && !IsSpace(r[|r| - 1]))
    ensures r == [] <==> forall i :: 0 <= i < |s| ==> IsSpace(s[i])
  {
    var t := TrimStart(s);
    var r := TrimEnd(t);
    assert Stripped(s, r, |s| - |t|);
    r
  }

  /**
   * `r` is `s` with `lead` whitespace characters removed at the front and
   * only whitespace removed at the back.
   */
  ghost predicate Stripped(s: string, r: string, lead: nat) {
    && lead + |r| <= |s|
    && r == s[lead..lead + |r|]
    && (forall i :: 0 <= i < lead ==> IsSpace(s[i]))
    && (forall i :: lead + |r| <= i < |s| ==> IsSpace(s[i]))
  }

  /** Stripping twice is stripping once. */
  lemma StripIdempotent(s: string)
    ensures Strip(Strip(s)) == Strip(s)
  {
    var r := Strip(s);
    assert TrimStart(r) == r;
    assert TrimEnd(r) == r;
  }

  /** ASCII lower-casing of one character; every other character is kept. */
  function LowerChar(c: char): char {
    if 'A' <= c <= 'Z' then (c as int + 32) as char else c
  }

  function Lower(s: string): string {
    seq(|s|, i requires 0 <= i < |s| => LowerChar(s[i]))
  }

  /** `needle` occurs in `hay` starting at position `i`. */
  ghost predicate OccursAt(hay: string, needle: string, i: int) {
    0 <= i <= |hay| && needle <= hay[i..]
  }

  /** Substring test (SQL `LIKE '%needle%'`). */
  function Contains(hay: string, needle: string): (r: bool)
    ensures r <==> exists i :: OccursAt(hay, needle, i)
  {
    if |needle| > |hay| then
      false
    else if needle <= hay then
      assert OccursAt(hay, needle, 0);
      true
    else
      var tail := hay[1..];
      var r := Contains(tail, needle);
      assert !OccursAt(hay, needle, 0) by {
        assert hay[0..] == hay;
      }
      assert forall i :: i > 0 ==> (OccursAt(hay, needle, i) <==> OccursAt(tail, needle, i - 1)) by {
        forall i | i > 0 && i <= |hay|
          ensures OccursAt(hay, needle, i) <==> OccursAt(tail, needle, i - 1)
        {
          assert hay[i..] == tail[i - 1..];
        }
      }
      assert r ==> OccursAt(hay, needle, (var j :| OccursAt(tail, needle, j); j) + 1);
      r
  }

  /** Django's `icontains`, with case folded over ASCII letters only. */
  function ContainsIgnoringCase(hay: string, needle: string): (r: bool)
    ensures r <==> exists i :: OccursAt(Lower(hay), Lower(needle), i)
  {
    Contains(Lower(hay), Lower(needle))
  }

  /** Case-insensitive containment ignores the case of the query's ASCII letters. */
  lemma ContainsIgnoringCaseOfLower(hay: string, needle: string)
    ensures ContainsIgnoringCase(hay, Lower(needle)) == ContainsIgnoringCase(hay, needle)
  {
    assert Lower(Lower(needle)) == Lower(needle);
  }
}
