/** The two string operations of the standard library the handlers rely on. */
module Text {

  /** `pattern` occurs in `s` starting at index `i`. */
  ghost predicate OccursAt(pattern: string, s: string, i: int) {
    0 <= i && i + |pattern| <= |s| && s[i..i + |pattern|] == pattern
  }

  /** For `i >= 0`, an occurrence at `i + 1` in `s` is an occurrence at `i` in `s[1..]`, and back. */
  lemma OccursInTail(pattern: string, s: string)
    requires s != []
    ensures forall i :: 0 <= i ==> (OccursAt(pattern, s[1..], i) <==> OccursAt(pattern, s, i + 1))
  {
  }

  /**
   * `str::contains` with a string pattern: true exactly when `pattern` occurs
   * somewhere in `s` (the empty pattern occurs everywhere).
   */
  predicate Contains(s: string, pattern: string)
    ensures Contains(s, pattern) <==> exists i :: OccursAt(pattern, s, i)
    decreases |s|
  {
    if |s| < |pattern| then
      assert forall i :: !OccursAt(pattern, s, i);
      false
    else if s[..|pattern|] == pattern then
      assert OccursAt(pattern, s, 0);
      true
    else
      assert !OccursAt(pattern, s, 0);
      OccursInTail(pattern, s);
      assert forall i :: OccursAt(pattern, s, i) ==> i >= 1 && OccursAt(pattern, s[1..], i - 1);
      Contains(s[1..], pattern)
  }

  /** The number of bytes UTF-8 uses to encode `c`. */
  function Utf8Width(c: char): (n: nat)
    ensures 1 <= n <= 4
    ensures n == 1 <==> c as int < 0x80
  {
    if c as int < 0x80 then 1
    else if c as int < 0x800 then 2
    else if c as int < 0x1_0000 then 3
    else 4
  }

  /**
   * `String::len`: the length of `s` in bytes of its UTF-8 encoding, which is at
   * least its number of characters and equals it exactly for ASCII text.
   */
  function Utf8Len(s: string): (n: nat)
    ensures |s| <= n <= 4 * |s|
    ensures n == |s| <==> forall i :: 0 <= i < |s| ==> s[i] as int < 0x80
  {
    if s == [] then 0 else Utf8Width(s[0]) + Utf8Len(s[1..])
  }
}
