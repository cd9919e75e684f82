/** The string helpers the extraction and the page rely on. */
module Text {

  /**
   * Lower-casing of one character, for the characters whose lower case is
   * ASCII: 'A'..'Z', U+0130 (capital I with dot, lowered to 'i') and U+212A
   * (Kelvin sign, lowered to 'k'). Every other character is left as it is.
   */
  function LowerChar(c: char): (r: char)
    ensures 'a' <= r <= 'z' <==> ('a' <= c <= 'z' || 'A' <= c <= 'Z' || c == '\U{0130}' || c == '\U{212A}')
    ensures 'A' <= c <= 'Z' ==> r as int == c as int + 32
    ensures !('A' <= c <= 'Z' || c == '\U{0130}' || c == '\U{212A}') ==> r == c
  {
    if 'A' <= c <= 'Z' then (c as int + 32) as char
    else if c == '\U{0130}' then 'i'
    else if c == '\U{212A}' then 'k'
    else c
  }

  /** Character-by-character lower-casing; the length never changes. */
  function ToLower(s: string): (r: string)
    ensures |r| == |s|
    ensures forall i :: 0 <= i < |s| ==> r[i] == LowerChar(s[i])
  {
    seq(|s|, i requires 0 <= i < |s| => LowerChar(s[i]))
  }

  /** `needle` occurs in `s` starting at position `i`. */
  predicate OccursAt(s: string, needle: string, i: nat)
  {
    i + |needle| <= |s| && s[i..i + |needle|] == needle
  }

  /** Substring test: `needle` occurs somewhere in `s`. */
  predicate Contains(s: string, needle: string)
    ensures Contains(s, needle) ==> |needle| <= |s|
    ensures needle == [] ==> Contains(s, needle)
    ensures |needle| <= |s| && s[..|needle|] == needle ==> Contains(s, needle)
  {
    assert |needle| <= |s| && s[..|needle|] == needle ==> OccursAt(s, needle, 0);
    exists i: nat :: i <= |s| && OccursAt(s, needle, i)
  }

  /** White space as Unicode's White_Space property defines it. */
  predicate IsSpace(c: char)
  {
    c == '\t' || c == '\n' || c == '\U{000B}' || c == '\U{000C}' || c == '\r' || c == ' '
    || c == '\U{0085}' || c == '\U{00A0}' || c == '\U{1680}'
    || ('\U{2000}' <= c <= '\U{200A}')
    || c == '\U{2028}' || c == '\U{2029}' || c == '\U{202F}' || c == '\U{205F}' || c == '\U{3000}'
  }

  /** `s` without its leading white space. */
  function TrimLeft(s: string): (r: string)
    ensures |r| <= |s| && r == s[|s| - |r|..]
    ensures forall k :: 0 <= k < |s| - |r| ==> IsSpace(s[k])
    ensures r == [] || !IsSpace(r[0])
  {
    if s != [] && IsSpace(s[0]) then TrimLeft(s[1..]) else s
  }

  /** `s` without its trailing white space. */
  function TrimRight(s: string): (r: string)
    ensures |r| <= |s| && r == s[..|r|]
    ensures forall k :: |r| <= k < |s| ==> IsSpace(s[k])
    ensures r == [] || !IsSpace(r[|r| - 1])
  {
    if s != [] && IsSpace(s[|s| - 1]) then TrimRight(s[..|s| - 1]) else s
  }

  /**
   * `r` is `s` with the first `i` characters and some trailing characters
   * removed, all of them white space.
   */
  predicate TrimmedAt(s: string, r: string, i: nat)
  {
    && i + |r| <= |s| && s[i..i + |r|] == r
    && (forall k :: 0 <= k < i ==> IsSpace(s[k]))
    && (forall k :: i + |r| <= k < |s| ==> IsSpace(s[k]))
  }

  /** `s` without leading and trailing white space; what is inside is kept. */
  function TrimSpace(s: string): (r: string)
    ensures r == [] || (!IsSpace(r[0]) && !IsSpace(r[|r| - 1]))
    ensures exists i: nat :: TrimmedAt(s, r, i)
  {
    var l := TrimLeft(s);
    var r := TrimRight(l);
    assert TrimmedAt(s, r, |s| - |l|) by {
      assert l == s[|s| - |l|..];
      assert r == l[..|r|];
      forall k | |s| - |l| + |r| <= k < |s| ensures IsSpace(s[k]) {
        assert s[k] == l[k - (|s| - |l|)];
      }
    }
    r
  }
}
