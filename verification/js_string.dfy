/**
  The part of JavaScript's `String.prototype.trim` that the setup screen relies on:
  a name counts as filled in when trimming leaves a non-empty (truthy) string.
*/
module JsString {

  /**
    The characters `trim` removes: ECMAScript's WhiteSpace (tab, vertical tab, form
    feed, the byte-order mark and the Unicode space separators) and LineTerminator
    (line feed, carriage return, line and paragraph separators).
  */
  predicate IsJsSpace(c: char) {
    var n := c as int;
    || n == 0x09 || n == 0x0A || n == 0x0B || n == 0x0C || n == 0x0D
    || n == 0x20 || n == 0xA0 || n == 0x1680
    || (0x2000 <= n <= 0x200A)
    || n == 0x2028 || n == 0x2029 || n == 0x202F || n == 0x205F
    || n == 0x3000 || n == 0xFEFF
  }

  /** Drops leading white space: what is dropped is all space, what is kept starts visibly. */
  function TrimStart(s: string): (r: string)
    ensures |r| <= |s| && r == s[|s| - |r|..]
    ensures forall i :: 0 <= i < |s| - |r| ==> IsJsSpace(s[i])
    ensures |r| > 0 ==> !IsJsSpace(r[0])
  {
    if |s| > 0 && IsJsSpace(s[0]) then TrimStart(s[1..]) else s
  }

  /** Drops trailing white space: what is dropped is all space, what is kept ends visibly. */
  function TrimEnd(s: string): (r: string)
    ensures |r| <= |s| && r == s[..|r|]
    ensures forall i :: |r| <= i < |s| ==> IsJsSpace(s[i])
    ensures |r| > 0 ==> !IsJsSpace(r[|r| - 1])
  {
    if |s| > 0 && IsJsSpace(s[|s| - 1]) then TrimEnd(s[..|s| - 1]) else s
  }

  /** Some character of `s` is not white space. */
  predicate HasVisible(s: string) {
    exists i :: 0 <= i < |s| && !IsJsSpace(s[i])
  }

  /**
    r is s[a..b] and everything of s outside a..b is white space: r is s with
    white space removed from its two ends only.
  */
  ghost predicate StrippedAt(s: string, r: string, a: int, b: int) {
    && 0 <= a <= b <= |s| && r == s[a..b]
    && (forall i :: 0 <= i < a ==> IsJsSpace(s[i]))
    && (forall i :: b <= i < |s| ==> IsJsSpace(s[i]))
  }

  /** Stripping a white-space prefix and then a white-space suffix strips exactly the two ends. */
  lemma StripBothEnds(s: string, t: string, r: string)
    requires |t| <= |s| && t == s[|s| - |t|..]
    requires forall i :: 0 <= i < |s| - |t| ==> IsJsSpace(s[i])
    requires |r| <= |t| && r == t[..|r|]
    requires forall i :: |r| <= i < |t| ==> IsJsSpace(t[i])
    ensures StrippedAt(s, r, |s| - |t|, |s| - |t| + |r|)
  {
    var a := |s| - |t|;
    forall i | a + |r| <= i < |s|
      ensures IsJsSpace(s[i])
    {
      assert s[i] == t[i - a];
    }
  }

  /**
    After stripping a white-space prefix that leaves a visible first character, and
    then a white-space suffix that leaves a visible last character, the result
    has visible ends and is empty exactly when s is all white space.
  */
  lemma StrippedVisible(s: string, t: string, r: string)
    requires |t| <= |s| && t == s[|s| - |t|..]
    requires forall i :: 0 <= i < |s| - |t| ==> IsJsSpace(s[i])
    requires |t| > 0 ==> !IsJsSpace(t[0])
    requires |r| <= |t| && r == t[..|r|]
    requires forall i :: |r| <= i < |t| ==> IsJsSpace(t[i])
    requires |r| > 0 ==> !IsJsSpace(r[|r| - 1])
    ensures |r| > 0 ==> !IsJsSpace(r[0]) && !IsJsSpace(r[|r| - 1])
    ensures r != "" <==> HasVisible(s)
  {
    if r != "" {
      assert r[0] == t[0] == s[|s| - |t|];
    } else {
      assert |t| == 0;
      assert forall i :: 0 <= i < |s| ==> IsJsSpace(s[i]);
    }
  }

  /**
    `s.trim()`: `s` with the white space at both ends stripped and nothing else
    removed. The result is non-empty exactly when `s` has a character that is not
    white space.
  */
  function Trim(s: string): (r: string)
    ensures |r| <= |s|
    ensures exists a, b :: StrippedAt(s, r, a, b)
    ensures |r| > 0 ==> !IsJsSpace(r[0]) && !IsJsSpace(r[|r| - 1])
    ensures r != "" <==> HasVisible(s)
  {
    var t := TrimStart(s);
    var r := TrimEnd(t);
    StripBothEnds(s, t, r);
    StrippedVisible(s, t, r);
    assert StrippedAt(s, r, |s| - |t|, |s| - |t| + |r|);
    r
  }

  /** `s.trim()` is truthy, that is, non-empty. */
  predicate Filled(s: string) {
    Trim(s) != ""
  }

  /** A name is filled in exactly when it has a character that is not white space. */
  lemma FilledIffVisible(s: string)
    ensures Filled(s) <==> HasVisible(s)
  {
    var _ := Trim(s);
  }
}
