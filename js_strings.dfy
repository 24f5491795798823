/**
  The string built-ins the core relies on: `String.prototype.trim`,
  `startsWith` and `toLowerCase`, restricted to ASCII (see README).
*/
module JsStrings {

  /** ASCII white space: space, tab, line feed, vertical tab, form feed, carriage return. */
  predicate IsSpace(c: char) {
    c == ' ' || c == '\t' || c == '\n' || c == '\U{B}' || c == '\U{C}' || c == '\r'
  }

  /** Neither the first nor the last character is white space. */
  predicate NoEdgeSpace(s: string) {
    s == [] || (!IsSpace(s[0]) && !IsSpace(s[|s| - 1]))
  }

  /** Drops leading white space: the result is a suffix of `s`, everything dropped is space. */
  function TrimStart(s: string): (r: string)
    ensures |r| <= |s| && r == s[|s| - |r|..]
    ensures forall i :: 0 <= i < |s| - |r| ==> IsSpace(s[i])
    ensures r == [] || !IsSpace(r[0])
    decreases |s|
  {
    if s != [] && IsSpace(s[0]) then TrimStart(s[1..]) else s
  }

  /** Drops trailing white space: the result is a prefix of `s`, everything dropped is space. */
  function TrimEnd(s: string): (r: string)
    ensures |r| <= |s| && r == s[..|r|]
    ensures forall i :: |r| <= i < |s| ==> IsSpace(s[i])
    ensures r == [] || !IsSpace(r[|r| - 1])
    decreases |s|
  {
    if s != [] && IsSpace(s[|s| - 1]) then TrimEnd(s[..|s| - 1]) else s
  }

  /** `s.trim()`: the result has no white space at either end and leaves a string
      without such white space as it is. */
  function Trim(s: string): (r: string)
    ensures NoEdgeSpace(r)
    ensures NoEdgeSpace(s) ==> r == s
  {
    TrimEnd(TrimStart(s))
  }

  /** `r` is `s[i..j]`, and all of `s` outside that slice is white space. */
  predicate SpaceAround(s: string, r: string, i: int, j: int) {
    && 0 <= i <= j <= |s| && r == s[i..j]
    && (forall k :: 0 <= k < i ==> IsSpace(s[k]))
    && (forall k :: j <= k < |s| ==> IsSpace(s[k]))
  }

  /** What `trim` keeps is a contiguous slice of the input, and all it drops is white space. */
  lemma TrimIsSlice(s: string)
    ensures exists i, j :: SpaceAround(s, Trim(s), i, j)
  {
    var t := TrimStart(s);
    var r := TrimEnd(t);
    var i := |s| - |t|;
    var j := i + |r|;
    forall m | 0 <= m < |r| ensures r[m] == s[i + m] {
      assert r[m] == t[m] && t[m] == s[i + m];
    }
    assert r == s[i..j];
    forall k | j <= k < |s| ensures IsSpace(s[k]) {
      assert s[k] == t[k - i];
    }
    assert SpaceAround(s, Trim(s), i, j);
  }

  /** `s.startsWith(p)`. */
  predicate StartsWith(s: string, p: string) {
    |p| <= |s| && s[..|p|] == p
  }

  /** A string that starts with a non-empty `p` begins with `p`'s first character. */
  lemma StartsWithFirst(s: string, p: string)
    ensures StartsWith(s, p) && p != [] ==> s[0] == p[0]
  {
    if StartsWith(s, p) && p != [] {
      assert s[..|p|][0] == s[0];
    }
  }

  /** An ASCII upper-case letter. */
  predicate IsUpper(c: char) {
    'A' <= c <= 'Z'
  }

  function LowerChar(c: char): char {
    if IsUpper(c) then (c as int - 'A' as int + 'a' as int) as char else c
  }

  /** `c` is `t` itself or, when `t` is an ASCII lower-case letter, its upper-case partner. */
  predicate FoldsTo(c: char, t: char) {
    c == t || ('a' <= t <= 'z' && c as int == t as int - 'a' as int + 'A' as int)
  }

  /** `s.toLowerCase()` on ASCII letters: same length, no upper-case letter is left,
      and a character changes exactly when it was upper case. */
  function ToLower(s: string): (r: string)
    ensures |r| == |s|
    ensures forall i :: 0 <= i < |r| ==> !IsUpper(r[i])
    ensures forall i :: 0 <= i < |s| ==> (r[i] == s[i] <==> !IsUpper(s[i]))
  {
    seq(|s|, i requires 0 <= i < |s| => LowerChar(s[i]))
  }

  /** Lower-casing `s` gives a string `t` without upper-case letters exactly when `s` has
      `t`'s length and each character of `s` is that of `t` or its upper-case partner. */
  lemma ToLowerMatches(s: string, t: string)
    requires forall i :: 0 <= i < |t| ==> !IsUpper(t[i])
    ensures ToLower(s) == t <==> |s| == |t| && forall i :: 0 <= i < |s| ==> FoldsTo(s[i], t[i])
  {
  }
}
