/**
 * String primitives the application relies on: `String.prototype.includes`
 * and `String.prototype.trim` of ECMAScript.
 */
module Text {

  /** `sub` occurs in `s` starting at index `i`. */
  predicate OccursAt(s: string, sub: string, i: int)
  {
    0 <= i && i + |sub| <= |s| && s[i..i + |sub|] == sub
  }

  /** `s.includes(sub)`. */
  predicate Contains(s: string, sub: string)
  {
    exists i | 0 <= i <= |s| - |sub| :: OccursAt(s, sub, i)
  }

  /** A string contains another at least as long only when the two are equal. */
  lemma ContainsNoShorter(s: string, sub: string)
    requires |sub| >= |s|
    ensures Contains(s, sub) <==> s == sub
  {
    if s == sub {
      assert OccursAt(s, sub, 0);
    }
    if Contains(s, sub) {
      assert s[0..|sub|] == s;
    }
  }

  /**
   * The characters `trim` removes: the ECMAScript WhiteSpace set (tab,
   * vertical tab, form feed, space, no-break space, byte-order mark and the
   * Unicode space separators) and the LineTerminator set.
   */
  predicate IsSpace(c: char)
  {
    || c == '\t' || c == '\n' || c == '\U{0B}' || c == '\U{0C}' || c == '\r'
    || c == ' ' || c == '\U{A0}' || c == '\U{1680}'
    || ('\U{2000}' <= c <= '\U{200A}')
    || c == '\U{2028}' || c == '\U{2029}' || c == '\U{202F}' || c == '\U{205F}'
    || c == '\U{3000}' || c == '\U{FEFF}'
  }

  predicate AllSpace(s: string)
  {
    forall k | 0 <= k < |s| :: IsSpace(s[k])
  }

  /** `s.trimStart()`: the longest suffix of `s` that does not begin with a space. */
  function TrimStart(s: string): (r: string)
    ensures |r| <= |s| && r == s[|s| - |r|..]
    ensures AllSpace(s[..|s| - |r|])
    ensures r == [] || !IsSpace(r[0])
  {
    if |s| > 0 && IsSpace(s[0]) then
      var r := TrimStart(s[1..]);
      assert r == s[1..][|s| - 1 - |r|..] == s[|s| - |r|..];
      var cut, cut' := s[..|s| - |r|], s[1..][..|s| - 1 - |r|];
      forall k | 0 <= k < |cut|
        ensures IsSpace(cut[k])
      {
        if k > 0 {
          assert cut[k] == cut'[k - 1];
        }
      }
      r
    else s
  }

  /** `s.trimEnd()`: the longest prefix of `s` that does not end with a space. */
  function TrimEnd(s: string): (r: string)
    ensures |r| <= |s| && r == s[..|r|]
    ensures AllSpace(s[|r|..])
    ensures r == [] || !IsSpace(r[|r| - 1])
  {
    if |s| > 0 && IsSpace(s[|s| - 1]) then
      var r := TrimEnd(s[..|s| - 1]);
      assert s[..|s| - 1][|r|..] == s[|r|..|s| - 1];
      assert s[|r|..] == s[|r|..|s| - 1] + [s[|s| - 1]];
      assert r == s[..|s| - 1][..|r|] == s[..|r|];
      r
    else s
  }

  /**
   * `s.trim()`: a contiguous slice of `s` whose cut-off ends consist of
   * spaces only and which neither starts nor ends with a space.
   */
  function Trim(s: string): (r: string)
    ensures exists i, j :: 0 <= i <= j <= |s| && r == s[i..j] && AllSpace(s[..i]) && AllSpace(s[j..])
    ensures r == [] || (!IsSpace(r[0]) && !IsSpace(r[|r| - 1]))
  {
    var t := TrimStart(s);
    var r := TrimEnd(t);
    var i := |s| - |t|;
    assert r == s[i..i + |r|];
    assert s[i + |r|..] == t[|r|..];
    r
  }

  /** Trimming twice is trimming once. */
  lemma TrimIdempotent(s: string)
    ensures Trim(Trim(s)) == Trim(s)
  {
    var t := Trim(s);
    assert TrimStart(t) == t;
    assert TrimEnd(t) == t;
  }
}
