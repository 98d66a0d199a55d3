/** JavaScript strings as the node uses them: `String.prototype.trim`, which
    removes leading and trailing white space and line terminators (sections
    12.2, 12.3 and 22.1.3.32 of ECMA-262). */
module JsText {

  /** The ECMAScript WhiteSpace and LineTerminator code points: tab, line
      feed, vertical tab, form feed, carriage return, the space separators of
      Unicode category Zs, the byte order mark, and the line and paragraph
      separators. */
  predicate IsWhiteSpace(c: char) {
    var u := c as int;
    (0x09 <= u <= 0x0D) || u == 0x20 || u == 0xA0 || u == 0x1680
    || (0x2000 <= u <= 0x200A) || u == 0x2028 || u == 0x2029 || u == 0x202F
    || u == 0x205F || u == 0x3000 || u == 0xFEFF
  }

  /** Every character of `s` is white space (true of the empty string). */
  predicate AllWhiteSpace(s: string) {
    forall k :: 0 <= k < |s| ==> IsWhiteSpace(s[k])
  }

  /** `s` with its leading white space removed: a suffix of `s` that does not
      start with white space, everything cut off being white space. */
  function TrimStart(s: string): (r: string)
    ensures |r| <= |s| && r == s[|s| - |r|..]
    ensures forall k :: 0 <= k < |s| - |r| ==> IsWhiteSpace(s[k])
    ensures r != [] ==> !IsWhiteSpace(r[0])
    decreases |s|
  {
    if |s| > 0 && IsWhiteSpace(s[0]) then TrimStart(s[1..]) else s
  }

  /** `s` with its trailing white space removed: a prefix of `s` that does not
      end with white space, everything cut off being white space. */
  function TrimEnd(s: string): (r: string)
    ensures |r| <= |s| && r == s[..|r|]
    ensures forall k :: |r| <= k < |s| ==> IsWhiteSpace(s[k])
    ensures r != [] ==> !IsWhiteSpace(r[|r| - 1])
    decreases |s|
  {
    if |s| > 0 && IsWhiteSpace(s[|s| - 1]) then TrimEnd(s[..|s| - 1]) else s
  }

  /** `s.trim()`: no longer than `s`, and neither starting nor ending with
      white space. */
  function Trim(s: string): (r: string)
    ensures |r| <= |s|
    ensures r != [] ==> !IsWhiteSpace(r[0]) && !IsWhiteSpace(r[|r| - 1])
  {
    var t := TrimStart(s);
    var r := TrimEnd(t);
    assert r != [] ==> r[0] == t[0];
    r
  }

  /** Where `s.trim()` starts in `s`: the number of leading white-space
      characters removed. */
  function TrimOffset(s: string): nat {
    |s| - |TrimStart(s)|
  }

  /** What TrimStart cuts off is white space. */
  lemma {:induction false} TrimStartCut(s: string)
    ensures TrimOffset(s) <= |s| && TrimStart(s) == s[TrimOffset(s)..]
    ensures AllWhiteSpace(s[..TrimOffset(s)])
  {
    var lo := TrimOffset(s);
    forall k | 0 <= k < lo ensures IsWhiteSpace(s[..lo][k]) {
      assert s[..lo][k] == s[k];
    }
  }

  /** What TrimEnd cuts off is white space. */
  lemma {:induction false} TrimEndCut(t: string)
    ensures TrimEnd(t) == t[..|TrimEnd(t)|]
    ensures AllWhiteSpace(t[|TrimEnd(t)|..])
  {
    var hi := |TrimEnd(t)|;
    forall k | 0 <= k < |t| - hi ensures IsWhiteSpace(t[hi..][k]) {
      assert t[hi..][k] == t[hi + k];
    }
  }

  lemma SliceOfSuffix(s: string, lo: nat, m: nat)
    requires lo + m <= |s|
    ensures s[lo..][..m] == s[lo..lo + m] && s[lo..][m..] == s[lo + m..]
  {
  }

  /** `s.trim()` is a slice of `s` obtained by cutting white space only from
      both ends, and it neither starts nor ends with white space. */
  lemma {:induction false} TrimIsWhiteSpaceCut(s: string)
    ensures var lo := TrimOffset(s); var hi := lo + |Trim(s)|;
      && hi <= |s| && Trim(s) == s[lo..hi]
      && AllWhiteSpace(s[..lo]) && AllWhiteSpace(s[hi..])
    ensures Trim(s) != [] ==> !IsWhiteSpace(Trim(s)[0]) && !IsWhiteSpace(Trim(s)[|Trim(s)| - 1])
  {
    TrimIsSlice(s);
    var t := TrimStart(s);
    var r := TrimEnd(t);
    if r != [] {
      assert r[0] == t[0];
    }
  }

  lemma {:induction false} TrimIsSlice(s: string)
    ensures var lo := TrimOffset(s); var hi := lo + |Trim(s)|;
      && hi <= |s| && Trim(s) == s[lo..hi]
      && AllWhiteSpace(s[..lo]) && AllWhiteSpace(s[hi..])
  {
    var t := TrimStart(s);
    var r := TrimEnd(t);
    var lo := TrimOffset(s);
    var hi := lo + |r|;
    assert t == s[lo..] && r == t[..|r|];
    assert hi <= |s| && r == s[lo..hi] && t[|r|..] == s[hi..] by {
      SliceOfSuffix(s, lo, |r|);
    }
    assert AllWhiteSpace(s[..lo]) by {
      TrimStartCut(s);
    }
    assert AllWhiteSpace(s[hi..]) by {
      TrimEndCut(t);
    }
  }

  /** `s.trim() === ''` exactly when every character of `s` is white space. */
  lemma {:induction false} TrimEmptyIff(s: string)
    ensures Trim(s) == [] <==> AllWhiteSpace(s)
  {
    var t := TrimStart(s);
    if Trim(s) == [] {
      // A non-empty TrimStart(s) starts with a non-blank, which TrimEnd keeps.
      assert t == [];
    } else {
      TrimIsWhiteSpaceCut(s);
      assert !IsWhiteSpace(s[TrimOffset(s)]);
    }
  }

  /** The trimmed string equals the original exactly when the original is
      empty or neither starts nor ends with white space. */
  lemma {:induction false} TrimUnchangedIff(s: string)
    ensures Trim(s) == s <==> s == [] || (!IsWhiteSpace(s[0]) && !IsWhiteSpace(s[|s| - 1]))
  {
    TrimIsWhiteSpaceCut(s);
    if s != [] && !IsWhiteSpace(s[0]) && !IsWhiteSpace(s[|s| - 1]) {
      assert TrimStart(s) == s;
      assert TrimEnd(s) == s;
    }
  }
}
