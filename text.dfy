/**
 * White space, `String.prototype.trim` and `split(/\s+/)` as the word counter of the
 * typing test uses them.  Strings are sequences of `char`.
 */
module Text {

  /** The characters that JavaScript's `\s` and `trim` both treat as white space:
      the WhiteSpace and LineTerminator code points of ECMAScript. */
  predicate IsSpace(c: char) {
    c == ' ' || c == '\t' || c == '\n' || c == '\r' || c == '\U{B}' || c == '\U{C}'
    || c == '\U{A0}' || c == '\U{1680}' || ('\U{2000}' <= c <= '\U{200A}')
    || c == '\U{2028}' || c == '\U{2029}' || c == '\U{202F}' || c == '\U{205F}'
    || c == '\U{3000}' || c == '\U{FEFF}'
  }

  predicate AllSpace(s: string) {
    forall i :: 0 <= i < |s| ==> IsSpace(s[i])
  }

  predicate NoSpace(s: string) {
    forall i :: 0 <= i < |s| ==> !IsSpace(s[i])
  }

  /** The leading run of white space removed: the longest all-space prefix is dropped. */
  function TrimStart(s: string): (r: string)
    ensures |r| <= |s| && r == s[|s| - |r|..]
    ensures AllSpace(s[..|s| - |r|])
    ensures r == [] || !IsSpace(r[0])
  {
    if s != [] && IsSpace(s[0]) then
      var r := TrimStart(s[1..]);
      var k := |s| - |r|;
      assert s[1..][k - 1..] == s[k..];
      assert s[..k] == [s[0]] + s[1..][..k - 1];
      r
    else s
  }

  /** The trailing run of white space removed: the longest all-space suffix is dropped. */
  function TrimEnd(s: string): (r: string)
    ensures |r| <= |s| && r == s[..|r|]
    ensures AllSpace(s[|r|..])
    ensures r == [] || !IsSpace(r[|r| - 1])
  {
    if s != [] && IsSpace(s[|s| - 1]) then
      var r := TrimEnd(s[..|s| - 1]);
      assert s[|r|..] == s[..|s| - 1][|r|..] + [s[|s| - 1]];
      r
    else s
  }

  /** `s.trim()`: what is left once white space is removed at both ends.  It neither
      starts nor ends with white space, and it is empty exactly when `s` is all white
      space (TrimSlices says where in `s` it sits). */
  function Trim(s: string): (r: string)
    ensures r == [] || (!IsSpace(r[0]) && !IsSpace(r[|r| - 1]))
    ensures r == [] <==> AllSpace(s)
  {
    TrimEmptyIffSpace(s);
    TrimEnd(TrimStart(s))
  }

  /** `s.trim()` is the slice of `s` at offset `TrimOffset(s)`, and everything around
      that slice is white space. */
  lemma TrimSlices(s: string)
    ensures var r := Trim(s); var a := TrimOffset(s);
      a + |r| <= |s| && s[a..a + |r|] == r && AllSpace(s[..a]) && AllSpace(s[a + |r|..])
  {
    var t := TrimStart(s);
    var r := TrimEnd(t);
    var a := |s| - |t|;
    assert s[a..] == t;
    assert s[a..a + |r|] == t[..|r|];
    assert s[a + |r|..] == t[|r|..];
  }

  /** Length of the leading white space that `trim` removes. */
  function TrimOffset(s: string): nat {
    |s| - |TrimStart(s)|
  }

  lemma TrimEmptyIffSpace(s: string)
    ensures TrimEnd(TrimStart(s)) == [] <==> AllSpace(s)
  {
    var t := TrimStart(s);
    if AllSpace(s) {
      TrimStartOfSpaces(s);
    }
    if TrimEnd(t) == [] {
      assert t[0..] == t;
      assert t == [];
      assert s[..|s|] == s;
    }
  }

  lemma {:induction false} TrimStartOfSpaces(s: string)
    requires AllSpace(s)
    ensures TrimStart(s) == []
  {
    if s != [] {
      TrimStartOfSpaces(s[1..]);
    }
  }

  /**
   * `s.split(/\s+/)`: the pieces of `s` between maximal runs of white space.  A run at
   * the very start or end yields an empty piece there, and "" splits into [""].  The
   * first piece is empty exactly when `s` is empty or starts with white space.
   */
  function Split(s: string): (pieces: seq<string>)
    ensures |pieces| >= 1
    ensures forall k :: 0 <= k < |pieces| ==> NoSpace(pieces[k])
    ensures pieces[0] == [] <==> s == [] || IsSpace(s[0])
    decreases |s|
  {
    if s == [] then [""]
    else if IsSpace(s[0]) then [""] + Split(TrimStart(s))
    else
      var rest := Split(s[1..]);
      [[s[0]] + rest[0]] + rest[1..]
  }

  /** Number of maximal runs of white space in `s`, scanning one character at a time;
      `inRun` says whether the character before `s` was white space. */
  function SpaceRuns(s: string, inRun: bool): nat {
    if s == [] then 0
    else (if IsSpace(s[0]) && !inRun then 1 else 0) + SpaceRuns(s[1..], IsSpace(s[0]))
  }

  /** The characters of `s` that are not white space, in order. */
  function NonSpaceChars(s: string): (r: string)
    ensures NoSpace(r)
    ensures |r| <= |s|
  {
    if s == [] then []
    else if IsSpace(s[0]) then NonSpaceChars(s[1..])
    else [s[0]] + NonSpaceChars(s[1..])
  }

  /** All the pieces, concatenated. */
  function Concat(pieces: seq<string>): string {
    if pieces == [] then [] else pieces[0] + Concat(pieces[1..])
  }

  /** Inside a run of white space, the rest of the run starts no new run. */
  lemma {:induction false} RunContinues(s: string)
    ensures SpaceRuns(s, true) == SpaceRuns(TrimStart(s), false)
    decreases |s|
  {
    if s != [] && IsSpace(s[0]) {
      RunContinues(s[1..]);
    }
  }

  /** `split(/\s+/)` yields one piece more than there are runs of white space. */
  lemma {:induction false} SplitCount(s: string)
    ensures |Split(s)| == 1 + SpaceRuns(s, false)
    decreases |s|
  {
    if s == [] {
    } else if IsSpace(s[0]) {
      SplitCount(TrimStart(s));
      RunContinues(s[1..]);
    } else {
      SplitCount(s[1..]);
    }
  }

  /** If `s` does not end with white space, every piece after the first is non-empty. */
  lemma {:induction false} LaterPiecesNonEmpty(s: string)
    requires s == [] || !IsSpace(s[|s| - 1])
    ensures forall k :: 1 <= k < |Split(s)| ==> Split(s)[k] != []
    decreases |s|
  {
    if s == [] {
    } else if IsSpace(s[0]) {
      var t := TrimStart(s);
      assert t != [] && t[|t| - 1] == s[|s| - 1];
      LaterPiecesNonEmpty(t);
    } else {
      var rest := s[1..];
      assert rest == [] || rest[|rest| - 1] == s[|s| - 1];
      LaterPiecesNonEmpty(rest);
    }
  }

  lemma {:induction false} NonSpaceCharsAppend(x: string, y: string)
    ensures NonSpaceChars(x + y) == NonSpaceChars(x) + NonSpaceChars(y)
    decreases |x|
  {
    if x != [] {
      var xy := x + y;
      assert xy != [] && xy[0] == x[0] && xy[1..] == x[1..] + y;
      NonSpaceCharsAppend(x[1..], y);
      if IsSpace(x[0]) {
        assert NonSpaceChars(xy) == NonSpaceChars(x[1..] + y);
      } else {
        assert NonSpaceChars(xy) == [x[0]] + NonSpaceChars(x[1..] + y);
      }
    } else {
      assert x + y == y;
    }
  }

  lemma {:induction false} TrimStartKeepsNonSpace(s: string)
    ensures NonSpaceChars(TrimStart(s)) == NonSpaceChars(s)
  {
    if s != [] && IsSpace(s[0]) {
      TrimStartKeepsNonSpace(s[1..]);
    }
  }

  lemma {:induction false} TrimEndKeepsNonSpace(s: string)
    ensures NonSpaceChars(TrimEnd(s)) == NonSpaceChars(s)
  {
    if s != [] && IsSpace(s[|s| - 1]) {
      var init := s[..|s| - 1];
      TrimEndKeepsNonSpace(init);
      assert s == init + [s[|s| - 1]];
      NonSpaceCharsAppend(init, [s[|s| - 1]]);
      assert NonSpaceChars([s[|s| - 1]]) == [];
    }
  }

  /** Trimming removes white space only. */
  lemma TrimKeepsNonSpace(s: string)
    ensures NonSpaceChars(Trim(s)) == NonSpaceChars(s)
  {
    TrimStartKeepsNonSpace(s);
    TrimEndKeepsNonSpace(TrimStart(s));
  }

  /** The pieces of `split(/\s+/)`, concatenated, are exactly the non-space characters:
      nothing but white space is dropped, and nothing is reordered. */
  lemma {:induction false} SplitLosesOnlySpace(s: string)
    ensures Concat(Split(s)) == NonSpaceChars(s)
    decreases |s|
  {
    if s == [] {
    } else if IsSpace(s[0]) {
      var t := TrimStart(s);
      SplitLosesOnlySpace(t);
      TrimStartKeepsNonSpace(s);
      var pieces := [""] + Split(t);
      assert pieces[1..] == Split(t);
      assert Concat(pieces) == Concat(Split(t));
    } else {
      var rest := Split(s[1..]);
      SplitLosesOnlySpace(s[1..]);
      var pieces := [[s[0]] + rest[0]] + rest[1..];
      assert pieces[1..] == rest[1..];
      assert Concat(rest) == rest[0] + Concat(rest[1..]);
      assert Concat(pieces) == [s[0]] + Concat(rest);
    }
  }
}
