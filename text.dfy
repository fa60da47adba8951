// String operations the pipeline relies on, restricted to ASCII: case folding,
// substring search, whitespace splitting and joining, stripping and replacing.

module Text {

  /** The ASCII characters that Python's `str.split()` and `str.strip()` treat
      as whitespace: space, \t \n \v \f \r and the separators \x1c-\x1f. */
  predicate IsSpace(c: char) {
    c == ' ' || ('\U{0009}' <= c <= '\U{000D}') || ('\U{001C}' <= c <= '\U{001F}')
  }

  predicate NoSpace(s: string) {
    forall i :: 0 <= i < |s| ==> !IsSpace(s[i])
  }

  function LowerChar(c: char): char {
    if 'A' <= c <= 'Z' then (c as int + 32) as char else c
  }

  function UpperChar(c: char): char {
    if 'a' <= c <= 'z' then (c as int - 32) as char else c
  }

  /** `s.lower()` on ASCII letters. */
  function Lower(s: string): (r: string)
    ensures |r| == |s|
  {
    seq(|s|, i requires 0 <= i < |s| => LowerChar(s[i]))
  }

  /** `s.upper()` on ASCII letters. */
  function Upper(s: string): (r: string)
    ensures |r| == |s|
  {
    seq(|s|, i requires 0 <= i < |s| => UpperChar(s[i]))
  }

  /** Folding case after upper-casing is the same as folding case directly. */
  lemma LowerOfUpper(s: string)
    ensures Lower(Upper(s)) == Lower(s)
  {
    forall i | 0 <= i < |s|
      ensures Lower(Upper(s))[i] == Lower(s)[i]
    {
      var c := s[i];
      if 'a' <= c <= 'z' {
        assert Upper(s)[i] == (c as int - 32) as char;
      }
    }
  }

  /** Case folding commutes with taking a slice. */
  lemma LowerSlice(s: string, i: int, j: int)
    requires 0 <= i <= j <= |s|
    ensures Lower(s)[i..j] == Lower(s[i..j])
  {
  }

  /** `pat` occurs in `s` starting at position `i`. */
  predicate OccursAt(pat: string, s: string, i: int) {
    0 <= i && i + |pat| <= |s| && s[i..i + |pat|] == pat
  }

  /** Python's `pat in s`, scanning `s` from the left. */
  function Contains(s: string, pat: string): (r: bool)
    ensures r <==> exists i :: OccursAt(pat, s, i)
    decreases |s|
  {
    if |pat| <= |s| && s[..|pat|] == pat then
      assert OccursAt(pat, s, 0);
      true
    else if s == [] then
      false
    else
      ShiftOccurrence(pat, s);
      Contains(s[1..], pat)
  }

  /** An occurrence that is not at the front of `s` is an occurrence in `s[1..]`, and back. */
  lemma ShiftOccurrence(pat: string, s: string)
    requires s != [] && !(|pat| <= |s| && s[..|pat|] == pat)
    ensures (exists i :: OccursAt(pat, s, i)) <==> (exists i :: OccursAt(pat, s[1..], i))
  {
    if i :| OccursAt(pat, s, i) {
      assert i != 0;
      assert s[1..][i - 1..i - 1 + |pat|] == s[i..i + |pat|];
      assert OccursAt(pat, s[1..], i - 1);
    }
    if i :| OccursAt(pat, s[1..], i) {
      assert s[1..][i..i + |pat|] == s[i + 1..i + 1 + |pat|];
      assert OccursAt(pat, s, i + 1);
    }
  }

  /** Substring containment is transitive. */
  lemma ContainsTransitive(outer: string, mid: string, inner: string)
    requires Contains(outer, mid) && Contains(mid, inner)
    ensures Contains(outer, inner)
  {
    var i :| OccursAt(mid, outer, i);
    var j :| OccursAt(inner, mid, j);
    forall k | 0 <= k < |inner|
      ensures outer[i + j + k] == inner[k]
    {
      assert inner[k] == mid[j + k] == outer[i + j + k];
    }
    assert outer[i + j..i + j + |inner|] == inner;
    assert OccursAt(inner, outer, i + j);
  }

  /** Case folding preserves substring containment. */
  lemma ContainsLower(outer: string, inner: string)
    requires Contains(outer, inner)
    ensures Contains(Lower(outer), Lower(inner))
  {
    var i :| OccursAt(inner, outer, i);
    LowerSlice(outer, i, i + |inner|);
    assert OccursAt(Lower(inner), Lower(outer), i);
  }

  // ---------------------------------------------------------------------------
  // Splitting on whitespace and joining

  /** The longest prefix of `s` holding no whitespace. */
  function TakeWord(s: string): (w: string)
    ensures |w| <= |s| && w == s[..|w|]
    ensures NoSpace(w)
    ensures |w| < |s| ==> IsSpace(s[|w|])
    ensures |s| > 0 && !IsSpace(s[0]) ==> |w| > 0
  {
    if s == [] || IsSpace(s[0]) then [] else [s[0]] + TakeWord(s[1..])
  }

  predicate AreWords(ws: seq<string>) {
    forall i :: 0 <= i < |ws| ==> |ws[i]| > 0 && NoSpace(ws[i])
  }

  /** Python's `s.split()` with no separator: the maximal runs of non-whitespace. */
  function Words(s: string): (ws: seq<string>)
    ensures AreWords(ws)
    decreases |s|
  {
    if s == [] then []
    else if IsSpace(s[0]) then Words(s[1..])
    else
      var w := TakeWord(s);
      [w] + Words(s[|w|..])
  }

  /** Python's `sep.join(parts)`. */
  function Join(sep: string, parts: seq<string>): string
  {
    if parts == [] then ""
    else if |parts| == 1 then parts[0]
    else parts[0] + sep + Join(sep, parts[1..])
  }

  /** Python's `" ".join(s.split())`: whitespace runs become one space, the ends are trimmed. */
  function Collapse(s: string): string {
    Join(" ", Words(s))
  }

  /** No whitespace at either end, every whitespace character is a plain space,
      and no two whitespace characters are adjacent. */
  predicate IsNormalized(s: string) {
    forall i :: 0 <= i < |s| && IsSpace(s[i]) ==>
      s[i] == ' ' && 0 < i < |s| - 1 && !IsSpace(s[i + 1])
  }

  lemma {:induction false} JoinFirst(ws: seq<string>)
    requires AreWords(ws) && ws != []
    ensures |Join(" ", ws)| > 0 && Join(" ", ws)[0] == ws[0][0]
  {
  }

  lemma {:induction false} JoinWordsNormalized(ws: seq<string>)
    requires AreWords(ws)
    ensures IsNormalized(Join(" ", ws))
  {
    if |ws| > 1 {
      var rest := Join(" ", ws[1..]);
      JoinWordsNormalized(ws[1..]);
      JoinFirst(ws[1..]);
      var s := ws[0] + " " + rest;
      assert Join(" ", ws) == s;
      forall i | 0 <= i < |s| && IsSpace(s[i])
        ensures s[i] == ' ' && 0 < i < |s| - 1 && !IsSpace(s[i + 1])
      {
        if i > |ws[0]| {
          assert s[i] == rest[i - |ws[0]| - 1];
          assert s[i + 1] == rest[i - |ws[0]|];
        }
      }
    }
  }

  /** Every collapsed string is normalized. */
  lemma CollapseNormalized(s: string)
    ensures IsNormalized(Collapse(s))
  {
    JoinWordsNormalized(Words(s));
  }

  lemma TakeWordOf(w: string, rest: string)
    requires NoSpace(w) && (rest == [] || IsSpace(rest[0]))
    ensures TakeWord(w + rest) == w
  {
    var s := w + rest;
    var t := TakeWord(s);
    assert t == s[..|w|] == w;
  }

  /** Splitting a joined sequence of words gives the words back. */
  lemma {:induction false} WordsOfJoin(ws: seq<string>)
    requires AreWords(ws)
    ensures Words(Join(" ", ws)) == ws
  {
    if |ws| == 1 {
      TakeWordOf(ws[0], "");
      assert ws[0] + "" == ws[0];
      assert ws[0][|ws[0]|..] == "";
    } else if |ws| > 1 {
      var w := ws[0];
      var rest := Join(" ", ws[1..]);
      var s := w + (" " + rest);
      assert Join(" ", ws) == s;
      TakeWordOf(w, " " + rest);
      assert s[|w|..] == " " + rest;
      assert (" " + rest)[1..] == rest;
      WordsOfJoin(ws[1..]);
    }
  }

  /** `" ".join(s.split())` is idempotent. */
  lemma CollapseIdempotent(s: string)
    ensures Collapse(Collapse(s)) == Collapse(s)
  {
    WordsOfJoin(Words(s));
  }

  /** A string without whitespace (an ISO-8601 timestamp, say) is left unchanged. */
  lemma CollapseNoSpace(s: string)
    requires NoSpace(s)
    ensures Collapse(s) == s
  {
    if s != [] {
      TakeWordOf(s, "");
      assert s + "" == s;
      assert s[|s|..] == "";
      assert Words(s) == [s] + Words("");
    }
  }

  // ---------------------------------------------------------------------------
  // Stripping and replacing

  function StripLeft(s: string): (r: string)
    ensures r == [] || !IsSpace(r[0])
    ensures |r| <= |s| && r == s[|s| - |r|..]
  {
    if s != [] && IsSpace(s[0]) then StripLeft(s[1..]) else s
  }

  /** Only whitespace is cut from the front. */
  lemma {:induction false} StripLeftCutsSpace(s: string)
    ensures forall i :: 0 <= i < |s| - |StripLeft(s)| ==> IsSpace(s[i])
  {
    if s != [] && IsSpace(s[0]) {
      StripLeftCutsSpace(s[1..]);
      forall i | 1 <= i < |s| - |StripLeft(s)| ensures IsSpace(s[i]) {
        assert s[1..][i - 1] == s[i];
      }
    }
  }

  function StripRight(s: string): (r: string)
    ensures r == [] || !IsSpace(r[|r| - 1])
    ensures |r| <= |s| && r == s[..|r|]
  {
    if s != [] && IsSpace(s[|s| - 1]) then StripRight(s[..|s| - 1]) else s
  }

  /** Only whitespace is cut from the back. */
  lemma {:induction false} StripRightCutsSpace(s: string)
    ensures forall i :: |StripRight(s)| <= i < |s| ==> IsSpace(s[i])
  {
    if s != [] && IsSpace(s[|s| - 1]) {
      StripRightCutsSpace(s[..|s| - 1]);
      forall i | |StripRight(s)| <= i < |s| - 1 ensures IsSpace(s[i]) {
        assert s[..|s| - 1][i] == s[i];
      }
    }
  }

  /** A non-empty string with no whitespace at either end. */
  predicate Trimmed(s: string) {
    s != [] && !IsSpace(s[0]) && !IsSpace(s[|s| - 1])
  }

  /** Python's `s.strip()`: the whitespace at both ends removed. */
  function Strip(s: string): (r: string)
    ensures r == [] || Trimmed(r)
  {
    StripRight(StripLeft(s))
  }

  /** What `Strip` leaves is a middle slice of `s`, and everything cut from
      either end is whitespace. */
  lemma StripCutsOnlySpace(s: string)
    ensures exists a, b ::
      && 0 <= a <= b <= |s| && Strip(s) == s[a..b]
      && (forall i :: 0 <= i < a ==> IsSpace(s[i]))
      && (forall i :: b <= i < |s| ==> IsSpace(s[i]))
  {
    var left := StripLeft(s);
    var a := |s| - |left|;
    var r := StripRight(left);
    var b := a + |r|;
    StripLeftCutsSpace(s);
    StripRightCutsSpace(left);
    assert Strip(s) == s[a..b] by {
      assert left == s[a..];
      assert r == left[..|r|];
    }
    forall i | b <= i < |s| ensures IsSpace(s[i]) {
      assert s[i] == left[i - a];
    }
  }

  /** Python's `s.replace(pat, rep)`: every non-overlapping occurrence, left to right. */
  function Replace(s: string, pat: string, rep: string): string
    requires pat != []
    decreases |s|
  {
    if |s| < |pat| then s
    else if s[..|pat|] == pat then rep + Replace(s[|pat|..], pat, rep)
    else [s[0]] + Replace(s[1..], pat, rep)
  }

  /** Replacing every `c` by a string free of `c` leaves no `c`. */
  lemma {:induction false} ReplaceCharRemoves(s: string, c: char, rep: string)
    requires c !in rep
    ensures c !in Replace(s, [c], rep)
    decreases |s|
  {
    if |s| >= 1 {
      ReplaceCharRemoves(s[1..], c, rep);
      if s[..1] != [c] {
        assert s[0] != c;
      }
    }
  }
}
