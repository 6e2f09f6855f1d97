/**
 * The parts of java.lang.String and java.util.regex that the pipeline relies on:
 * `trim`, `isBlank`, `indexOf`, `compareTo`, `String.join`, and
 * `split("(?<=[.!?])\\s+")`, the sentence splitter shared by the producer and the worker.
 * A Java `char` is taken to be a Dafny `char`.
 */
module Strings {

  /** `Character.isWhitespace`: the characters `String.isBlank` tests for. */
  predicate IsJavaWhitespace(c: char)
  {
    var n := c as int;
    (0x09 <= n <= 0x0D) || (0x1C <= n <= 0x20) || n == 0x1680 ||
    (0x2000 <= n <= 0x2006) || (0x2008 <= n <= 0x200A) ||
    n == 0x2028 || n == 0x2029 || n == 0x205F || n == 0x3000
  }

  /** `\s` of a java.util.regex pattern compiled without UNICODE_CHARACTER_CLASS. */
  predicate IsRegexSpace(c: char)
  {
    c == ' ' || (0x09 <= c as int <= 0x0D)
  }

  /** `String.isBlank`: empty, or only white space. */
  predicate IsBlank(s: string)
  {
    forall i :: 0 <= i < |s| ==> IsJavaWhitespace(s[i])
  }

  /** How many characters up to U+0020 `s` begins with. */
  function Leading(s: string): (n: nat)
    ensures n <= |s|
  {
    if |s| > 0 && s[0] <= ' ' then 1 + Leading(s[1..]) else 0
  }

  /** How many characters up to U+0020 `s` ends with. */
  function Trailing(s: string): (n: nat)
    ensures n <= |s|
  {
    if |s| > 0 && s[|s| - 1] <= ' ' then 1 + Trailing(s[..|s| - 1]) else 0
  }

  /** The part of `s` left once `String.trim` has removed its leading characters. */
  function TrimStart(s: string): string
  {
    s[Leading(s)..]
  }

  /** The part of `s` left once `String.trim` has removed its trailing characters. */
  function TrimEnd(s: string): string
  {
    s[..|s| - Trailing(s)]
  }

  /** `String.trim`: the characters up to U+0020 removed from both ends. */
  function Trim(s: string): string
  {
    TrimEnd(TrimStart(s))
  }

  /** The characters `Leading` counts are up to U+0020 and the next one is above it. */
  lemma {:induction false} LeadingShape(s: string)
    ensures forall i :: 0 <= i < Leading(s) ==> s[i] <= ' '
    ensures Leading(s) < |s| ==> s[Leading(s)] > ' '
  {
    if |s| > 0 && s[0] <= ' ' {
      LeadingShape(s[1..]);
      forall i | 0 < i < Leading(s)
        ensures s[i] <= ' '
      {
        assert s[i] == s[1..][i - 1];
      }
    }
  }

  /** The characters `Trailing` counts are up to U+0020 and the one before is above it. */
  lemma {:induction false} TrailingShape(s: string)
    ensures forall i :: |s| - Trailing(s) <= i < |s| ==> s[i] <= ' '
    ensures Trailing(s) < |s| ==> s[|s| - Trailing(s) - 1] > ' '
  {
    if |s| > 0 && s[|s| - 1] <= ' ' {
      TrailingShape(s[..|s| - 1]);
      forall i | |s| - Trailing(s) <= i < |s| - 1
        ensures s[i] <= ' '
      {
        assert s[i] == s[..|s| - 1][i];
      }
    }
  }

  /** `String.trim` keeps a middle part of `s`, character for character. */
  lemma TrimKeepsMiddle(s: string)
    ensures var t, a := Trim(s), |s| - |TrimStart(s)|;
      0 <= a && a + |t| <= |s| && forall j :: 0 <= j < |t| ==> t[j] == s[a + j]
  {
  }

  /** What `String.trim` removes around that middle part is characters up to U+0020. */
  lemma TrimDropsControls(s: string)
    ensures var t, a := Trim(s), |s| - |TrimStart(s)|;
      (forall i :: 0 <= i < a ==> s[i] <= ' ') &&
      (forall i :: a + |t| <= i < |s| ==> s[i] <= ' ')
  {
    var u := TrimStart(s);
    var a := |s| - |u|;
    LeadingShape(s);
    TrailingShape(u);
    forall i | a + |Trim(s)| <= i < |s|
      ensures s[i] <= ' '
    {
      assert s[i] == u[i - a];
    }
  }

  /** A trimmed string is empty or begins and ends above U+0020. */
  lemma TrimEnds(s: string)
    ensures var t := Trim(s); |t| > 0 ==> t[0] > ' ' && t[|t| - 1] > ' '
  {
    var u := TrimStart(s);
    LeadingShape(s);
    TrailingShape(u);
  }

  /** Trimming twice is trimming once. */
  lemma TrimIdempotent(s: string)
    ensures Trim(Trim(s)) == Trim(s)
  {
    var t := Trim(s);
    TrimEnds(s);
    assert TrimStart(t) == t;
    assert TrimEnd(t) == t;
  }

  /**
   * `String.toLowerCase`, taken one `char` at a time through `lower`, the case mapping of the
   * locale in use.
   */
  function LowerCase(s: string, lower: char -> char): (r: string)
    ensures |r| == |s|
  {
    seq(|s|, i requires 0 <= i < |s| => lower(s[i]))
  }

  /** With an idempotent case mapping, a lowercased string is its own lowercase. */
  lemma LowerCaseIdempotent(s: string, lower: char -> char)
    requires forall c :: lower(lower(c)) == lower(c)
    ensures LowerCase(LowerCase(s, lower), lower) == LowerCase(s, lower)
  {
  }

  /** `String.indexOf(char)`: the first position of `c`, or -1. */
  function IndexOf(s: string, c: char): (i: int)
    ensures -1 <= i < |s|
    ensures i >= 0 ==> s[i] == c
    ensures forall j :: 0 <= j < |s| && (i < 0 || j < i) ==> s[j] != c
  {
    if |s| == 0 then -1
    else if s[0] == c then 0
    else var k := IndexOf(s[1..], c); if k < 0 then -1 else k + 1
  }

  /** `a.compareTo(b) < 0`: lexicographic order, a proper prefix first. */
  predicate StrLess(a: string, b: string)
  {
    if |a| == 0 then |b| > 0
    else if |b| == 0 then false
    else a[0] < b[0] || (a[0] == b[0] && StrLess(a[1..], b[1..]))
  }

  lemma {:induction false} StrLessIrreflexive(a: string)
    ensures !StrLess(a, a)
  {
    if |a| > 0 {
      StrLessIrreflexive(a[1..]);
    }
  }

  lemma {:induction false} StrLessTransitive(a: string, b: string, c: string)
    requires StrLess(a, b) && StrLess(b, c)
    ensures StrLess(a, c)
  {
    if |a| > 0 && |b| > 0 && |c| > 0 && a[0] == b[0] == c[0] {
      StrLessTransitive(a[1..], b[1..], c[1..]);
    }
  }

  /** Two different strings are ordered one way or the other. */
  lemma {:induction false} StrLessConnected(a: string, b: string)
    requires a != b
    ensures StrLess(a, b) || StrLess(b, a)
  {
    if |a| > 0 && |b| > 0 && a[0] == b[0] {
      assert a == [a[0]] + a[1..] && b == [b[0]] + b[1..];
      StrLessConnected(a[1..], b[1..]);
    }
  }

  lemma {:induction false} StrLessAsymmetric(a: string, b: string)
    requires StrLess(a, b)
    ensures !StrLess(b, a)
  {
    if |a| > 0 && |b| > 0 && a[0] == b[0] {
      StrLessAsymmetric(a[1..], b[1..]);
    }
  }

  /** `String.join(sep, ss)`. */
  function JoinWith(ss: seq<string>, sep: string): string
  {
    if |ss| == 0 then "" else if |ss| == 1 then ss[0] else ss[0] + sep + JoinWith(ss[1..], sep)
  }

  /** Joining two non-empty lists is joining each and putting one separator between. */
  lemma {:induction false} JoinAppend(a: seq<string>, b: seq<string>, sep: string)
    requires |a| > 0 && |b| > 0
    ensures JoinWith(a + b, sep) == JoinWith(a, sep) + sep + JoinWith(b, sep)
  {
    if |a| == 1 {
      assert (a + b)[1..] == b;
    } else {
      assert (a + b)[1..] == a[1..] + b;
      JoinAppend(a[1..], b, sep);
    }
  }

  /** A joined list of non-empty strings is non-empty. */
  lemma JoinNonEmpty(ss: seq<string>, sep: string)
    requires |ss| > 0 && forall i :: 0 <= i < |ss| ==> |ss[i]| > 0
    ensures |JoinWith(ss, sep)| > 0
  {
  }

  // ---------------------------------------------------------------------------------------
  // split("(?<=[.!?])\\s+")

  predicate IsTerminator(c: char)
  {
    c == '.' || c == '!' || c == '?'
  }

  /** The pattern matches at `i`: a terminator right before, white space at `i`. */
  predicate BreakAt(s: string, i: int)
  {
    1 <= i < |s| && IsTerminator(s[i - 1]) && IsRegexSpace(s[i])
  }

  /** The first match position at or after `from`, or |s| when there is none. */
  function FirstBreak(s: string, from: nat): (i: nat)
    requires from >= 1
    ensures i == |s| || (from <= i < |s| && BreakAt(s, i))
    ensures forall j :: from <= j < i ==> !BreakAt(s, j)
    decreases |s| - from
  {
    if from >= |s| then |s|
    else if BreakAt(s, from) then from
    else FirstBreak(s, from + 1)
  }

  /** Where the greedy `\s+` that starts at `i` stops. */
  function SpaceRunEnd(s: string, i: nat): (j: nat)
    requires i <= |s|
    ensures i <= j <= |s|
    ensures forall k :: i <= k < j ==> IsRegexSpace(s[k])
    ensures j == |s| || !IsRegexSpace(s[j])
    decreases |s| - i
  {
    if i < |s| && IsRegexSpace(s[i]) then SpaceRunEnd(s, i + 1) else i
  }

  /**
   * The pieces of `s` between matches, in order. Java then drops trailing empty pieces;
   * those are blank, and every user of the split drops blank pieces anyway.
   */
  function SplitPieces(s: string): seq<string>
    decreases |s|
  {
    var i := FirstBreak(s, 1);
    if i >= |s| then [s]
    else
      var j := SpaceRunEnd(s, i);
      [s[..i]] + SplitPieces(s[j..])
  }

  /** The white-space runs the pattern consumed, in order. */
  function SplitGaps(s: string): seq<string>
    decreases |s|
  {
    var i := FirstBreak(s, 1);
    if i >= |s| then []
    else
      var j := SpaceRunEnd(s, i);
      [s[i..j]] + SplitGaps(s[j..])
  }

  /** Pieces and gaps, alternately. */
  function Interleave(pieces: seq<string>, gaps: seq<string>): string
    requires |pieces| == |gaps| + 1
  {
    if |gaps| == 0 then pieces[0] else pieces[0] + gaps[0] + Interleave(pieces[1..], gaps[1..])
  }

  lemma InterleaveCons(p: string, g: string, ps: seq<string>, gs: seq<string>)
    requires |ps| == |gs| + 1
    ensures Interleave([p] + ps, [g] + gs) == p + g + Interleave(ps, gs)
  {
    assert ([p] + ps)[1..] == ps && ([g] + gs)[1..] == gs;
  }

  /** The three parts a match cuts `s` into. */
  lemma CutAt(s: string, i: int, j: int)
    requires 0 <= i <= j <= |s|
    ensures s[..i] + s[i..j] + s[j..] == s
  {
  }

  /** The split loses nothing: putting the consumed runs back between the pieces rebuilds `s`. */
  lemma {:induction false} SplitRoundTrip(s: string)
    ensures |SplitPieces(s)| == |SplitGaps(s)| + 1
    ensures Interleave(SplitPieces(s), SplitGaps(s)) == s
    decreases |s|
  {
    var i := FirstBreak(s, 1);
    if i < |s| {
      var j := SpaceRunEnd(s, i);
      var rest := s[j..];
      SplitRoundTrip(rest);
      InterleaveCons(s[..i], s[i..j], SplitPieces(rest), SplitGaps(rest));
      CutAt(s, i, j);
    }
  }

  /** Every consumed run is non-empty white space. */
  lemma {:induction false} SplitGapsAreSpace(s: string)
    ensures forall k :: 0 <= k < |SplitGaps(s)| ==>
      |SplitGaps(s)[k]| > 0 && forall c :: c in SplitGaps(s)[k] ==> IsRegexSpace(c)
    decreases |s|
  {
    var i := FirstBreak(s, 1);
    if i < |s| {
      var j := SpaceRunEnd(s, i);
      SplitGapsAreSpace(s[j..]);
      var gs := SplitGaps(s);
      assert gs[1..] == SplitGaps(s[j..]);
      forall k | 1 <= k < |gs|
        ensures gs[k] == SplitGaps(s[j..])[k - 1]
      {
      }
    }
  }

  /** The first piece is a prefix of the text. */
  lemma FirstPieceIsPrefix(s: string)
    ensures |SplitPieces(s)| > 0
    ensures var p := SplitPieces(s)[0]; |p| <= |s| && p == s[..|p|]
  {
  }

  /**
   * The `\s+` is greedy: a match consumes the whole white-space run, so no piece after a
   * match starts with white space.
   */
  lemma {:induction false} SplitGapsAreMaximal(s: string)
    ensures forall k :: 1 <= k < |SplitPieces(s)| ==>
      |SplitPieces(s)[k]| == 0 || !IsRegexSpace(SplitPieces(s)[k][0])
    decreases |s|
  {
    var i := FirstBreak(s, 1);
    var ps := SplitPieces(s);
    if i < |s| {
      var j := SpaceRunEnd(s, i);
      var rest := s[j..];
      SplitGapsAreMaximal(rest);
      FirstPieceIsPrefix(rest);
      var tail := SplitPieces(rest);
      assert ps == [s[..i]] + tail;
      forall k | 1 <= k < |ps|
        ensures |ps[k]| == 0 || !IsRegexSpace(ps[k][0])
      {
        assert ps[k] == tail[k - 1];
        if k == 1 && |ps[k]| > 0 {
          assert ps[k][0] == rest[0] == s[j];
        }
      }
    }
  }

  predicate EndsWithTerminator(p: string)
  {
    |p| > 0 && IsTerminator(p[|p| - 1])
  }

  /** Every piece but the last is non-empty and ends with a terminator. */
  lemma {:induction false} SplitPiecesEndWithTerminator(s: string)
    ensures forall k :: 0 <= k < |SplitPieces(s)| - 1 ==> EndsWithTerminator(SplitPieces(s)[k])
    decreases |s|
  {
    var i := FirstBreak(s, 1);
    var ps := SplitPieces(s);
    if i < |s| {
      var j := SpaceRunEnd(s, i);
      var rest := s[j..];
      SplitPiecesEndWithTerminator(rest);
      var tail := SplitPieces(rest);
      assert ps == [s[..i]] + tail;
      forall k | 0 <= k < |ps| - 1
        ensures EndsWithTerminator(ps[k])
      {
        if k == 0 {
          assert ps[0] == s[..i];
          assert s[..i][i - 1] == s[i - 1];
        } else {
          assert ps[k] == tail[k - 1];
        }
      }
    }
  }

  /** No piece contains a place where the pattern would match: the pieces are maximal. */
  lemma {:induction false} SplitPiecesHaveNoBreak(s: string)
    ensures forall k, m :: 0 <= k < |SplitPieces(s)| && 0 <= m < |SplitPieces(s)[k]| ==>
      !BreakAt(SplitPieces(s)[k], m)
    decreases |s|
  {
    var i := FirstBreak(s, 1);
    var ps := SplitPieces(s);
    if i < |s| {
      var j := SpaceRunEnd(s, i);
      var rest := s[j..];
      SplitPiecesHaveNoBreak(rest);
      assert ps == [s[..i]] + SplitPieces(rest);
      forall k, m | 0 <= k < |ps| && 0 <= m < |ps[k]|
        ensures !BreakAt(ps[k], m)
      {
        if k == 0 {
          assert ps[0] == s[..i];
          assert !BreakAt(s, m);
        } else {
          assert ps[k] == SplitPieces(rest)[k - 1];
        }
      }
    } else {
      assert ps == [s];
      forall k, m | 0 <= k < |ps| && 0 <= m < |ps[k]|
        ensures !BreakAt(ps[k], m)
      {
        assert !BreakAt(s, m);
      }
    }
  }

  /** The trimmed non-blank pieces, in order: the list both sentence splitters build. */
  function KeepNonBlank(pieces: seq<string>): seq<string>
  {
    if |pieces| == 0 then []
    else
      var last := pieces[|pieces| - 1];
      KeepNonBlank(pieces[..|pieces| - 1]) + (if IsBlank(last) then [] else [Trim(last)])
  }

  /** One more piece: kept trimmed, or dropped when blank. */
  lemma KeepNonBlankStep(ss: seq<string>, i: int)
    requires 0 <= i < |ss|
    ensures IsBlank(ss[i]) ==> KeepNonBlank(ss[..i + 1]) == KeepNonBlank(ss[..i])
    ensures !IsBlank(ss[i]) ==> KeepNonBlank(ss[..i + 1]) == KeepNonBlank(ss[..i]) + [Trim(ss[i])]
  {
    assert ss[..i + 1][..i] == ss[..i];
  }

  /** The sentences of a text as the producer and the worker split it. */
  function Sentences(text: string): seq<string>
  {
    KeepNonBlank(SplitPieces(text))
  }

  /** Every kept element is the trim of a non-blank piece, so it is itself trimmed. */
  lemma {:induction false} KeepNonBlankTrimmed(pieces: seq<string>)
    ensures forall k :: 0 <= k < |KeepNonBlank(pieces)| ==>
      Trim(KeepNonBlank(pieces)[k]) == KeepNonBlank(pieces)[k]
  {
    if |pieces| > 0 {
      var init := pieces[..|pieces| - 1];
      KeepNonBlankTrimmed(init);
      TrimIdempotent(pieces[|pieces| - 1]);
    }
  }

  /** Every string of `ss` that is not blank is still non-empty once trimmed. */
  predicate TrimKeepsNonBlank(ss: seq<string>)
  {
    forall k :: 0 <= k < |ss| ==> !IsBlank(ss[k]) ==> |Trim(ss[k])| > 0
  }

  /** The kept pieces are trimmed, so trimming a non-blank one again leaves it non-empty. */
  lemma KeepNonBlankKeepsNonBlank(pieces: seq<string>)
    ensures TrimKeepsNonBlank(KeepNonBlank(pieces))
  {
    var kept := KeepNonBlank(pieces);
    KeepNonBlankTrimmed(pieces);
    forall k | 0 <= k < |kept| && !IsBlank(kept[k])
      ensures |Trim(kept[k])| > 0
    {
      assert |kept[k]| > 0;
    }
  }

  /** Only blank pieces: nothing is kept. */
  lemma {:induction false} KeepNonBlankOfBlank(pieces: seq<string>)
    requires forall k :: 0 <= k < |pieces| ==> IsBlank(pieces[k])
    ensures KeepNonBlank(pieces) == []
  {
    if |pieces| > 0 {
      KeepNonBlankOfBlank(pieces[..|pieces| - 1]);
    }
  }

  /** A blank text is one piece: a terminator is not white space, so the pattern never matches. */
  lemma SplitOfBlank(s: string)
    requires IsBlank(s)
    ensures SplitPieces(s) == [s]
  {
    forall m | 1 <= m < |s|
      ensures !BreakAt(s, m)
    {
      assert IsJavaWhitespace(s[m - 1]);
    }
  }

  /** An empty or blank-only text has no sentences. */
  lemma BlankTextHasNoSentences(text: string)
    requires IsBlank(text)
    ensures Sentences(text) == []
  {
    SplitOfBlank(text);
    KeepNonBlankOfBlank(SplitPieces(text));
  }

}
