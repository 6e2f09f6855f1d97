/**
 * The producer's TextSplitter: the text is split into sentences, and consecutive non-blank
 * sentences are grouped, `sentencesPerSection` at a time, into sections whose sentences are
 * joined by one space.
 */
module TextSplitting {

  import opened Strings

  // ---------------------------------------------------------------------------------------
  // Specification

  /** The section size the loop produces: a `count >= k` test with `k <= 0` closes every section at one sentence. */
  function GroupSize(k: int): (g: int)
    ensures g >= 1
    ensures k >= 1 ==> g == k
  {
    if k >= 1 then k else 1
  }

  /** `ss` cut into consecutive groups of `g`; the last group holds what is left over. */
  function Chunks(ss: seq<string>, g: int): seq<seq<string>>
    requires g >= 1
    decreases |ss|
  {
    if |ss| == 0 then []
    else if |ss| <= g then [ss]
    else [ss[..g]] + Chunks(ss[g..], g)
  }

  /** Each group joined with a single space. */
  function JoinEach(cs: seq<seq<string>>): seq<string>
  {
    if |cs| == 0 then [] else [JoinWith(cs[0], " ")] + JoinEach(cs[1..])
  }

  /** The sentences the grouping loop uses: the non-blank ones, trimmed. */
  function Grouped(text: string): seq<string>
  {
    KeepNonBlank(Sentences(text))
  }

  /** The sections `splitIntoSections` returns for `text` with `sentencesPerSection == k`. */
  function SectionsOf(text: string, k: int): seq<string>
  {
    JoinEach(Chunks(Grouped(text), GroupSize(k)))
  }

  /** `ss` is made of whole groups of `g`. */
  predicate FullGroups(ss: seq<string>, g: int)
    requires g >= 1
    decreases |ss|
  {
    |ss| == 0 || (|ss| >= g && FullGroups(ss[g..], g))
  }

  // ---------------------------------------------------------------------------------------
  // Facts about groups

  lemma FullGroupsAppend(a: seq<string>, b: seq<string>, g: int)
    requires g >= 1 && FullGroups(a, g) && |b| == g
    ensures FullGroups(a + b, g)
    decreases |a|
  {
    if |a| > 0 {
      assert (a + b)[g..] == a[g..] + b;
      FullGroupsAppend(a[g..], b, g);
    } else {
      assert (a + b)[g..] == [];
    }
  }

  /** After whole groups, a group of at most `g` is a group of its own. */
  lemma {:induction false} ChunksAppend(a: seq<string>, b: seq<string>, g: int)
    requires g >= 1 && FullGroups(a, g) && 0 < |b| <= g
    ensures Chunks(a + b, g) == Chunks(a, g) + [b]
    decreases |a|
  {
    if |a| == 0 {
      assert a + b == b;
    } else {
      assert (a + b)[..g] == a[..g];
      assert (a + b)[g..] == a[g..] + b;
      ChunksAppend(a[g..], b, g);
      if |a| == g {
        assert a[g..] == [] && a[..g] == a;
      }
    }
  }

  lemma {:induction false} JoinEachAppend(cs: seq<seq<string>>, c: seq<string>)
    ensures JoinEach(cs + [c]) == JoinEach(cs) + [JoinWith(c, " ")]
  {
    if |cs| > 0 {
      assert (cs + [c])[1..] == cs[1..] + [c];
      JoinEachAppend(cs[1..], c);
    } else {
      assert cs + [c] == [c];
    }
  }

  /** The groups are non-empty and hold the elements of `ss` in order. */
  lemma {:induction false} ChunksShape(ss: seq<string>, g: int)
    requires g >= 1
    ensures var cs := Chunks(ss, g);
      (forall i :: 0 <= i < |cs| ==> |cs[i]| > 0) &&
      (|ss| == 0 <==> |cs| == 0)
    decreases |ss|
  {
    if |ss| > g {
      ChunksShape(ss[g..], g);
    }
  }

  /**
   * Every group but the last holds exactly `g` elements and the last one 1 to `g`, so
   * there are ceil(|ss| / g) groups.
   */
  lemma {:induction false} ChunkSizes(ss: seq<string>, g: int)
    requires g >= 1
    ensures var cs := Chunks(ss, g);
      (forall i :: 0 <= i < |cs| - 1 ==> |cs[i]| == g) &&
      (|cs| > 0 ==> 1 <= |cs[|cs| - 1]| <= g && |ss| == (|cs| - 1) * g + |cs[|cs| - 1]|)
    decreases |ss|
  {
    var cs := Chunks(ss, g);
    if |ss| > g {
      var rest := Chunks(ss[g..], g);
      ChunkSizes(ss[g..], g);
      assert cs == [ss[..g]] + rest;
      ChunksShape(ss[g..], g);
      forall i | 0 <= i < |cs| - 1
        ensures |cs[i]| == g
      {
        if i > 0 {
          assert cs[i] == rest[i - 1];
        }
      }
      assert cs[|cs| - 1] == rest[|rest| - 1];
      assert (|cs| - 1) * g == (|rest| - 1) * g + g;
    }
  }

  /** The number of groups is |ss| / g rounded up. */
  lemma ChunkCount(ss: seq<string>, g: int)
    requires g >= 1
    ensures |Chunks(ss, g)| == (|ss| + g - 1) / g
  {
    var cs := Chunks(ss, g);
    ChunkSizes(ss, g);
    ChunksShape(ss, g);
    if |cs| > 0 {
      var q, r := |cs| - 1, |cs[|cs| - 1]| - 1;
      assert |ss| + g - 1 == q * g + r + g == (q + 1) * g + r;
      DivOfQuotient(q + 1, r, g);
    }
  }

  lemma DivOfQuotient(q: int, r: int, g: int)
    requires g >= 1 && q >= 0 && 0 <= r < g
    ensures (q * g + r) / g == q
  {
    var n := q * g + r;
    var d, m := n / g, n % g;
    var e := q - d;
    assert e * g == q * g - d * g == m - r;
    if e >= 1 {
      MulAtLeast(e, g);
    } else if e <= -1 {
      MulAtLeast(-e, g);
    }
  }

  lemma MulAtLeast(e: int, g: int)
    requires e >= 1 && g >= 1
    ensures e * g >= g
  {
    assert e * g == (e - 1) * g + g;
    assert (e - 1) * g >= 0;
  }

  /** Joining the groups, each joined with a space, is joining everything with a space. */
  lemma {:induction false} JoinChunks(ss: seq<string>, g: int)
    requires g >= 1
    ensures JoinWith(JoinEach(Chunks(ss, g)), " ") == JoinWith(ss, " ")
    decreases |ss|
  {
    if |ss| > g {
      var head, tail := ss[..g], ss[g..];
      var rest := Chunks(tail, g);
      JoinChunks(tail, g);
      ChunksShape(tail, g);
      assert ss == head + tail;
      JoinAppend(head, tail, " ");
      assert JoinEach(Chunks(ss, g)) == [JoinWith(head, " ")] + JoinEach(rest);
      JoinAppend([JoinWith(head, " ")], JoinEach(rest), " ");
    } else if |ss| > 0 {
      assert JoinEach([ss]) == [JoinWith(ss, " ")];
    }
  }

  /** The sentences the loop groups are non-empty. */
  lemma GroupedNonEmpty(text: string)
    ensures forall i :: 0 <= i < |Grouped(text)| ==> |Grouped(text)[i]| > 0
  {
    KeepNonBlankKeepsNonBlank(SplitPieces(text));
    KeepNonBlankNonEmpty(Sentences(text));
  }

  /** When no non-blank string trims to nothing, every kept string is non-empty. */
  lemma {:induction false} KeepNonBlankNonEmpty(ss: seq<string>)
    requires TrimKeepsNonBlank(ss)
    ensures forall i :: 0 <= i < |KeepNonBlank(ss)| ==> |KeepNonBlank(ss)[i]| > 0
  {
    if |ss| > 0 {
      KeepNonBlankNonEmpty(ss[..|ss| - 1]);
    }
  }

  // ---------------------------------------------------------------------------------------
  // Properties of the sections

  /** Every section is non-empty. */
  lemma SectionsNonEmpty(text: string, k: int)
    ensures forall i :: 0 <= i < |SectionsOf(text, k)| ==> |SectionsOf(text, k)[i]| > 0
  {
    var g := GroupSize(k);
    GroupedNonEmpty(text);
    JoinEachNonEmpty(Grouped(text), g);
  }

  lemma {:induction false} JoinEachNonEmpty(ss: seq<string>, g: int)
    requires g >= 1 && forall i :: 0 <= i < |ss| ==> |ss[i]| > 0
    ensures forall i :: 0 <= i < |JoinEach(Chunks(ss, g))| ==> |JoinEach(Chunks(ss, g))[i]| > 0
    decreases |ss|
  {
    if |ss| > g {
      JoinEachNonEmpty(ss[g..], g);
      var rest := JoinEach(Chunks(ss[g..], g));
      assert JoinEach(Chunks(ss, g)) == [JoinWith(ss[..g], " ")] + rest;
      JoinNonEmpty(ss[..g], " ");
    } else if |ss| > 0 {
      JoinNonEmpty(ss, " ");
    }
  }

  /**
   * With `k >= 1` every section but the last groups exactly `k` sentences and the last one
   * 1 to `k`: there are ceil(m / k) sections for m sentences.
   */
  lemma SectionSizes(text: string, k: int)
    requires k >= 1
    ensures var cs := Chunks(Grouped(text), k);
      |SectionsOf(text, k)| == |cs| == (|Grouped(text)| + k - 1) / k &&
      (forall i :: 0 <= i < |cs| - 1 ==> |cs[i]| == k) &&
      (|cs| > 0 ==> 1 <= |cs[|cs| - 1]| <= k)
  {
    var ss := Grouped(text);
    ChunkSizes(ss, k);
    ChunkCount(ss, k);
    JoinEachLength(Chunks(ss, k));
  }

  lemma {:induction false} JoinEachLength(cs: seq<seq<string>>)
    ensures |JoinEach(cs)| == |cs|
  {
    if |cs| > 0 {
      JoinEachLength(cs[1..]);
    }
  }

  /** With `k <= 0` every sentence is a section of its own. */
  lemma OneSentencePerSection(text: string, k: int)
    requires k <= 0
    ensures SectionsOf(text, k) == Grouped(text)
  {
    SingletonChunks(Grouped(text));
  }

  lemma {:induction false} SingletonChunks(ss: seq<string>)
    ensures JoinEach(Chunks(ss, 1)) == ss
  {
    if |ss| > 1 {
      SingletonChunks(ss[1..]);
      assert ss == [ss[0]] + ss[1..];
      assert ss[..1] == [ss[0]];
    } else if |ss| == 1 {
      assert JoinEach([ss]) == [JoinWith(ss, " ")];
    }
  }

  /** Joining the sections with a space joins the sentences with a space: nothing is lost or moved. */
  lemma SectionsJoinToSentences(text: string, k: int)
    ensures JoinWith(SectionsOf(text, k), " ") == JoinWith(Grouped(text), " ")
  {
    JoinChunks(Grouped(text), GroupSize(k));
  }

  /** An empty or blank text has no sections. */
  lemma BlankTextHasNoSections(text: string, k: int)
    requires IsBlank(text)
    ensures SectionsOf(text, k) == []
  {
    BlankTextHasNoSentences(text);
  }

  // ---------------------------------------------------------------------------------------
  // The grouping loop, one sentence at a time

  /** The loop's variables: the sections closed so far, the StringBuilder and the counter. */
  datatype Grouping = Grouping(sections: seq<string>, current: string, count: int)

  /** One iteration of the loop over the sentences. */
  function Step(st: Grouping, sentence: string, k: int): Grouping
  {
    if IsBlank(sentence) then st
    else
      var current := (if |st.current| > 0 then st.current + " " else st.current) + Trim(sentence);
      if st.count + 1 >= k then Grouping(st.sections + [current], "", 0)
      else Grouping(st.sections, current, st.count + 1)
  }

  /** The loop's variables after the sentences `ss`. */
  function Run(ss: seq<string>, k: int): Grouping
  {
    if |ss| == 0 then Grouping([], "", 0) else Step(Run(ss[..|ss| - 1], k), ss[|ss| - 1], k)
  }

  /** The loop's variables after one more sentence. */
  lemma RunSnoc(ss: seq<string>, i: int, k: int)
    requires 0 <= i < |ss|
    ensures Run(ss[..i + 1], k) == Step(Run(ss[..i], k), ss[i], k)
  {
    assert ss[..i + 1][..i] == ss[..i];
  }

  /** The kept sentences so far, as the whole groups already closed and the open group. */
  datatype Parts = Parts(closed: seq<string>, open: seq<string>)

  /** How the loop's sentences fall into closed and open groups after `ss`. */
  ghost function PartsOf(ss: seq<string>, k: int): Parts
  {
    if |ss| == 0 then Parts([], [])
    else
      var p, s := PartsOf(ss[..|ss| - 1], k), ss[|ss| - 1];
      if IsBlank(s) then p
      else if |p.open| + 1 >= k then Parts(p.closed + (p.open + [Trim(s)]), [])
      else Parts(p.closed, p.open + [Trim(s)])
  }

  /** The loop's variables hold the closed groups, joined into sections, and the open group. */
  ghost predicate Holds(st: Grouping, p: Parts, g: int)
  {
    g >= 1 && FullGroups(p.closed, g) && st.sections == JoinEach(Chunks(p.closed, g)) &&
    st.current == JoinWith(p.open, " ") && st.count == |p.open| < g &&
    forall j :: 0 <= j < |p.open| ==> |p.open[j]| > 0
  }

  /**
   * The loop keeps its sentences in whole groups of `GroupSize(k)`, already joined into
   * sections, followed by one open group of fewer sentences joined in `current`.
   */
  lemma {:induction false} RunMeaning(ss: seq<string>, k: int)
    requires TrimKeepsNonBlank(ss)
    ensures Holds(Run(ss, k), PartsOf(ss, k), GroupSize(k))
    ensures PartsOf(ss, k).closed + PartsOf(ss, k).open == KeepNonBlank(ss)
  {
    if |ss| > 0 {
      var init, s := ss[..|ss| - 1], ss[|ss| - 1];
      RunMeaning(init, k);
      var p := PartsOf(init, k);
      if !IsBlank(s) {
        if |p.open| + 1 >= k {
          CloseFullGroup(Run(init, k), p, s, k);
        } else {
          ExtendGroup(Run(init, k), p, s, k);
        }
        AppendAssociative(p.closed, p.open, [Trim(s)]);
      }
    }
  }

  /** A sentence that fills the open group closes it. */
  lemma CloseFullGroup(st: Grouping, p: Parts, s: string, k: int)
    requires Holds(st, p, GroupSize(k)) && !IsBlank(s) && |Trim(s)| > 0 && st.count + 1 >= k
    ensures Holds(Step(st, s, k), Parts(p.closed + (p.open + [Trim(s)]), []), GroupSize(k))
  {
    var g := GroupSize(k);
    AppendSentence(p.open, Trim(s));
    CloseGroup(p.closed, p.open + [Trim(s)], g);
  }

  /** A sentence that does not fill the open group joins it. */
  lemma ExtendGroup(st: Grouping, p: Parts, s: string, k: int)
    requires Holds(st, p, GroupSize(k)) && !IsBlank(s) && |Trim(s)| > 0 && st.count + 1 < k
    ensures Holds(Step(st, s, k), Parts(p.closed, p.open + [Trim(s)]), GroupSize(k))
  {
    AppendSentence(p.open, Trim(s));
  }

  /** After the loop, adding the open group if it is non-empty gives the sections. */
  lemma RunClosed(ss: seq<string>, k: int)
    requires TrimKeepsNonBlank(ss)
    ensures var st := Run(ss, k);
      (if |st.current| > 0 then st.sections + [st.current] else st.sections) ==
      JoinEach(Chunks(KeepNonBlank(ss), GroupSize(k)))
  {
    RunMeaning(ss, k);
    var st, p, g := Run(ss, k), PartsOf(ss, k), GroupSize(k);
    if |st.current| > 0 {
      CloseGroup(p.closed, p.open, g);
    } else {
      LastGroupEmpty(p.open);
      assert p.closed + p.open == p.closed;
    }
  }

  lemma AppendAssociative(a: seq<string>, b: seq<string>, c: seq<string>)
    ensures (a + b) + c == a + (b + c)
  {
  }

  /** Appending a non-empty sentence to the group built so far puts a space before it unless the group is empty. */
  lemma AppendSentence(pending: seq<string>, s: string)
    requires |s| > 0 && forall j :: 0 <= j < |pending| ==> |pending[j]| > 0
    ensures var current := JoinWith(pending, " ");
      JoinWith(pending + [s], " ") == (if |current| > 0 then current + " " else current) + s
    ensures forall j :: 0 <= j < |pending + [s]| ==> |(pending + [s])[j]| > 0
  {
    if |pending| == 0 {
      assert pending + [s] == [s];
    } else {
      JoinNonEmpty(pending, " ");
      JoinAppend(pending, [s], " ");
    }
  }

  /** Closing a group after whole groups adds its joined text as one more section. */
  lemma CloseGroup(done: seq<string>, pending: seq<string>, g: int)
    requires g >= 1 && FullGroups(done, g) && 0 < |pending| <= g
    ensures JoinEach(Chunks(done + pending, g)) == JoinEach(Chunks(done, g)) + [JoinWith(pending, " ")]
    ensures |pending| == g ==> FullGroups(done + pending, g)
  {
    ChunksAppend(done, pending, g);
    JoinEachAppend(Chunks(done, g), pending);
    if |pending| == g {
      FullGroupsAppend(done, pending, g);
    }
  }

  /** An empty joined group of non-empty sentences holds no sentence. */
  lemma LastGroupEmpty(pending: seq<string>)
    requires forall j :: 0 <= j < |pending| ==> |pending[j]| > 0
    requires |JoinWith(pending, " ")| == 0
    ensures pending == []
  {
    if |pending| > 0 {
      JoinNonEmpty(pending, " ");
    }
  }

  // ---------------------------------------------------------------------------------------
  // The splitter

  class TextSplitter {

    const sentencesPerSection: int

    constructor (sentencesPerSection: int)
      ensures this.sentencesPerSection == sentencesPerSection
    {
      this.sentencesPerSection := sentencesPerSection;
    }

    /** `splitIntoSections`. */
    method SplitIntoSections(text: string) returns (sections: seq<string>)
      ensures sections == SectionsOf(text, sentencesPerSection)
    {
      var sentences := SplitIntoSentences(text);
      sections := [];
      var current := "";
      var count := 0;
      for i := 0 to |sentences|
        invariant Grouping(sections, current, count) == Run(sentences[..i], sentencesPerSection)
      {
        var sentence := sentences[i];
        RunSnoc(sentences, i, sentencesPerSection);
        if !IsBlank(sentence) {
          if |current| > 0 {
            current := current + " ";
          }
          current := current + Trim(sentence);
          count := count + 1;
          if count >= sentencesPerSection {
            sections := sections + [current];
            current := "";
            count := 0;
          }
        }
      }
      assert sentences[..|sentences|] == sentences;
      if |current| > 0 {
        sections := sections + [current];
      }
      KeepNonBlankKeepsNonBlank(SplitPieces(text));
      RunClosed(sentences, sentencesPerSection);
    }

    /** `splitIntoSentences`: the trimmed non-blank pieces of the split. */
    method SplitIntoSentences(text: string) returns (sentences: seq<string>)
      ensures sentences == Sentences(text)
    {
      var raw := SplitPieces(text);
      sentences := [];
      for i := 0 to |raw|
        invariant sentences == KeepNonBlank(raw[..i])
      {
        KeepNonBlankStep(raw, i);
        if !IsBlank(raw[i]) {
          sentences := sentences + [Trim(raw[i])];
        }
      }
      assert raw[..|raw|] == raw;
    }
  }

}
