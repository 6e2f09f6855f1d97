/**
 * The aggregator's per-job accumulator: it merges the results of the sections of one job,
 * once per section id, keeps running totals and builds the job's report.
 */
module JobAggregates {

  import opened Wrappers
  import opened Messages
  import opened Strings
  import opened Summation
  import opened Ranking
  import opened SentenceSort

  // ---------------------------------------------------------------------------------------
  // Word-frequency maps

  /** The count of `w` in `m`; an absent word counts 0. */
  function Get(m: map<string, int>, w: string): int
  {
    if w in m then m[w] else 0
  }

  /** The map `a` becomes after `a.merge(w, b[w], Long::sum)` for every entry of `b`. */
  function Merge(a: map<string, int>, b: map<string, int>): map<string, int>
  {
    map w | w in a.Keys + b.Keys :: Get(a, w) + Get(b, w)
  }

  lemma MergeCommutative(a: map<string, int>, b: map<string, int>)
    ensures Merge(a, b) == Merge(b, a)
  {
    assert a.Keys + b.Keys == b.Keys + a.Keys;
  }

  lemma MergeAssociative(a: map<string, int>, b: map<string, int>, c: map<string, int>)
    ensures Merge(Merge(a, b), c) == Merge(a, Merge(b, c))
  {
    var l, r := Merge(Merge(a, b), c), Merge(a, Merge(b, c));
    assert l.Keys == r.Keys;
    forall w | w in l
      ensures l[w] == r[w]
    {
      assert Get(Merge(a, b), w) == Get(a, w) + Get(b, w);
      assert Get(Merge(b, c), w) == Get(b, w) + Get(c, w);
    }
  }

  lemma MergeEmpty(a: map<string, int>)
    ensures Merge(a, map[]) == a
  {
  }

  /** Merging the frequency maps of two sections in either order gives the same map. */
  lemma MergeOrderIrrelevant(g: map<string, int>, a: map<string, int>, b: map<string, int>)
    ensures Merge(Merge(g, a), b) == Merge(Merge(g, b), a)
  {
    MergeAssociative(g, a, b);
    MergeAssociative(g, b, a);
    MergeCommutative(a, b);
  }

  /** One `merge(w, v, Long::sum)` step, for a word `b` does not hold yet. */
  lemma MergeStep(a: map<string, int>, b: map<string, int>, w: string, v: int)
    requires w !in b
    ensures Merge(a, b[w := v]) ==
      Merge(a, b)[w := if w in Merge(a, b) then Merge(a, b)[w] + v else v]
  {
    var l := Merge(a, b[w := v]);
    var r := Merge(a, b)[w := if w in Merge(a, b) then Merge(a, b)[w] + v else v];
    assert l.Keys == r.Keys;
    forall x | x in l
      ensures l[x] == r[x]
    {
    }
  }

  /** The entries of `local` already merged while the keys in `rest` are still to come. */
  function Taken(local: map<string, int>, rest: set<string>): map<string, int>
  {
    map w | w in local && w !in rest :: local[w]
  }

  lemma TakenNone(local: map<string, int>)
    ensures Taken(local, local.Keys) == map[]
  {
  }

  lemma TakenStep(local: map<string, int>, rest: set<string>, w: string)
    requires w in rest && rest <= local.Keys
    ensures w !in Taken(local, rest)
    ensures Taken(local, rest - {w}) == Taken(local, rest)[w := local[w]]
  {
  }

  lemma TakenAll(local: map<string, int>)
    ensures Taken(local, {}) == local
  {
  }

  // ---------------------------------------------------------------------------------------
  // What the totals are sums of

  function WordCountOf(r: ResultMessage): int
  {
    r.wordCount
  }

  /** A section's weighted sentiment, `sentimentScore * wordCount`. */
  function NetOf(r: ResultMessage): real
  {
    r.sentimentScore * r.wordCount as real
  }

  function FreqOf(w: string): ResultMessage -> int
  {
    (r: ResultMessage) => Get(r.wordFreq, w)
  }

  /** The word count of all stored sections. */
  ghost function WordTotal(sections: map<int, ResultMessage>): int
  {
    SumBy(sections, WordCountOf)
  }

  /** The weighted sentiment of all stored sections. */
  ghost function NetSentiment(sections: map<int, ResultMessage>): real
  {
    SumByReal(sections, NetOf)
  }

  /** Every word some stored section counts. */
  ghost function AllWords(sections: map<int, ResultMessage>): set<string>
  {
    set k, w | k in sections && w in sections[k].wordFreq :: w
  }

  /** The count of `w` over all stored sections. */
  ghost function FreqAt(sections: map<int, ResultMessage>, w: string): int
  {
    SumBy(sections, FreqOf(w))
  }

  /** The pointwise sum of the stored sections' frequency maps. */
  ghost function MergedFreq(sections: map<int, ResultMessage>): map<string, int>
  {
    map w | w in AllWords(sections) :: FreqAt(sections, w)
  }

  lemma FreqAtOutside(sections: map<int, ResultMessage>, w: string)
    requires w !in AllWords(sections)
    ensures FreqAt(sections, w) == 0
  {
    forall k | k in sections
      ensures FreqOf(w)(sections[k]) == 0
    {
      assert w !in sections[k].wordFreq;
    }
    SumByZero(sections, FreqOf(w));
  }

  lemma AllWordsInsert(sections: map<int, ResultMessage>, id: int, r: ResultMessage)
    requires id !in sections
    ensures AllWords(sections[id := r]) == AllWords(sections) + r.wordFreq.Keys
  {
    var s' := sections[id := r];
    forall w | w in AllWords(s')
      ensures w in AllWords(sections) + r.wordFreq.Keys
    {
      var k :| k in s' && w in s'[k].wordFreq;
      if k != id {
        assert w in AllWords(sections);
      }
    }
    forall w | w in r.wordFreq
      ensures w in AllWords(s')
    {
      assert id in s' && w in s'[id].wordFreq;
    }
    forall w | w in AllWords(sections)
      ensures w in AllWords(s')
    {
      var k :| k in sections && w in sections[k].wordFreq;
      assert k in s' && s'[k] == sections[k];
    }
  }

  /** The merged map holds each word some section counts, with its total count. */
  lemma MergedFreqEntry(sections: map<int, ResultMessage>, w: string)
    ensures w in MergedFreq(sections) <==> w in AllWords(sections)
    ensures Get(MergedFreq(sections), w) == FreqAt(sections, w)
  {
    if w !in AllWords(sections) {
      FreqAtOutside(sections, w);
    }
  }

  /** Frequency maps that agree on every count and hold the same words are equal. */
  lemma GetExtensional(a: map<string, int>, b: map<string, int>)
    requires forall w :: (w in a <==> w in b) && Get(a, w) == Get(b, w)
    ensures a == b
  {
    assert a.Keys == b.Keys;
    forall w | w in a
      ensures a[w] == b[w]
    {
      assert Get(a, w) == Get(b, w);
    }
  }

  lemma MergedFreqInsertAt(sections: map<int, ResultMessage>, id: int, r: ResultMessage, w: string)
    requires id !in sections
    ensures var l, m := MergedFreq(sections[id := r]), Merge(MergedFreq(sections), r.wordFreq);
      (w in l <==> w in m) && Get(l, w) == Get(m, w)
  {
    AllWordsInsert(sections, id, r);
    MergedFreqEntry(sections[id := r], w);
    MergedFreqEntry(sections, w);
    SumByInsert(sections, id, r, FreqOf(w));
  }

  /** Storing a new section adds its frequency map to the merged one. */
  lemma MergedFreqInsert(sections: map<int, ResultMessage>, id: int, r: ResultMessage)
    requires id !in sections
    ensures MergedFreq(sections[id := r]) == Merge(MergedFreq(sections), r.wordFreq)
  {
    var l, m := MergedFreq(sections[id := r]), Merge(MergedFreq(sections), r.wordFreq);
    forall w
      ensures (w in l <==> w in m) && Get(l, w) == Get(m, w)
    {
      MergedFreqInsertAt(sections, id, r, w);
    }
    GetExtensional(l, m);
  }

  /** Storing a section with a new id adds its terms to every total. */
  lemma StoreSection(sections: map<int, ResultMessage>, r: ResultMessage)
    requires r.sectionId !in sections
    ensures WordTotal(sections[r.sectionId := r]) == WordTotal(sections) + r.wordCount
    ensures NetSentiment(sections[r.sectionId := r]) == NetSentiment(sections) + NetOf(r)
    ensures MergedFreq(sections[r.sectionId := r]) == Merge(MergedFreq(sections), r.wordFreq)
  {
    WordTotalInsert(sections, r);
    NetSentimentInsert(sections, r);
    MergedFreqInsert(sections, r.sectionId, r);
  }

  lemma WordTotalInsert(sections: map<int, ResultMessage>, r: ResultMessage)
    requires r.sectionId !in sections
    ensures WordTotal(sections[r.sectionId := r]) == WordTotal(sections) + r.wordCount
  {
    SumByInsert(sections, r.sectionId, r, WordCountOf);
  }

  lemma NetSentimentInsert(sections: map<int, ResultMessage>, r: ResultMessage)
    requires r.sectionId !in sections
    ensures NetSentiment(sections[r.sectionId := r]) == NetSentiment(sections) + NetOf(r)
  {
    SumByRealInsert(sections, r.sectionId, r, NetOf);
  }

  /** The empty accumulator: no words, no totals. */
  lemma EmptyTotals()
    ensures WordTotal(map[]) == 0 && NetSentiment(map[]) == 0.0 && MergedFreq(map[]) == map[]
  {
    assert AllWords(map[]) == {};
  }

  // ---------------------------------------------------------------------------------------
  // Completion

  /** `isComplete`: at least the expected number of distinct section ids is stored. */
  predicate Complete(sections: map<int, ResultMessage>, expected: int)
  {
    |sections| >= expected
  }

  /** The ids 0..n-1. */
  function Range(n: int): (r: set<int>)
    ensures forall i :: i in r <==> 0 <= i < n
    ensures n >= 0 ==> |r| == n
    decreases n
  {
    if n <= 0 then {} else Range(n - 1) + {n - 1}
  }

  lemma SubsetSize(a: set<int>, b: set<int>)
    requires a <= b
    ensures |a| <= |b|
    ensures |a| == |b| ==> a == b
  {
    assert b == a + (b - a);
    if |a| == |b| {
      assert |b - a| == 0;
    }
  }

  /**
   * When the section ids are the producer's numbering 0..expected-1, the job is complete
   * exactly when every section has been received.
   */
  lemma CompleteIffAllReceived(sections: map<int, ResultMessage>, expected: int)
    requires forall k :: k in sections ==> 0 <= k < expected
    ensures Complete(sections, expected) <==> forall i :: 0 <= i < expected ==> i in sections
  {
    if expected > 0 {
      assert sections.Keys <= Range(expected);
      SubsetSize(sections.Keys, Range(expected));
      if forall i :: 0 <= i < expected ==> i in sections {
        assert sections.Keys == Range(expected);
      }
    }
  }

  // ---------------------------------------------------------------------------------------
  // Section order

  predicate IsLeast(s: set<int>, m: int)
  {
    m in s && forall x :: x in s ==> m <= x
  }

  /** Some element of a non-empty set. */
  ghost function PickId(s: set<int>): (x: int)
    requires |s| > 0
    ensures x in s
  {
    HasId(s);
    var x :| x in s; x
  }

  lemma HasId(s: set<int>)
    requires |s| > 0
    ensures exists x :: x in s
  {
    if forall x :: x !in s {
      assert false;
    }
  }

  lemma {:induction false} LeastExists(s: set<int>)
    requires |s| > 0
    ensures exists m :: IsLeast(s, m)
    decreases |s|
  {
    var x := PickId(s);
    if |s - {x}| > 0 {
      LeastExists(s - {x});
      var m :| IsLeast(s - {x}, m);
      forall y | y in s && y != x
        ensures m <= y
      {
        assert y in s - {x};
      }
      if x < m {
        assert IsLeast(s, x);
      } else {
        assert IsLeast(s, m);
      }
    } else {
      assert s == {x};
      assert IsLeast(s, x);
    }
  }

  /** The ids of `s` in ascending order. */
  function SortedIds(s: set<int>): (r: seq<int>)
    ensures |r| == |s|
    ensures forall i :: 0 <= i < |r| ==> r[i] in s
    ensures forall x :: x in s ==> x in r
    ensures forall i, j :: 0 <= i < j < |r| ==> r[i] < r[j]
    decreases |s|
  {
    if |s| == 0 then []
    else
      LeastExists(s);
      var m :| IsLeast(s, m);
      [m] + SortedIds(s - {m})
  }

  /** The stored sections sorted by section id. */
  function InOrder(sections: map<int, ResultMessage>): seq<ResultMessage>
  {
    var ids := SortedIds(sections.Keys);
    seq(|ids|, i requires 0 <= i < |ids| => sections[ids[i]])
  }

  /** Every stored section appears once, in ascending `sectionId` order. */
  lemma InOrderSorted(sections: map<int, ResultMessage>)
    requires forall k :: k in sections ==> sections[k].sectionId == k
    ensures |InOrder(sections)| == |sections|
    ensures forall i, j :: 0 <= i < j < |InOrder(sections)| ==>
      InOrder(sections)[i].sectionId < InOrder(sections)[j].sectionId
    ensures forall i :: 0 <= i < |InOrder(sections)| ==> InOrder(sections)[i] in sections.Values
    ensures forall k :: k in sections ==> sections[k] in InOrder(sections)
  {
    var ids := SortedIds(sections.Keys);
    var rs := InOrder(sections);
    forall k | k in sections
      ensures sections[k] in rs
    {
      var i :| 0 <= i < |ids| && ids[i] == k;
      assert rs[i] == sections[k];
    }
  }

  // ---------------------------------------------------------------------------------------
  // The report

  function Texts(rs: seq<ResultMessage>): seq<string>
  {
    seq(|rs|, i requires 0 <= i < |rs| => rs[i].anonymizedText)
  }

  /** The sections' sentence lists, concatenated in order (`allSentences.addAll`). */
  function ConcatSentences(rs: seq<ResultMessage>): seq<string>
  {
    if |rs| == 0 then [] else ConcatSentences(rs[..|rs| - 1]) + rs[|rs| - 1].sortedSentences
  }

  /** One step of the StringBuilder: "\n\n" goes in only after something non-empty. */
  function Glue(acc: string, t: string): string
  {
    if |acc| > 0 then acc + "\n\n" + t else t
  }

  /** The two appends of the loop body are one Glue. */
  lemma GlueStep(acc: string, t: string)
    ensures (if |acc| > 0 then acc + "\n\n" else acc) + t == Glue(acc, t)
  {
    if |acc| == 0 {
      assert acc + t == t;
    }
  }

  /** The anonymized text of the report, built text by text. */
  function JoinSections(texts: seq<string>): string
  {
    if |texts| == 0 then "" else Glue(JoinSections(texts[..|texts| - 1]), texts[|texts| - 1])
  }

  function DropLeadingEmpty(texts: seq<string>): (r: seq<string>)
    ensures |r| > 0 ==> r[0] != ""
  {
    if |texts| == 0 then [] else if texts[0] == "" then DropLeadingEmpty(texts[1..]) else texts
  }

  lemma {:induction false} DropLeadingEmptyAppend(a: seq<string>, t: string)
    ensures DropLeadingEmpty(a + [t]) ==
      if DropLeadingEmpty(a) == [] then (if t == "" then [] else [t]) else DropLeadingEmpty(a) + [t]
  {
    if |a| > 0 {
      assert (a + [t])[1..] == a[1..] + [t];
      if a[0] == "" {
        DropLeadingEmptyAppend(a[1..], t);
      }
    } else {
      assert a + [t] == [t];
      assert [t][1..] == [];
    }
  }

  /**
   * The StringBuilder loop is `String.join("\n\n", …)` of the texts, except that empty texts
   * before the first non-empty one leave no separator behind.
   */
  lemma {:induction false} JoinSectionsIsJoin(texts: seq<string>)
    ensures JoinSections(texts) == JoinWith(DropLeadingEmpty(texts), "\n\n")
  {
    if |texts| > 0 {
      var init, t := texts[..|texts| - 1], texts[|texts| - 1];
      JoinSectionsIsJoin(init);
      assert texts == init + [t];
      DropLeadingEmptyAppend(init, t);
      var d := DropLeadingEmpty(init);
      if d != [] {
        assert |JoinWith(d, "\n\n")| >= |d[0]| > 0;
        JoinAppend(d, [t], "\n\n");
      }
    }
  }

  /** One more section in the loop: one more text glued on, one more sentence list appended. */
  lemma ReportStep(rs: seq<ResultMessage>, i: int)
    requires 0 <= i < |rs|
    ensures JoinSections(Texts(rs[..i + 1])) == Glue(JoinSections(Texts(rs[..i])), rs[i].anonymizedText)
    ensures ConcatSentences(rs[..i + 1]) == ConcatSentences(rs[..i]) + rs[i].sortedSentences
  {
    var ts := Texts(rs[..i + 1]);
    assert ts[..i] == Texts(rs[..i]);
    assert rs[..i + 1][..i] == rs[..i];
  }

  /** `totalWordCount == 0 ? 0.0 : sentimentNetSum / totalWordCount`. */
  function AverageSentiment(total: int, net: real): (a: real)
    ensures total == 0 ==> a == 0.0
    ensures total > 0 && -(total as real) <= net <= total as real ==> -1.0 <= a <= 1.0
  {
    if total == 0 then 0.0 else net / total as real
  }

  function WordCountReal(r: ResultMessage): real
  {
    r.wordCount as real
  }

  function NegWordCountReal(r: ResultMessage): real
  {
    -(r.wordCount as real)
  }

  /**
   * When every section's score lies in [-1, 1] and its word count is not negative (as the
   * worker produces them), the weighted sentiment lies between minus and plus the word total,
   * so the average lies in [-1, 1].
   */
  lemma NetSentimentBounded(sections: map<int, ResultMessage>)
    requires forall k :: k in sections ==>
      -1.0 <= sections[k].sentimentScore <= 1.0 && sections[k].wordCount >= 0
    ensures -(WordTotal(sections) as real) <= NetSentiment(sections) <= WordTotal(sections) as real
  {
    forall k | k in sections
      ensures NegWordCountReal(sections[k]) <= NetOf(sections[k]) <= WordCountReal(sections[k])
    {
      var s, c := sections[k].sentimentScore, sections[k].wordCount as real;
      assert s * c <= 1.0 * c && -1.0 * c <= s * c;
    }
    SumByRealMonotone(sections, NetOf, WordCountReal);
    SumByRealMonotone(sections, NegWordCountReal, NetOf);
    SumByRealOfInt(sections, WordCountOf, WordCountReal);
    SumByRealNegate(sections, WordCountReal, NegWordCountReal);
  }

  /** The stored sections after `sections.putIfAbsent(r.sectionId, r)`. */
  function Stored(sections: map<int, ResultMessage>, r: ResultMessage): map<int, ResultMessage>
  {
    if r.sectionId in sections then sections else sections[r.sectionId := r]
  }

  /**
   * The report `toAggregatedResult(topN)` builds for a job whose stored sections are
   * `sections`; `None` when `Stream.limit` throws for a negative `topN`.
   */
  ghost function ReportOf(jobId: string, expected: int, sections: map<int, ResultMessage>,
                          topN: int): Option<AggregatedJobResult>
  {
    if topN < 0 then None
    else
      var rs := InOrder(sections);
      Some(AggregatedJobResult(
        jobId,
        expected,
        WordTotal(sections),
        TopN(MergedFreq(sections), topN).value,
        AverageSentiment(WordTotal(sections), NetSentiment(sections)),
        JoinSections(Texts(rs)),
        SortByLength(ConcatSentences(rs))))
  }

  /**
   * What the report promises: the first-N ranking of the merged frequencies, the guarded
   * average, the texts joined in section order, and the concatenated sentence lists sorted
   * stably by length.
   */
  lemma ReportOfProperties(jobId: string, expected: int, sections: map<int, ResultMessage>,
                           topN: int)
    ensures ReportOf(jobId, expected, sections, topN).None? <==> topN < 0
    ensures var r := ReportOf(jobId, expected, sections, topN);
      r.Some? ==>
        var v, freq, all := r.value, MergedFreq(sections), ConcatSentences(InOrder(sections));
        v.jobId == jobId && v.totalSections == expected &&
        v.totalWordCount == WordTotal(sections) &&
        |v.topWords| == Min(topN, |freq|) &&
        StrictlyRanked(v.topWords) && EntriesOf(v.topWords, freq) &&
        (WordTotal(sections) == 0 ==> v.averageSentiment == 0.0) &&
        (WordTotal(sections) != 0 ==>
          v.averageSentiment == NetSentiment(sections) / WordTotal(sections) as real) &&
        v.anonymizedText == JoinWith(DropLeadingEmpty(Texts(InOrder(sections))), "\n\n") &&
        SortedByLength(v.sortedSentences) && multiset(v.sortedSentences) == multiset(all) &&
        forall n :: OfLength(v.sortedSentences, n) == OfLength(all, n)
  {
    if topN >= 0 {
      var all := ConcatSentences(InOrder(sections));
      JoinSectionsIsJoin(Texts(InOrder(sections)));
      SortByLengthSorted(all);
      forall n
        ensures OfLength(SortByLength(all), n) == OfLength(all, n)
      {
        SortByLengthStable(all, n);
      }
    }
  }

  // ---------------------------------------------------------------------------------------
  // The accumulator

  class JobAggregate {

    const jobId: string
    const expectedSections: int

    var sections: map<int, ResultMessage>
    var globalFreq: map<string, int>
    var totalWordCount: int
    var sentimentNetSum: real

    /** Each section is stored under its own id, and the totals are the sums over them. */
    ghost predicate Valid()
      reads this
    {
      (forall k :: k in sections ==> sections[k].sectionId == k) &&
      totalWordCount == WordTotal(sections) &&
      sentimentNetSum == NetSentiment(sections) &&
      globalFreq == MergedFreq(sections)
    }

    constructor (jobId: string, expectedSections: int)
      ensures Valid()
      ensures this.jobId == jobId && this.expectedSections == expectedSections
      ensures sections == map[] && globalFreq == map[]
      ensures totalWordCount == 0 && sentimentNetSum == 0.0
    {
      this.jobId := jobId;
      this.expectedSections := expectedSections;
      sections := map[];
      globalFreq := map[];
      totalWordCount := 0;
      sentimentNetSum := 0.0;
      EmptyTotals();
    }

    /** `addSectionResult`: a section id seen before changes nothing. */
    method AddSectionResult(result: ResultMessage)
      requires Valid()
      modifies this
      ensures Valid()
      ensures sections == Stored(old(sections), result)
      ensures old(result.sectionId in sections) ==>
        globalFreq == old(globalFreq) &&
        totalWordCount == old(totalWordCount) && sentimentNetSum == old(sentimentNetSum)
      ensures old(result.sectionId !in sections) ==>
        totalWordCount == old(totalWordCount) + result.wordCount &&
        globalFreq == Merge(old(globalFreq), result.wordFreq) &&
        sentimentNetSum == old(sentimentNetSum) + NetOf(result)
    {
      if result.sectionId !in sections {
        ghost var before := sections;
        sections := sections[result.sectionId := result];
        totalWordCount := totalWordCount + result.wordCount;
        MergeFreq(result.wordFreq);
        sentimentNetSum := sentimentNetSum + NetOf(result);
        StoreSection(before, result);
      }
    }

    /** `mergeFreq`: `globalFreq.merge(word, count, Long::sum)` for every entry of `local`. */
    method MergeFreq(local: map<string, int>)
      modifies this
      ensures globalFreq == Merge(old(globalFreq), local)
      ensures sections == old(sections) && totalWordCount == old(totalWordCount)
      ensures sentimentNetSum == old(sentimentNetSum)
    {
      ghost var start := globalFreq;
      var rest := local.Keys;
      TakenNone(local);
      MergeEmpty(start);
      while rest != {}
        invariant rest <= local.Keys
        invariant globalFreq == Merge(start, Taken(local, rest))
        invariant sections == old(sections) && totalWordCount == old(totalWordCount)
        invariant sentimentNetSum == old(sentimentNetSum)
        decreases |rest|
      {
        HasElement(rest);
        var w :| w in rest;
        TakenStep(local, rest, w);
        MergeStep(start, Taken(local, rest), w, local[w]);
        globalFreq := globalFreq[w := if w in globalFreq then globalFreq[w] + local[w] else local[w]];
        rest := rest - {w};
      }
      TakenAll(local);
    }

    /** `isComplete`. */
    predicate IsComplete()
      reads this
    {
      Complete(sections, expectedSections)
    }

    /**
     * `toAggregatedResult(topN)`: the report of the sections stored so far. `None` is the
     * IllegalArgumentException `Stream.limit` throws for a negative `topN`.
     */
    method ToAggregatedResult(topN: int) returns (r: Option<AggregatedJobResult>)
      requires Valid()
      ensures r == ReportOf(jobId, expectedSections, sections, topN)
    {
      var top := TopN(globalFreq, topN);
      if top.None? {
        return None;
      }
      var avg := AverageSentiment(totalWordCount, sentimentNetSum);
      var anonymized, allSentences := CollectInOrder();
      allSentences := SortByLength(allSentences);
      r := Some(AggregatedJobResult(jobId, expectedSections, totalWordCount, top.value, avg,
                                    anonymized, allSentences));
    }

    /**
     * The `forEach` over the sections sorted by id: the texts glued into one StringBuilder
     * and the sentence lists appended to one list.
     */
    method CollectInOrder() returns (anonymized: string, allSentences: seq<string>)
      ensures anonymized == JoinSections(Texts(InOrder(sections)))
      ensures allSentences == ConcatSentences(InOrder(sections))
    {
      var rs := InOrder(sections);
      anonymized := "";
      allSentences := [];
      for i := 0 to |rs|
        invariant anonymized == JoinSections(Texts(rs[..i]))
        invariant allSentences == ConcatSentences(rs[..i])
      {
        var s := rs[i];
        ReportStep(rs, i);
        ghost var acc := anonymized;
        if |anonymized| > 0 {
          anonymized := anonymized + "\n\n";
        }
        anonymized := anonymized + s.anonymizedText;
        GlueStep(acc, s.anonymizedText);
        allSentences := allSentences + s.sortedSentences;
      }
      assert rs[..|rs|] == rs;
    }
  }

}
