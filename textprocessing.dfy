/**
 * The worker's `TextProcessingService`: the analytics of one section, namely the word
 * frequencies of the lowercased text, their total, the top-N ranking, the sentiment tally,
 * the anonymised text and the sentences sorted by length.
 */
module TextProcessing {

  import opened Wrappers
  import opened Messages
  import opened Strings
  import opened Summation
  import opened Ranking
  import opened SentenceSort
  import opened Lexicons

  /**
   * The parts of the JDK the analytics rely on, taken as given: `toLowerCase(Locale.ROOT)`
   * one `char` at a time, the `\p{L}` letter class and the regex name anonymiser.
   */
  datatype TextOps = TextOps(lower: char -> char, isLetter: char -> bool, anonymize: string -> string)

  // ---------------------------------------------------------------------------------------
  // Words: the matches of \p{L}+

  /** The length of the run of letters `s` starts with. */
  function RunLength(s: string, isLetter: char -> bool): (n: nat)
    ensures n <= |s|
    ensures forall i :: 0 <= i < n ==> isLetter(s[i])
    ensures n < |s| ==> !isLetter(s[n])
  {
    if |s| == 0 || !isLetter(s[0]) then 0 else 1 + RunLength(s[1..], isLetter)
  }

  /** The successive matches of `\p{L}+` in `s`: its maximal runs of letters, left to right. */
  function LetterRuns(s: string, isLetter: char -> bool): seq<string>
    decreases |s|
  {
    if |s| == 0 then []
    else if !isLetter(s[0]) then LetterRuns(s[1..], isLetter)
    else
      var n := RunLength(s, isLetter);
      [s[..n]] + LetterRuns(s[n..], isLetter)
  }

  /** The letters of `s`, in order. */
  function Letters(s: string, isLetter: char -> bool): string
  {
    if |s| == 0 then "" else (if isLetter(s[0]) then [s[0]] else "") + Letters(s[1..], isLetter)
  }

  /** The strings of `ws`, concatenated. */
  function Concat(ws: seq<string>): string
  {
    if |ws| == 0 then "" else ws[0] + Concat(ws[1..])
  }

  /** A prefix made only of letters is kept whole by `Letters`. */
  lemma {:induction false} LettersOfRun(s: string, isLetter: char -> bool, n: nat)
    requires n <= |s| && forall i :: 0 <= i < n ==> isLetter(s[i])
    ensures Letters(s, isLetter) == s[..n] + Letters(s[n..], isLetter)
  {
    if n > 0 {
      LettersOfRun(s[1..], isLetter, n - 1);
      assert s[1..][n - 1..] == s[n..];
      assert [s[0]] + s[1..][..n - 1] == s[..n];
    }
  }

  /**
   * The matches are non-empty runs of letters, and they take every letter of `s` once, in
   * order: concatenated they give exactly the letters of `s`.
   */
  lemma {:induction false} LetterRunsCoverLetters(s: string, isLetter: char -> bool)
    ensures forall k :: 0 <= k < |LetterRuns(s, isLetter)| ==>
      |LetterRuns(s, isLetter)[k]| > 0 &&
      forall i :: 0 <= i < |LetterRuns(s, isLetter)[k]| ==> isLetter(LetterRuns(s, isLetter)[k][i])
    ensures Concat(LetterRuns(s, isLetter)) == Letters(s, isLetter)
    decreases |s|
  {
    if |s| > 0 {
      if !isLetter(s[0]) {
        LetterRunsCoverLetters(s[1..], isLetter);
      } else {
        var n := RunLength(s, isLetter);
        var rest := LetterRuns(s[n..], isLetter);
        LetterRunsCoverLetters(s[n..], isLetter);
        LettersOfRun(s, isLetter, n);
        var runs := LetterRuns(s, isLetter);
        assert runs == [s[..n]] + rest;
        assert runs[1..] == rest;
        forall k | 0 < k < |runs|
          ensures runs[k] == rest[k - 1]
        {
        }
      }
    }
  }

  /** The words `countWordFrequencies` counts: the letter runs of the lowercased text. */
  function Words(text: string, ops: TextOps): seq<string>
  {
    LetterRuns(LowerCase(text, ops.lower), ops.isLetter)
  }

  // ---------------------------------------------------------------------------------------
  // Frequencies

  /** The map `freq.merge(word, 1L, Long::sum)` builds over the words, in order. */
  function Tally(words: seq<string>): map<string, int>
  {
    if |words| == 0 then map[]
    else
      var m, w := Tally(words[..|words| - 1]), words[|words| - 1];
      m[w := if w in m then m[w] + 1 else 1]
  }

  /**
   * The tally holds exactly the words that occur, each with its number of occurrences, so
   * every frequency is at least 1.
   */
  lemma {:induction false} TallyCounts(words: seq<string>)
    ensures forall w :: w in Tally(words) <==> w in multiset(words)
    ensures forall w :: w in Tally(words) ==> Tally(words)[w] == multiset(words)[w] >= 1
  {
    if |words| > 0 {
      var init, w := words[..|words| - 1], words[|words| - 1];
      TallyCounts(init);
      assert words == init + [w];
    }
  }

  /** The frequencies add up to the number of words. */
  lemma {:induction false} TallySum(words: seq<string>)
    ensures Sum(Tally(words)) == |words|
  {
    if |words| > 0 {
      var init, w := words[..|words| - 1], words[|words| - 1];
      var m := Tally(init);
      TallySum(init);
      if w in m {
        SumByUpdate(m, w, m[w] + 1, Identity);
      } else {
        SumByInsert(m, w, 1, Identity);
      }
    }
  }

  lemma TallyStep(words: seq<string>, i: int)
    requires 0 <= i < |words|
    ensures var m, w := Tally(words[..i]), words[i];
      Tally(words[..i + 1]) == m[w := if w in m then m[w] + 1 else 1]
  {
    assert words[..i + 1][..i] == words[..i];
  }

  // ---------------------------------------------------------------------------------------
  // Sentiment

  /** The words the tally counts as positive. */
  function PositiveWord(lex: Lexicon): string -> bool
  {
    w => lex.IsPositive(w)
  }

  function NegativeWord(lex: Lexicon): string -> bool
  {
    w => lex.IsNegative(w)
  }

  /** `pos`: the frequencies of the positive words. */
  ghost function PositiveTally(freq: map<string, int>, lex: Lexicon): int
  {
    Sum(Restrict(freq, PositiveWord(lex), true))
  }

  /** `neg`: the frequencies of the negative words that are not also positive. */
  ghost function NegativeTally(freq: map<string, int>, lex: Lexicon): int
  {
    Sum(Restrict(Restrict(freq, PositiveWord(lex), false), NegativeWord(lex), true))
  }

  /** `(double) a / t`, taken exactly. */
  function Ratio(a: int, t: int): real
    requires t != 0
  {
    a as real / t as real
  }

  /** `computeSentiment(freq, totalWords)`. */
  ghost function SentimentOf(freq: map<string, int>, totalWords: int, lex: Lexicon): real
  {
    if totalWords == 0 then 0.0
    else Ratio(PositiveTally(freq, lex) - NegativeTally(freq, lex), totalWords)
  }

  lemma RatioBounded(a: int, t: int)
    requires t > 0 && -t <= a <= t
    ensures -1.0 <= Ratio(a, t) <= 1.0
  {
  }

  /**
   * Positive and negative words are tallied from disjoint parts of the map, so with counts
   * that are not negative and `totalWords` their sum, `pos + neg <= totalWords` and the
   * score lies in [-1, 1].
   */
  lemma SentimentBounded(freq: map<string, int>, lex: Lexicon)
    requires forall w :: w in freq ==> freq[w] >= 0
    ensures 0 <= PositiveTally(freq, lex) && 0 <= NegativeTally(freq, lex)
    ensures PositiveTally(freq, lex) + NegativeTally(freq, lex) <= Sum(freq)
    ensures -1.0 <= SentimentOf(freq, Sum(freq), lex) <= 1.0
  {
    TallyBounded(freq, lex);
    if Sum(freq) != 0 {
      RatioBounded(PositiveTally(freq, lex) - NegativeTally(freq, lex), Sum(freq));
    }
  }

  lemma TallyBounded(freq: map<string, int>, lex: Lexicon)
    requires forall w :: w in freq ==> freq[w] >= 0
    ensures 0 <= PositiveTally(freq, lex) && 0 <= NegativeTally(freq, lex)
    ensures PositiveTally(freq, lex) + NegativeTally(freq, lex) <= Sum(freq)
  {
    var p, n := PositiveWord(lex), NegativeWord(lex);
    var pos, rest := Restrict(freq, p, true), Restrict(freq, p, false);
    var neg, neutral := Restrict(rest, n, true), Restrict(rest, n, false);
    SumBySplit(freq, p, Identity);
    SumBySplit(rest, n, Identity);
    SumNonNegative(pos);
    SumNonNegative(neg);
    SumNonNegative(neutral);
  }

  /** A text without any word has score 0. */
  lemma NoWordsNoSentiment(freq: map<string, int>, lex: Lexicon)
    ensures SentimentOf(freq, 0, lex) == 0.0
  {
  }

  // ---------------------------------------------------------------------------------------
  // The result of a section

  /** The result `processSection` builds; `None` when `computeTopN` throws for a negative top-N. */
  ghost function ResultOf(msg: SectionMessage, lex: Lexicon, ops: TextOps): Option<ResultMessage>
  {
    var freq := Tally(Words(msg.text, ops));
    var top := TopN(freq, msg.topN);
    if top.None? then None
    else
      Some(ResultMessage(msg.jobId, msg.sectionId, msg.totalSections, msg.topN,
                         Sum(freq), freq, top.value, SentimentOf(freq, Sum(freq), lex),
                         ops.anonymize(msg.text), SortByLength(Sentences(msg.text))))
  }

  /**
   * What a worker reports: the section's ids and top-N copied, the frequencies of the words of
   * the lowercased text, their total the number of words, the top-N ranking of those
   * frequencies, a score in [-1, 1] that is 0 for a text without words, and the text's
   * sentences sorted stably by length.
   */
  lemma ResultOfProperties(msg: SectionMessage, lex: Lexicon, ops: TextOps)
    ensures ResultOf(msg, lex, ops).None? <==> msg.topN < 0
    ensures var r := ResultOf(msg, lex, ops);
      r.Some? ==>
        var v, words := r.value, Words(msg.text, ops);
        v.jobId == msg.jobId && v.sectionId == msg.sectionId &&
        v.totalSections == msg.totalSections && v.topN == msg.topN &&
        (forall w :: w in v.wordFreq <==> w in multiset(words)) &&
        (forall w :: w in v.wordFreq ==> v.wordFreq[w] == multiset(words)[w] >= 1) &&
        v.wordCount == |words| &&
        |v.topWords| == Min(msg.topN, |v.wordFreq|) &&
        StrictlyRanked(v.topWords) && EntriesOf(v.topWords, v.wordFreq) &&
        -1.0 <= v.sentimentScore <= 1.0 &&
        (|words| == 0 ==> v.sentimentScore == 0.0) &&
        SortedByLength(v.sortedSentences) &&
        multiset(v.sortedSentences) == multiset(Sentences(msg.text)) &&
        forall n :: OfLength(v.sortedSentences, n) == OfLength(Sentences(msg.text), n)
  {
    var words := Words(msg.text, ops);
    var freq := Tally(words);
    TallyCounts(words);
    TallySum(words);
    SentimentBounded(freq, lex);
    var ss := Sentences(msg.text);
    SortByLengthSorted(ss);
    forall n
      ensures OfLength(SortByLength(ss), n) == OfLength(ss, n)
    {
      SortByLengthStable(ss, n);
    }
  }

  // ---------------------------------------------------------------------------------------
  // The service

  class TextProcessingService {

    const lexicon: Lexicon
    const ops: TextOps

    constructor (lexicon: Lexicon, ops: TextOps)
      ensures this.lexicon == lexicon && this.ops == ops
    {
      this.lexicon := lexicon;
      this.ops := ops;
    }

    /** `processSection`. */
    method ProcessSection(msg: SectionMessage) returns (r: Option<ResultMessage>)
      ensures r == ResultOf(msg, lexicon, ops)
    {
      var text := msg.text;
      var freq := CountWordFrequencies(text);
      var totalWords := TotalWords(freq);
      var topWords := TopN(freq, msg.topN);
      if topWords.None? {
        return None;
      }
      var sentimentScore := ComputeSentiment(freq, totalWords);
      var anonymized := ops.anonymize(text);
      var sortedSentences := SortSentencesByLength(text);
      r := Some(ResultMessage(msg.jobId, msg.sectionId, msg.totalSections, msg.topN, totalWords,
                              freq, topWords.value, sentimentScore, anonymized, sortedSentences));
    }

    /** `countWordFrequencies`: one `merge` per match of `\p{L}+` in the lowercased text. */
    method CountWordFrequencies(text: string) returns (freq: map<string, int>)
      ensures freq == Tally(Words(text, ops))
    {
      var words := LetterRuns(LowerCase(text, ops.lower), ops.isLetter);
      freq := map[];
      for i := 0 to |words|
        invariant freq == Tally(words[..i])
      {
        var word := words[i];
        TallyStep(words, i);
        freq := freq[word := if word in freq then freq[word] + 1 else 1];
      }
      assert words[..|words|] == words;
    }

    /** `freq.values().stream().mapToLong(Long::longValue).sum()`, in any order of the entries. */
    method TotalWords(freq: map<string, int>) returns (total: int)
      ensures total == Sum(freq)
    {
      total := 0;
      var rest := freq;
      while |rest| > 0
        invariant total + Sum(rest) == Sum(freq)
        decreases |rest|
      {
        HasElement(rest.Keys);
        var w :| w in rest;
        SumByRemove(rest, w, Identity);
        total := total + rest[w];
        rest := rest - {w};
      }
    }

    /**
     * `computeSentiment`: 0 for no words, otherwise the positive count minus the negative
     * count over the total, where a word in both lexicons counts as positive only.
     */
    method ComputeSentiment(freq: map<string, int>, totalWords: int) returns (score: real)
      ensures score == SentimentOf(freq, totalWords, lexicon)
    {
      if totalWords == 0 {
        return 0.0;
      }
      var pos, neg := TallyPolarity(freq);
      score := Ratio(pos - neg, totalWords);
    }

    /** The loop of `computeSentiment`: `pos` and `neg` summed over the entries, in any order. */
    method TallyPolarity(freq: map<string, int>) returns (pos: int, neg: int)
      ensures pos == PositiveTally(freq, lexicon) && neg == NegativeTally(freq, lexicon)
    {
      pos, neg := 0, 0;
      var rest := freq;
      while |rest| > 0
        invariant pos + PositiveTally(rest, lexicon) == PositiveTally(freq, lexicon)
        invariant neg + NegativeTally(rest, lexicon) == NegativeTally(freq, lexicon)
        decreases |rest|
      {
        HasElement(rest.Keys);
        var w :| w in rest;
        var count := rest[w];
        TallyEntry(rest, w, lexicon);
        if lexicon.IsPositive(w) {
          pos := pos + count;
        } else if lexicon.IsNegative(w) {
          neg := neg + count;
        }
        rest := rest - {w};
      }
      TallyOfNothing(rest, lexicon);
    }

    /** `sortSentencesByLength`: the trimmed non-blank pieces, sorted stably by length. */
    method SortSentencesByLength(text: string) returns (sentences: seq<string>)
      ensures sentences == SortByLength(Sentences(text))
    {
      var raw := SplitPieces(text);
      sentences := [];
      for i := 0 to |raw|
        invariant sentences == KeepNonBlank(raw[..i])
      {
        KeepNonBlankStep(raw, i);
        if !IsBlank(raw[i]) {
          sentences := sentences + [Trim(raw[i])];
        }
      }
      assert raw[..|raw|] == raw;
      sentences := SortByLength(sentences);
    }
  }

  lemma TallyOfNothing(freq: map<string, int>, lex: Lexicon)
    requires |freq| == 0
    ensures PositiveTally(freq, lex) == 0 && NegativeTally(freq, lex) == 0
  {
    assert Restrict(freq, PositiveWord(lex), true) == map[];
    assert Restrict(Restrict(freq, PositiveWord(lex), false), NegativeWord(lex), true) == map[];
  }

  /** Taking one entry out of the map takes its count out of the tally it belongs to. */
  lemma TallyEntry(freq: map<string, int>, w: string, lex: Lexicon)
    requires w in freq
    ensures PositiveTally(freq, lex) ==
      (if lex.IsPositive(w) then freq[w] else 0) + PositiveTally(freq - {w}, lex)
    ensures NegativeTally(freq, lex) ==
      (if !lex.IsPositive(w) && lex.IsNegative(w) then freq[w] else 0) + NegativeTally(freq - {w}, lex)
  {
    var p, n := PositiveWord(lex), NegativeWord(lex);
    RestrictRemove(freq, p, true, w);
    RestrictRemove(freq, p, false, w);
    if lex.IsPositive(w) {
      SumByRemove(Restrict(freq, p, true), w, Identity);
    } else {
      var rest := Restrict(freq, p, false);
      RestrictRemove(rest, n, true, w);
      if lex.IsNegative(w) {
        SumByRemove(Restrict(rest, n, true), w, Identity);
      }
    }
  }

}
