/**
 * The top-N ranking of a word-frequency map, as both `computeTopN` methods compute it
 * (the worker's and the aggregator's are the same stream pipeline): entries sorted by count
 * descending, then by word ascending, cut to the first `n`.
 */
module Ranking {

  import opened Wrappers
  import opened Messages
  import opened Strings
  import opened Summation

  /** The comparator: `a` sorts before `b`. */
  predicate Precedes(a: WordCount, b: WordCount)
  {
    a.count > b.count || (a.count == b.count && StrLess(a.word, b.word))
  }

  lemma PrecedesTransitive(a: WordCount, b: WordCount, c: WordCount)
    requires Precedes(a, b) && Precedes(b, c)
    ensures Precedes(a, c)
  {
    if a.count == b.count == c.count {
      StrLessTransitive(a.word, b.word, c.word);
    }
  }

  lemma PrecedesAsymmetric(a: WordCount, b: WordCount)
    requires Precedes(a, b)
    ensures !Precedes(b, a)
  {
    if a.count == b.count {
      StrLessAsymmetric(a.word, b.word);
    }
  }

  /** Entries with different words are always ordered: the comparator is total on map entries. */
  lemma PrecedesTotal(a: WordCount, b: WordCount)
    requires a.word != b.word
    ensures Precedes(a, b) || Precedes(b, a)
  {
    StrLessConnected(a.word, b.word);
  }

  /** The words of a ranking. */
  function WordsOf(r: seq<WordCount>): set<string>
  {
    set i | 0 <= i < |r| :: r[i].word
  }

  /** Every element of `r` is an entry of `freq`. */
  predicate EntriesOf(r: seq<WordCount>, freq: map<string, int>)
  {
    forall i :: 0 <= i < |r| ==> r[i].word in freq && r[i].count == freq[r[i].word]
  }

  /** `r` is in strictly increasing comparator order. */
  predicate StrictlyRanked(r: seq<WordCount>)
  {
    forall i, j :: 0 <= i < j < |r| ==> Precedes(r[i], r[j])
  }

  /** The entry of `w` sorts before every other entry of `freq`. */
  predicate IsFirst(freq: map<string, int>, w: string)
  {
    w in freq &&
    forall v :: v in freq && v != w ==> Precedes(WordCount(w, freq[w]), WordCount(v, freq[v]))
  }

  lemma {:induction false} FirstExists(freq: map<string, int>)
    requires |freq| > 0
    ensures exists w :: IsFirst(freq, w)
    decreases |freq|
  {
    var k := Pick(freq);
    var rest := freq - {k};
    if |rest| == 0 {
      assert rest.Keys == freq.Keys - {k} == {};
      assert IsFirst(freq, k);
    } else {
      FirstExists(rest);
      var w :| IsFirst(rest, w);
      var ek, ew := WordCount(k, freq[k]), WordCount(w, freq[w]);
      assert forall v :: v in rest ==> rest[v] == freq[v];
      PrecedesTotal(ek, ew);
      if Precedes(ek, ew) {
        forall v | v in freq && v != k
          ensures Precedes(ek, WordCount(v, freq[v]))
        {
          if v != w {
            assert v in rest;
            PrecedesTransitive(ek, ew, WordCount(v, freq[v]));
          }
        }
        assert IsFirst(freq, k);
      } else {
        forall v | v in freq && v != w
          ensures Precedes(ew, WordCount(v, freq[v]))
        {
          if v != k {
            assert v in rest;
          }
        }
        assert IsFirst(freq, w);
      }
    }
  }

  lemma FirstUnique(freq: map<string, int>)
    ensures forall w1, w2 :: IsFirst(freq, w1) && IsFirst(freq, w2) ==> w1 == w2
  {
    forall w1, w2 | IsFirst(freq, w1) && IsFirst(freq, w2)
      ensures w1 == w2
    {
      if w1 != w2 {
        PrecedesAsymmetric(WordCount(w1, freq[w1]), WordCount(w2, freq[w2]));
      }
    }
  }

  /** All entries of `freq`, sorted by the comparator (a selection sort). */
  function Ranked(freq: map<string, int>): seq<WordCount>
    decreases |freq|
  {
    if |freq| == 0 then []
    else
      FirstExists(freq);
      FirstUnique(freq);
      var w :| IsFirst(freq, w);
      [WordCount(w, freq[w])] + Ranked(freq - {w})
  }

  /** The ranking starts with the first entry and goes on with the ranking of the rest. */
  lemma RankedCons(freq: map<string, int>, w: string)
    requires IsFirst(freq, w)
    ensures Ranked(freq) == [WordCount(w, freq[w])] + Ranked(freq - {w})
  {
    FirstUnique(freq);
  }

  lemma WordsOfCons(x: WordCount, r: seq<WordCount>)
    ensures WordsOf([x] + r) == {x.word} + WordsOf(r)
  {
    var s := [x] + r;
    forall y | y in WordsOf(s) ensures y in {x.word} + WordsOf(r) {
      var i :| 0 <= i < |s| && s[i].word == y;
      if i > 0 {
        assert r[i - 1].word == y;
      }
    }
    forall y | y in WordsOf(r) ensures y in WordsOf(s) {
      var i :| 0 <= i < |r| && r[i].word == y;
      assert s[i + 1].word == y;
    }
    assert s[0].word == x.word;
  }

  /** The ranking lists every entry of `freq` once and nothing else. */
  lemma {:induction false} RankedEntries(freq: map<string, int>)
    ensures |Ranked(freq)| == |freq|
    ensures EntriesOf(Ranked(freq), freq)
    ensures WordsOf(Ranked(freq)) == freq.Keys
    decreases |freq|
  {
    if |freq| > 0 {
      FirstExists(freq);
      var w :| IsFirst(freq, w);
      var rest := freq - {w};
      RankedEntries(rest);
      RankedCons(freq, w);
      var tail := Ranked(rest);
      WordsOfCons(WordCount(w, freq[w]), tail);
      ConsEntries(freq, w, tail);
    }
  }

  /** The first entry followed by entries of the rest lists entries of `freq`. */
  lemma ConsEntries(freq: map<string, int>, w: string, tail: seq<WordCount>)
    requires w in freq && EntriesOf(tail, freq - {w})
    ensures EntriesOf([WordCount(w, freq[w])] + tail, freq)
  {
    var r := [WordCount(w, freq[w])] + tail;
    forall i | 0 <= i < |r|
      ensures r[i].word in freq && r[i].count == freq[r[i].word]
    {
      if i > 0 {
        assert r[i] == tail[i - 1];
        assert tail[i - 1].word in freq - {w};
      }
    }
  }

  /** The first entry sorts before every entry of the rest. */
  lemma FirstPrecedesRest(freq: map<string, int>, w: string, tail: seq<WordCount>)
    requires IsFirst(freq, w) && EntriesOf(tail, freq - {w})
    ensures forall k :: 0 <= k < |tail| ==> Precedes(WordCount(w, freq[w]), tail[k])
  {
    forall k | 0 <= k < |tail|
      ensures Precedes(WordCount(w, freq[w]), tail[k])
    {
      assert tail[k].word in freq - {w};
    }
  }

  /** An entry that sorts before all of a strictly ranked list can be put in front of it. */
  lemma ConsRanked(x: WordCount, tail: seq<WordCount>)
    requires StrictlyRanked(tail)
    requires forall k :: 0 <= k < |tail| ==> Precedes(x, tail[k])
    ensures StrictlyRanked([x] + tail)
  {
    var r := [x] + tail;
    forall i, j | 0 <= i < j < |r|
      ensures Precedes(r[i], r[j])
    {
      assert r[j] == tail[j - 1];
      if i > 0 {
        assert r[i] == tail[i - 1];
      }
    }
  }

  /** The ranking is in strictly increasing comparator order. */
  lemma {:induction false} RankedSorted(freq: map<string, int>)
    ensures StrictlyRanked(Ranked(freq))
    decreases |freq|
  {
    if |freq| > 0 {
      FirstExists(freq);
      var w :| IsFirst(freq, w);
      var rest := freq - {w};
      RankedSorted(rest);
      RankedEntries(rest);
      FirstPrecedesRest(freq, w, Ranked(rest));
      ConsRanked(WordCount(w, freq[w]), Ranked(rest));
      RankedCons(freq, w);
    }
  }

  /** The head of a strictly ranked list of exactly the entries of `freq` is the first entry. */
  lemma RankedHead(freq: map<string, int>, s: seq<WordCount>)
    requires |s| > 0 && StrictlyRanked(s) && EntriesOf(s, freq) && WordsOf(s) == freq.Keys
    ensures IsFirst(freq, s[0].word)
  {
    var w0 := s[0].word;
    assert w0 in WordsOf(s);
    forall v | v in freq && v != w0
      ensures Precedes(WordCount(w0, freq[w0]), WordCount(v, freq[v]))
    {
      assert v in WordsOf(s);
      var j :| 0 <= j < |s| && s[j].word == v;
      assert j != 0;
    }
  }

  /** What is left after the head is a strictly ranked list of exactly the other entries. */
  lemma RankedTail(freq: map<string, int>, s: seq<WordCount>)
    requires |s| > 0 && StrictlyRanked(s) && EntriesOf(s, freq) && WordsOf(s) == freq.Keys
    ensures var rest, tail := freq - {s[0].word}, s[1..];
      StrictlyRanked(tail) && EntriesOf(tail, rest) && WordsOf(tail) == rest.Keys
  {
    var w0 := s[0].word;
    var rest, tail := freq - {w0}, s[1..];
    forall i | 0 <= i < |tail|
      ensures tail[i].word != w0
    {
      assert Precedes(s[0], s[i + 1]);
      if s[i + 1].word == w0 {
        StrLessIrreflexive(w0);
      }
    }
    assert s == [s[0]] + tail;
    WordsOfCons(s[0], tail);
    assert forall x :: x in WordsOf(tail) ==> x != w0;
  }

  /**
   * The sorted order does not depend on how it is computed: any strictly ranked list of
   * exactly the entries of `freq` is `Ranked(freq)`. So the HashMap's iteration order, which
   * feeds Java's sort, does not change the result.
   */
  lemma {:induction false} RankingIsUnique(freq: map<string, int>, s: seq<WordCount>)
    requires StrictlyRanked(s) && EntriesOf(s, freq) && WordsOf(s) == freq.Keys
    ensures s == Ranked(freq)
    decreases |freq|
  {
    if |s| == 0 {
      assert freq.Keys == {};
      assert freq == map[];
    } else {
      RankedHead(freq, s);
      RankedTail(freq, s);
      var w0 := s[0].word;
      RankingIsUnique(freq - {w0}, s[1..]);
      RankedCons(freq, w0);
      assert s == [s[0]] + s[1..];
    }
  }

  function Min(a: int, b: int): int
  {
    if a <= b then a else b
  }

  /** Every entry left out of a prefix of the ranking ranks below every entry kept. */
  lemma PrefixRanksFirst(freq: map<string, int>, k: nat)
    requires k <= |Ranked(freq)|
    ensures var top := Ranked(freq)[..k];
      forall w, i :: w in freq && w !in WordsOf(top) && 0 <= i < |top| ==>
        Precedes(top[i], WordCount(w, freq[w]))
  {
    RankedEntries(freq);
    RankedSorted(freq);
    var all := Ranked(freq);
    var top := all[..k];
    forall w, i | w in freq && w !in WordsOf(top) && 0 <= i < |top|
      ensures Precedes(top[i], WordCount(w, freq[w]))
    {
      assert w in WordsOf(all);
      var j :| 0 <= j < |all| && all[j].word == w;
      forall x | 0 <= x < |top|
        ensures all[x].word != w
      {
        assert top[x] == all[x];
        assert top[x].word in WordsOf(top);
      }
    }
  }

  /**
   * `computeTopN(freq, n)`: the first `n` entries of the ranking. `Stream.limit` throws
   * IllegalArgumentException for a negative `n`; that is `None`.
   */
  function TopN(freq: map<string, int>, n: int): (r: Option<seq<WordCount>>)
    ensures r.None? <==> n < 0
    ensures r.Some? ==> |r.value| == Min(n, |freq|)
    ensures r.Some? ==> StrictlyRanked(r.value) && EntriesOf(r.value, freq)
    ensures r.Some? ==> forall w, i :: w in freq && w !in WordsOf(r.value) && 0 <= i < |r.value| ==>
      Precedes(r.value[i], WordCount(w, freq[w]))
  {
    if n < 0 then None
    else
      RankedEntries(freq);
      RankedSorted(freq);
      PrefixRanksFirst(freq, Min(n, |freq|));
      Some(Ranked(freq)[..Min(n, |freq|)])
  }

}
