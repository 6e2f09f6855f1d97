/**
 * `list.sort(Comparator.comparingInt(String::length))`. `List.sort` is stable, so the result
 * is the one stable sort by length of the list; it is computed here by insertion sort.
 */
module SentenceSort {

  /** Inserts `x` before the first element that is at least as long. */
  function InsertByLength(x: string, s: seq<string>): seq<string>
  {
    if |s| == 0 || |x| <= |s[0]| then [x] + s else [s[0]] + InsertByLength(x, s[1..])
  }

  /** The stable sort of `s` by length, shortest first. */
  function SortByLength(s: seq<string>): seq<string>
  {
    if |s| == 0 then [] else InsertByLength(s[0], SortByLength(s[1..]))
  }

  predicate SortedByLength(s: seq<string>)
  {
    forall i, j :: 0 <= i < j < |s| ==> |s[i]| <= |s[j]|
  }

  /** The elements of `s` whose length is `n`, in their order in `s`. */
  function OfLength(s: seq<string>, n: int): seq<string>
  {
    if |s| == 0 then [] else (if |s[0]| == n then [s[0]] else []) + OfLength(s[1..], n)
  }

  /** An element no longer than all of a sorted list can go in front of it. */
  lemma ConsSorted(x: string, s: seq<string>)
    requires SortedByLength(s) && forall j :: 0 <= j < |s| ==> |x| <= |s[j]|
    ensures SortedByLength([x] + s)
  {
    var r := [x] + s;
    forall i, j | 0 <= i < j < |r|
      ensures |r[i]| <= |r[j]|
    {
      assert r[j] == s[j - 1];
      if i > 0 {
        assert r[i] == s[i - 1];
      }
    }
  }

  /** Inserting keeps a lower bound on the lengths. */
  lemma {:induction false} InsertBounded(x: string, s: seq<string>, m: int)
    requires m <= |x| && forall j :: 0 <= j < |s| ==> m <= |s[j]|
    ensures forall j :: 0 <= j < |InsertByLength(x, s)| ==> m <= |InsertByLength(x, s)[j]|
  {
    if |s| > 0 && |x| > |s[0]| {
      InsertBounded(x, s[1..], m);
      var t := InsertByLength(x, s[1..]);
      assert forall j :: 0 < j < |t| + 1 ==> ([s[0]] + t)[j] == t[j - 1];
    } else {
      assert forall j :: 0 < j < |s| + 1 ==> ([x] + s)[j] == s[j - 1];
    }
  }

  lemma {:induction false} InsertSorted(x: string, s: seq<string>)
    requires SortedByLength(s)
    ensures SortedByLength(InsertByLength(x, s))
  {
    if |s| == 0 || |x| <= |s[0]| {
      ConsSorted(x, s);
    } else {
      InsertSorted(x, s[1..]);
      InsertBounded(x, s[1..], |s[0]|);
      ConsSorted(s[0], InsertByLength(x, s[1..]));
    }
  }

  lemma {:induction false} InsertPermutes(x: string, s: seq<string>)
    ensures multiset(InsertByLength(x, s)) == multiset{x} + multiset(s)
  {
    if |s| > 0 && |x| > |s[0]| {
      InsertPermutes(x, s[1..]);
      assert s == [s[0]] + s[1..];
    }
  }

  /** Inserting `x` puts it before every element of its own length it is inserted among. */
  lemma {:induction false} InsertOfLength(x: string, s: seq<string>, n: int)
    ensures OfLength(InsertByLength(x, s), n) == (if |x| == n then [x] else []) + OfLength(s, n)
  {
    if |s| > 0 && |x| > |s[0]| {
      InsertOfLength(x, s[1..], n);
      assert ([s[0]] + InsertByLength(x, s[1..]))[1..] == InsertByLength(x, s[1..]);
    } else {
      assert ([x] + s)[1..] == s;
    }
  }

  /** The result is sorted by length and is a permutation of the input. */
  lemma {:induction false} SortByLengthSorted(s: seq<string>)
    ensures SortedByLength(SortByLength(s))
    ensures multiset(SortByLength(s)) == multiset(s)
  {
    if |s| > 0 {
      SortByLengthSorted(s[1..]);
      InsertSorted(s[0], SortByLength(s[1..]));
      InsertPermutes(s[0], SortByLength(s[1..]));
      assert s == [s[0]] + s[1..];
    }
  }

  /** Stability: for every length, the elements of that length keep their input order. */
  lemma {:induction false} SortByLengthStable(s: seq<string>, n: int)
    ensures OfLength(SortByLength(s), n) == OfLength(s, n)
  {
    if |s| > 0 {
      SortByLengthStable(s[1..], n);
      InsertOfLength(s[0], SortByLength(s[1..]), n);
    }
  }

  lemma {:induction false} OfLengthWitness(s: seq<string>, n: int)
    requires |OfLength(s, n)| > 0
    ensures exists i :: 0 <= i < |s| && |s[i]| == n
  {
    if |s[0]| != n {
      OfLengthWitness(s[1..], n);
      var i :| 0 <= i < |s[1..]| && |s[1..][i]| == n;
      assert |s[i + 1]| == n;
    }
  }

  /** Two length-sorted lists with the same elements of every length start alike. */
  lemma HeadsAgree(t: seq<string>, u: seq<string>)
    requires SortedByLength(t) && SortedByLength(u) && |t| > 0
    requires forall n :: OfLength(t, n) == OfLength(u, n)
    ensures |u| > 0 && t[0] == u[0]
  {
    var a := t[0];
    assert OfLength(u, |a|) == OfLength(t, |a|) != [];
    var b := u[0];
    if |a| < |b| {
      assert OfLength(u, |a|) == OfLength(t, |a|);
      OfLengthWitness(u, |a|);
      assert false;
    } else if |b| < |a| {
      assert OfLength(t, |b|) == OfLength(u, |b|);
      OfLengthWitness(t, |b|);
      assert false;
    }
    assert OfLength(t, |a|) == [a] + OfLength(t[1..], |a|);
    assert OfLength(u, |a|) == [b] + OfLength(u[1..], |a|);
    assert OfLength(t, |a|)[0] == OfLength(u, |a|)[0];
  }

  /** Dropping a common first element keeps the elements of every length equal. */
  lemma TailsAgree(t: seq<string>, u: seq<string>, n: int)
    requires |t| > 0 && |u| > 0 && t[0] == u[0]
    requires OfLength(t, n) == OfLength(u, n)
    ensures OfLength(t[1..], n) == OfLength(u[1..], n)
  {
    var a := t[0];
    var x, y := OfLength(t[1..], n), OfLength(u[1..], n);
    assert OfLength(t, n) == (if |a| == n then [a] else []) + x;
    assert OfLength(u, n) == (if |a| == n then [a] else []) + y;
    if |a| == n {
      assert x == ([a] + x)[1..] && y == ([a] + y)[1..];
    } else {
      assert [] + x == x && [] + y == y;
    }
  }

  /**
   * Two length-sorted lists with the same elements of every length, in the same order, are
   * equal: every stable sort by length gives what SortByLength gives.
   */
  lemma {:induction false} StableSortIsUnique(t: seq<string>, u: seq<string>)
    requires SortedByLength(t) && SortedByLength(u)
    requires forall n :: OfLength(t, n) == OfLength(u, n)
    ensures t == u
    decreases |t| + |u|
  {
    if |t| > 0 {
      HeadsAgree(t, u);
    } else if |u| > 0 {
      HeadsAgree(u, t);
    }
    if |t| > 0 {
      forall n
        ensures OfLength(t[1..], n) == OfLength(u[1..], n)
      {
        TailsAgree(t, u, n);
      }
      StableSortIsUnique(t[1..], u[1..]);
      assert t == [t[0]] + t[1..] && u == [u[0]] + u[1..];
    }
  }

  /** So SortByLength is characterized by sortedness and stability alone. */
  lemma StableSortCharacterized(s: seq<string>, t: seq<string>)
    requires SortedByLength(t) && forall n :: OfLength(t, n) == OfLength(s, n)
    ensures t == SortByLength(s)
  {
    SortByLengthSorted(s);
    forall n
      ensures OfLength(t, n) == OfLength(SortByLength(s), n)
    {
      SortByLengthStable(s, n);
    }
    StableSortIsUnique(t, SortByLength(s));
  }

}
