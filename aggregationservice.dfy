/**
 * The aggregator's service: it routes each section result to the live aggregate of its job,
 * finalizes a job once it is complete, and keeps a bounded cache of finished reports,
 * evicted oldest-completion-first.
 */
module Aggregation {

  import opened Wrappers
  import opened Messages
  import opened JobAggregates

  // ---------------------------------------------------------------------------------------
  // The bounded cache of completed results

  /** How many ids the eviction loop polls from the front of the deque. */
  function Evictions(order: seq<string>, capacity: nat): (e: nat)
    ensures e <= |order|
    ensures |order| - e <= capacity
    ensures e > 0 ==> |order| - e == capacity
  {
    if |order| > capacity then |order| - capacity else 0
  }

  /** The ids among the first `n` of the deque. */
  function Polled(order: seq<string>, n: nat): set<string>
    requires n <= |order|
  {
    set i | 0 <= i < n :: order[i]
  }

  /** The deque once the eviction loop has run. */
  function StoredOrder(order: seq<string>, capacity: nat): (r: seq<string>)
    ensures |r| == if |order| <= capacity then |order| else capacity
    ensures forall i :: 0 <= i < |r| ==> r[i] == order[|order| - |r| + i]
  {
    order[Evictions(order, capacity)..]
  }

  /** The cache once the eviction loop has run: every polled id is removed. */
  function StoredCache(cache: map<string, AggregatedJobResult>, order: seq<string>,
                       capacity: nat): map<string, AggregatedJobResult>
  {
    cache - Polled(order, Evictions(order, capacity))
  }

  lemma PolledStep(order: seq<string>, n: nat)
    requires n < |order|
    ensures Polled(order, n + 1) == Polled(order, n) + {order[n]}
  {
  }

  /** One more poll of the eviction loop: the next id leaves the deque and the cache. */
  lemma EvictStep(cache: map<string, AggregatedJobResult>, order: seq<string>, n: nat)
    requires n < |order|
    ensures cache - Polled(order, n + 1) == (cache - Polled(order, n)) - {order[n]}
    ensures order[n..][0] == order[n] && order[n..][1..] == order[n + 1..]
  {
    PolledStep(order, n);
  }

  /** An id of the deque that was not polled is among the ids the deque keeps. */
  lemma KeptUnlessPolled(order: seq<string>, e: nat, id: string)
    requires e <= |order| && id in order && id !in Polled(order, e)
    ensures id in order[e..]
  {
    forall i | 0 <= i < e
      ensures order[i] != id
    {
      assert order[i] in Polled(order, e);
    }
    var j :| 0 <= j < |order| && order[j] == id;
    assert order[e..][j - e] == id;
  }

  /**
   * Every cached id occurs in the deque: the eviction loop keeps this, because an id it
   * removes from the deque it also removes from the cache.
   */
  lemma CacheWithinOrder(cache: map<string, AggregatedJobResult>, order: seq<string>,
                         capacity: nat)
    requires forall id :: id in cache ==> id in order
    ensures forall id :: id in StoredCache(cache, order, capacity) ==>
      id in StoredOrder(order, capacity)
  {
    var e := Evictions(order, capacity);
    forall id | id in StoredCache(cache, order, capacity)
      ensures id in StoredOrder(order, capacity)
    {
      KeptUnlessPolled(order, e, id);
    }
  }

  /** So the cache never holds more results than the deque holds ids. */
  lemma {:induction false} CacheBounded(cache: map<string, AggregatedJobResult>, order: seq<string>)
    requires forall id :: id in cache ==> id in order
    ensures |cache| <= |order|
    decreases |order|
  {
    if |order| == 0 {
      assert cache.Keys == {};
    } else {
      var init, last := order[..|order| - 1], order[|order| - 1];
      var rest := cache - {last};
      forall id | id in rest
        ensures id in init
      {
        var j :| 0 <= j < |order| && order[j] == id;
        assert j < |order| - 1;
        assert init[j] == id;
      }
      CacheBounded(rest, init);
      assert cache.Keys <= rest.Keys + {last};
      assert |cache.Keys| <= |rest.Keys + {last}| <= |rest.Keys| + 1;
    }
  }

  /**
   * Eviction is oldest-first: a cached entry is dropped exactly when its id is among the
   * oldest `|order| - capacity` ids of the deque, and the kept entries are unchanged.
   */
  lemma EvictionIsOldestFirst(cache: map<string, AggregatedJobResult>, order: seq<string>,
                              capacity: nat, id: string)
    requires id in cache
    ensures id in StoredCache(cache, order, capacity) <==>
      forall i :: 0 <= i < Evictions(order, capacity) ==> order[i] != id
    ensures id in StoredCache(cache, order, capacity) ==>
      StoredCache(cache, order, capacity)[id] == cache[id]
  {
  }

  /**
   * The deque is a window: running the loop after every store leaves the newest `capacity`
   * ids of the whole completion history, as if the loop had only run once.
   */
  lemma StoredOrderWindow(history: seq<string>, id: string, capacity: nat)
    ensures StoredOrder(StoredOrder(history, capacity) + [id], capacity) ==
            StoredOrder(history + [id], capacity)
  {
    var a, b := StoredOrder(StoredOrder(history, capacity) + [id], capacity),
                StoredOrder(history + [id], capacity);
    assert |a| == |b|;
    forall i | 0 <= i < |a|
      ensures a[i] == b[i]
    {
      var k := |history| + 1 - |b| + i;
      if k < |history| {
        assert b[i] == history[k];
      } else {
        assert b[i] == id;
      }
    }
  }

  /** A job finalized for the first time, with room for one result, can be read back. */
  lemma NewestIsCached(cache: map<string, AggregatedJobResult>, order: seq<string>,
                       capacity: nat, id: string, r: AggregatedJobResult)
    requires capacity >= 1 && id !in order
    ensures var after := StoredCache(cache[id := r], order + [id], capacity);
      id in after && after[id] == r
  {
    var o := order + [id];
    forall i | 0 <= i < Evictions(o, capacity)
      ensures o[i] != id
    {
      assert o[i] == order[i];
    }
    EvictionIsOldestFirst(cache[id := r], o, capacity, id);
  }

  /**
   * A job finalized again while an older copy of its id is among the ids the loop polls loses
   * its fresh result: polling the older copy removes the cache entry both copies share, while
   * (with room for one id) the new copy itself stays in the deque.
   */
  lemma RefinalizedResultEvicted(cache: map<string, AggregatedJobResult>, order: seq<string>,
                                 capacity: nat, id: string, latest: AggregatedJobResult)
    requires id in Polled(order + [id], Evictions(order + [id], capacity))
    ensures id !in StoredCache(cache[id := latest], order + [id], capacity)
    ensures capacity >= 1 ==> id in StoredOrder(order + [id], capacity)
  {
    var o := order + [id];
    EvictionIsOldestFirst(cache[id := latest], o, capacity, id);
    var r := StoredOrder(o, capacity);
    if capacity >= 1 {
      assert r[|r| - 1] == o[|o| - 1];
    }
  }

  /** For instance: a job finalized twice in a row into a deque of capacity 1. */
  lemma RefinalizedTwiceInARow(cache: map<string, AggregatedJobResult>, latest: AggregatedJobResult)
    ensures "job" !in StoredCache(cache["job" := latest], ["job", "job"], 1)
    ensures StoredOrder(["job", "job"], 1) == ["job"]
  {
    assert ["job"] + ["job"] == ["job", "job"];
    assert ["job", "job"][0] in Polled(["job", "job"], 1);
    RefinalizedResultEvicted(cache, ["job"], 1, "job", latest);
  }

  // ---------------------------------------------------------------------------------------
  // The service

  lemma UpdateThenRemove<K, V>(m: map<K, V>, k: K, v: V)
    ensures m[k := v] - {k} == m - {k}
  {
  }

  /** What `handleSectionResult` does with one result. */
  datatype Outcome =
    | Pending                                   // the job is not complete yet
    | RankingFailed                             // `Stream.limit` threw: the stored topN is negative
    | WriteFailed                               // writing the JSON file threw
    | Finalized(result: AggregatedJobResult)    // written, cached and cleaned up

  /** What `getResult` returns: a report, `null`, or the exception of a negative `topN`. */
  datatype Reply = Found(result: AggregatedJobResult) | NoResult | RankingError

  class AggregationService {

    var jobs: map<string, JobAggregate>
    var jobTopN: map<string, int>
    var completedResults: map<string, AggregatedJobResult>
    /** `completionOrder`, oldest first. */
    var completionOrder: seq<string>
    /** The files written under the results directory, `<jobId>.json`, by job id. */
    var files: map<string, AggregatedJobResult>
    const maxCompletedResults: int

    ghost predicate Valid()
      reads this, jobs.Values
    {
      (forall id :: id in jobs ==> jobs[id].jobId == id && jobs[id].Valid()) &&
      jobTopN.Keys == jobs.Keys &&
      0 <= maxCompletedResults &&
      |completionOrder| <= maxCompletedResults &&
      (forall id :: id in completedResults ==> id in completionOrder) &&
      |completedResults| <= maxCompletedResults
    }

    constructor (maxCompletedResults: int)
      requires maxCompletedResults >= 0
      ensures Valid()
      ensures this.maxCompletedResults == maxCompletedResults
      ensures jobs == map[] && jobTopN == map[] && completedResults == map[]
      ensures completionOrder == [] && files == map[]
    {
      jobs := map[];
      jobTopN := map[];
      completedResults := map[];
      completionOrder := [];
      files := map[];
      this.maxCompletedResults := maxCompletedResults;
    }

    /** The topN a result's job is finalized with: the first one recorded while it is live. */
    ghost function TopNFor(result: ResultMessage): int
      reads this
    {
      if result.jobId in jobTopN then jobTopN[result.jobId] else result.topN
    }

    /** The expected section count of a result's job: the live aggregate's, or the result's. */
    ghost function ExpectedFor(result: ResultMessage): int
      reads this, jobs.Values
    {
      if result.jobId in jobs then jobs[result.jobId].expectedSections else result.totalSections
    }

    /** The sections of a result's job once the result is added. */
    ghost function SectionsAfter(result: ResultMessage): map<int, ResultMessage>
      reads this, jobs.Values
    {
      Stored(if result.jobId in jobs then jobs[result.jobId].sections else map[], result)
    }

    /**
     * `handleSectionResult(result)`. `writeSucceeds` says whether writing the JSON file
     * succeeds; when it does not, or when the ranking throws, the exception leaves the job
     * live with the result added.
     */
    method HandleSectionResult(result: ResultMessage, writeSucceeds: bool) returns (outcome: Outcome)
      requires Valid()
      modifies this, if result.jobId in jobs then {jobs[result.jobId]} else {}
      ensures Valid()
      ensures var report := ReportOf(result.jobId, old(ExpectedFor(result)),
                                     old(SectionsAfter(result)), old(TopNFor(result)));
        outcome == if !Complete(old(SectionsAfter(result)), old(ExpectedFor(result))) then Pending
                   else if report.None? then RankingFailed
                   else if !writeSucceeds then WriteFailed
                   else Finalized(report.value)
      ensures outcome.Finalized? ==>
        var id := result.jobId;
        jobs == old(jobs) - {id} && jobTopN == old(jobTopN) - {id} &&
        files == old(files)[id := outcome.result] &&
        completionOrder == StoredOrder(old(completionOrder) + [id], maxCompletedResults) &&
        completedResults == StoredCache(old(completedResults)[id := outcome.result],
                                        old(completionOrder) + [id], maxCompletedResults)
      ensures !outcome.Finalized? ==>
        var id := result.jobId;
        id in jobs && jobs == old(jobs)[id := jobs[id]] &&
        (id in old(jobs) ==> jobs[id] == old(jobs)[id]) &&
        jobs[id].expectedSections == old(ExpectedFor(result)) &&
        jobs[id].sections == old(SectionsAfter(result)) &&
        jobTopN == old(jobTopN)[id := old(TopNFor(result))] &&
        files == old(files) && completedResults == old(completedResults) &&
        completionOrder == old(completionOrder)
    {
      var jobId := result.jobId;
      var aggregate := Admit(result);
      if !aggregate.IsComplete() {
        return Pending;
      }
      var topN := if jobId in jobTopN then jobTopN[jobId] else result.topN;
      var aggregated := aggregate.ToAggregatedResult(topN);
      if aggregated.None? {
        return RankingFailed;
      }
      if !writeSucceeds {
        return WriteFailed;
      }
      UpdateThenRemove(old(jobs), jobId, aggregate);
      UpdateThenRemove(old(jobTopN), jobId, topN);
      Finish(jobId, aggregated.value);
      return Finalized(aggregated.value);
    }

    /**
     * The first half of `handleSectionResult`: `jobTopN.putIfAbsent`, `jobs.computeIfAbsent`
     * and `addSectionResult`. Only the aggregate of the result's job changes.
     */
    method Admit(result: ResultMessage) returns (aggregate: JobAggregate)
      requires Valid()
      modifies this, if result.jobId in jobs then {jobs[result.jobId]} else {}
      ensures Valid()
      ensures var id := result.jobId;
        jobs == old(jobs)[id := aggregate] &&
        (id in old(jobs) ==> aggregate == old(jobs)[id]) &&
        aggregate.expectedSections == old(ExpectedFor(result)) &&
        aggregate.sections == old(SectionsAfter(result)) &&
        jobTopN == old(jobTopN)[id := old(TopNFor(result))]
      ensures files == old(files) && completedResults == old(completedResults)
      ensures completionOrder == old(completionOrder)
    {
      if result.jobId in jobs {
        aggregate := AddToLive(result);
      } else {
        aggregate := StartLive(result);
      }
    }

    /** `computeIfAbsent` finds the live aggregate, and the result is added to it. */
    method AddToLive(result: ResultMessage) returns (aggregate: JobAggregate)
      requires Valid() && result.jobId in jobs
      modifies jobs[result.jobId]
      ensures Valid()
      ensures aggregate == jobs[result.jobId]
      ensures aggregate.sections == Stored(old(jobs[result.jobId].sections), result)
    {
      aggregate := jobs[result.jobId];
      aggregate.AddSectionResult(result);
    }

    /**
     * A job that is not live has no recorded topN either: `putIfAbsent` records the result's,
     * and `computeIfAbsent` creates the aggregate, to which the result is added.
     */
    method StartLive(result: ResultMessage) returns (aggregate: JobAggregate)
      requires Valid() && result.jobId !in jobs
      modifies this
      ensures Valid()
      ensures jobs == old(jobs)[result.jobId := aggregate]
      ensures aggregate.expectedSections == result.totalSections
      ensures aggregate.sections == Stored(map[], result)
      ensures jobTopN == old(jobTopN)[result.jobId := result.topN] && files == old(files)
      ensures completedResults == old(completedResults) && completionOrder == old(completionOrder)
    {
      jobTopN := jobTopN[result.jobId := result.topN];
      aggregate := NewAggregate(result);
      jobs := jobs[result.jobId := aggregate];
    }

    /** `new JobAggregate(jobId, totalSections)` with the result added. */
    static method NewAggregate(result: ResultMessage) returns (aggregate: JobAggregate)
      ensures fresh(aggregate) && aggregate.Valid()
      ensures aggregate.jobId == result.jobId
      ensures aggregate.expectedSections == result.totalSections
      ensures aggregate.sections == Stored(map[], result)
    {
      aggregate := new JobAggregate(result.jobId, result.totalSections);
      aggregate.AddSectionResult(result);
    }

    /** The second half, once the file is written: cache the report and drop the live job. */
    method Finish(jobId: string, report: AggregatedJobResult)
      requires Valid()
      modifies this
      ensures Valid()
      ensures jobs == old(jobs) - {jobId} && jobTopN == old(jobTopN) - {jobId}
      ensures files == old(files)[jobId := report]
      ensures completionOrder == StoredOrder(old(completionOrder) + [jobId], maxCompletedResults)
      ensures completedResults == StoredCache(old(completedResults)[jobId := report],
                                              old(completionOrder) + [jobId], maxCompletedResults)
    {
      files := files[jobId := report];
      CacheWithinOrder(completedResults[jobId := report], completionOrder + [jobId],
                       maxCompletedResults);
      StoreCompletedResult(jobId, report);
      CacheBounded(completedResults, completionOrder);
      CleanupJob(jobId);
    }

    /** `getResult(jobId, topN)`: the cached report first, then a snapshot of the live job. */
    method GetResult(jobId: string, topN: int) returns (r: Reply)
      requires Valid()
      ensures jobId in completedResults ==> r == Found(completedResults[jobId])
      ensures jobId !in completedResults && jobId !in jobs ==> r == NoResult
      ensures jobId !in completedResults && jobId in jobs ==>
        var report := ReportOf(jobId, jobs[jobId].expectedSections, jobs[jobId].sections, topN);
        r == if report.None? then RankingError else Found(report.value)
    {
      if jobId in completedResults {
        return Found(completedResults[jobId]);
      }
      if jobId !in jobs {
        return NoResult;
      }
      var report := jobs[jobId].ToAggregatedResult(topN);
      if report.None? {
        return RankingError;
      }
      return Found(report.value);
    }

    /** `cleanupJob`: the job leaves the live maps. */
    method CleanupJob(jobId: string)
      modifies this
      ensures jobs == old(jobs) - {jobId} && jobTopN == old(jobTopN) - {jobId}
      ensures completedResults == old(completedResults) && completionOrder == old(completionOrder)
      ensures files == old(files)
    {
      jobs := jobs - {jobId};
      jobTopN := jobTopN - {jobId};
    }

    /**
     * `storeCompletedResult`: cache the report, append the id to the deque, then poll ids
     * from the front, removing each from the cache, until the deque fits. A negative
     * capacity would make the source poll an empty deque forever.
     */
    method StoreCompletedResult(jobId: string, result: AggregatedJobResult)
      requires 0 <= maxCompletedResults
      modifies this
      ensures completionOrder == StoredOrder(old(completionOrder) + [jobId], maxCompletedResults)
      ensures completedResults == StoredCache(old(completedResults)[jobId := result],
                                              old(completionOrder) + [jobId], maxCompletedResults)
      ensures jobs == old(jobs) && jobTopN == old(jobTopN) && files == old(files)
    {
      completedResults := completedResults[jobId := result];
      completionOrder := completionOrder + [jobId];
      ghost var order, cache := completionOrder, completedResults;
      ghost var polled := 0;
      while |completionOrder| > maxCompletedResults
        invariant polled <= Evictions(order, maxCompletedResults)
        invariant completionOrder == order[polled..]
        invariant completedResults == cache - Polled(order, polled)
        invariant jobs == old(jobs) && jobTopN == old(jobTopN) && files == old(files)
        decreases |completionOrder|
      {
        // pollFirst: the deque holds more than a non-negative number of ids, so it is not empty
        EvictStep(cache, order, polled);
        var evict := completionOrder[0];
        completionOrder := completionOrder[1..];
        completedResults := completedResults - {evict};
        polled := polled + 1;
      }
    }
  }

}
