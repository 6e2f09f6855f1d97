# Text analytics pipeline: a verified model of its core

The pipeline analyses a text in three stages. Each stage is a service that exchanges
messages with the next one.

- **Producer.** `TextSplitter` cuts the text into sentences. It groups the sentences into
  sections of `sentencesPerSection` sentences. `JobStarterService.startJob` then publishes one
  `SectionMessage` per section. The messages are numbered `0 .. n-1`, and each one carries the
  job id, `n` and the requested top-N.
- **Worker.** `TextProcessingService.processSection` computes the analytics of one section:
  - the word frequencies of the lowercased text and their total;
  - the top-N words, by count descending, then by word ascending;
  - a sentiment score, from a `SentimentLexicon` of positive and negative words;
  - the anonymised text;
  - the sentences sorted stably by length.
- **Aggregator.** `AggregationService` routes each `ResultMessage` to the `JobAggregate` of its
  job.
  - The aggregate stores each section id once and keeps running totals.
  - Once the aggregate holds at least `totalSections` results, the service finalizes the job:
    it writes the report, caches it and drops the live job.
  - The cache of finished reports is bounded and evicts in order of completion, oldest first.

The model has one Dafny module per core class. There are also shared modules:

- `Messages`: the records exchanged between the services.
- `Strings`: the parts of `java.lang.String` and `java.util.regex` the core relies on.
- `Summation`: sums over maps.
- `Ranking`: the top-N stream pipeline.
- `SentenceSort`: the stable sort by length.

Each service whose state the source updates in place is a Dafny class. The class holds the
state its modelled methods read and write, and each method is proved against a specification
function. Injected collaborators became fields or parameters, as listed under "Left out":

- `JobAggregate`.
- `AggregationService`. The completion deque is a `seq<string>`, oldest first. Because the
  `ObjectMapper` and the results directory are not modelled, the written files are a
  `files` map.
- `TextSplitter`.
- `JobStarterService`. The `SectionProducer` is a `published` `seq` of the messages sent.
- `TextProcessingService`. It keeps its `SentimentLexicon` and holds the text operations taken
  as given in a field `ops`.

- `JobAggregate`
- `AggregationService`
- `TextSplitter`
- `JobStarterService`, whose published messages are a `seq` field
- `TextProcessingService`

`Ranking`, `SentimentLexicon` and the report are stream pipelines, so they are functions.

## Model

All paths are relative to the repository root.

| member | source | states |
|---|---|---|
| Strings.TrimEnds | producer/src/main/java/org/itmo/producer/text/TextSplitter.java:50 | a trimmed string is empty, or it begins and ends with a character above U+0020 |
| Strings.TrimKeepsMiddle | producer/src/main/java/org/itmo/producer/text/TextSplitter.java:50 | `trim` keeps one contiguous middle part of the string, character for character |
| Strings.TrimDropsControls | producer/src/main/java/org/itmo/producer/text/TextSplitter.java:50 | everything `trim` removes on either side is a character up to U+0020 |
| Strings.TrimIdempotent | producer/src/main/java/org/itmo/producer/text/TextSplitter.java:50 | trimming twice is trimming once |
| Strings.LeadingShape | producer/src/main/java/org/itmo/producer/text/TextSplitter.java:50 | the leading run `trim` removes is made of characters up to U+0020, and the character after it is above U+0020 |
| Strings.TrailingShape | producer/src/main/java/org/itmo/producer/text/TextSplitter.java:50 | the same for the trailing run |
| Strings.LowerCaseIdempotent | worker/src/main/java/org/itmo/worker/sentiment/SentimentLexicon.java:61 | with an idempotent case mapping, lowercasing a lowercased string changes nothing |
| Strings.IndexOf | worker/src/main/java/org/itmo/worker/sentiment/SentimentLexicon.java:57 | `indexOf('#')` is -1 exactly when there is no `#`; otherwise it is the position of the first `#` |
| Strings.StrLessTransitive | aggregator/src/main/java/org/itmo/aggregator/model/JobAggregate.java:80 | the key order `compareTo` uses is transitive |
| Strings.StrLessAsymmetric | aggregator/src/main/java/org/itmo/aggregator/model/JobAggregate.java:80 | the key order is asymmetric |
| Strings.StrLessConnected | aggregator/src/main/java/org/itmo/aggregator/model/JobAggregate.java:80 | any two different keys are ordered one way or the other |
| Strings.StrLessIrreflexive | aggregator/src/main/java/org/itmo/aggregator/model/JobAggregate.java:80 | no key sorts before itself |
| Strings.SplitRoundTrip | producer/src/main/java/org/itmo/producer/text/TextSplitter.java:46 | the split loses nothing: the pieces, with the consumed white-space runs put back between them, rebuild the text |
| Strings.SplitGapsAreSpace | producer/src/main/java/org/itmo/producer/text/TextSplitter.java:46 | every consumed run is a non-empty run of `\s` |
| Strings.FirstPieceIsPrefix | producer/src/main/java/org/itmo/producer/text/TextSplitter.java:46 | the first piece of the split is a prefix of the text |
| Strings.SplitGapsAreMaximal | producer/src/main/java/org/itmo/producer/text/TextSplitter.java:46 | the `\s+` is greedy: no piece after a match starts with white space. With the round trip, the gaps and the no-break lemma, this pins down the split |
| Strings.SplitPiecesEndWithTerminator | producer/src/main/java/org/itmo/producer/text/TextSplitter.java:46 | every piece but the last is non-empty and ends with `.`, `!` or `?` |
| Strings.SplitPiecesHaveNoBreak | producer/src/main/java/org/itmo/producer/text/TextSplitter.java:46 | no piece contains a place where the pattern matches, so the pieces are maximal |
| Strings.KeepNonBlankStep | producer/src/main/java/org/itmo/producer/text/TextSplitter.java:48-52 | one more piece is dropped when blank and otherwise appended trimmed |
| Strings.KeepNonBlankTrimmed | producer/src/main/java/org/itmo/producer/text/TextSplitter.java:48-52 | every kept sentence is already trimmed |
| Strings.KeepNonBlankKeepsNonBlank | producer/src/main/java/org/itmo/producer/text/TextSplitter.java:48-52 | a kept sentence that is not blank stays non-empty when trimmed again |
| Strings.KeepNonBlankOfBlank | producer/src/main/java/org/itmo/producer/text/TextSplitter.java:48-52 | when every piece is blank, nothing is kept |
| Strings.SplitOfBlank | producer/src/main/java/org/itmo/producer/text/TextSplitter.java:46 | a blank text is split into itself alone |
| Strings.BlankTextHasNoSentences | producer/src/main/java/org/itmo/producer/text/TextSplitter.java:45-54 | an empty or blank text has no sentences |
| Ranking.PrecedesTransitive | aggregator/src/main/java/org/itmo/aggregator/model/JobAggregate.java:79-80 | the comparator (count descending, then word ascending) is transitive |
| Ranking.PrecedesAsymmetric | aggregator/src/main/java/org/itmo/aggregator/model/JobAggregate.java:79-80 | the comparator is asymmetric |
| Ranking.PrecedesTotal | aggregator/src/main/java/org/itmo/aggregator/model/JobAggregate.java:79-80 | the comparator orders any two entries with different words |
| Ranking.FirstExists | aggregator/src/main/java/org/itmo/aggregator/model/JobAggregate.java:78-80 | a non-empty map has an entry that sorts before all the others |
| Ranking.FirstUnique | aggregator/src/main/java/org/itmo/aggregator/model/JobAggregate.java:78-80 | that first entry is unique |
| Ranking.RankedEntries | aggregator/src/main/java/org/itmo/aggregator/model/JobAggregate.java:78-80 | the sorted entry list lists every entry of the map once and nothing else |
| Ranking.RankedSorted | aggregator/src/main/java/org/itmo/aggregator/model/JobAggregate.java:78-80 | the sorted entry list is in strictly increasing comparator order |
| Ranking.RankedHead | aggregator/src/main/java/org/itmo/aggregator/model/JobAggregate.java:78-80 | any strictly ranked list of exactly the map's entries starts with the first entry |
| Ranking.RankedTail | aggregator/src/main/java/org/itmo/aggregator/model/JobAggregate.java:78-80 | and its tail is the strictly ranked list of the remaining entries |
| Ranking.RankingIsUnique | aggregator/src/main/java/org/itmo/aggregator/model/JobAggregate.java:78-80 | there is only one way to sort the entries, so the HashMap's iteration order cannot change the result |
| Ranking.PrefixRanksFirst | aggregator/src/main/java/org/itmo/aggregator/model/JobAggregate.java:81 | `limit(k)` takes the best `k` entries: every omitted entry ranks below every kept one |
| Ranking.TopN | aggregator/src/main/java/org/itmo/aggregator/model/JobAggregate.java:75-84 | `computeTopN` (identical to worker/src/main/java/org/itmo/worker/service/TextProcessingService.java:71-78) fails exactly when `n < 0`; otherwise it has length min(n, number of entries), is strictly ranked, holds only map entries and ranks every omitted entry below every included one |
| SentenceSort.InsertSorted | aggregator/src/main/java/org/itmo/aggregator/model/JobAggregate.java:62 | inserting into a list sorted by length keeps it sorted |
| SentenceSort.InsertPermutes | aggregator/src/main/java/org/itmo/aggregator/model/JobAggregate.java:62 | inserting adds exactly the one element |
| SentenceSort.InsertOfLength | aggregator/src/main/java/org/itmo/aggregator/model/JobAggregate.java:62 | inserting puts the element before every element of its own length |
| SentenceSort.SortByLengthSorted | aggregator/src/main/java/org/itmo/aggregator/model/JobAggregate.java:62 | the sort by length is non-decreasing in length and is a permutation of its input |
| SentenceSort.SortByLengthStable | aggregator/src/main/java/org/itmo/aggregator/model/JobAggregate.java:62 | elements of equal length keep their input order |
| SentenceSort.StableSortIsUnique | aggregator/src/main/java/org/itmo/aggregator/model/JobAggregate.java:62 | two length-sorted lists whose elements of each length agree, in the same order, are equal |
| SentenceSort.StableSortCharacterized | worker/src/main/java/org/itmo/worker/service/TextProcessingService.java:122 | any stable sort by length of a list gives exactly `SortByLength` of it |
| JobAggregates.MergeCommutative | aggregator/src/main/java/org/itmo/aggregator/model/JobAggregate.java:31-35 | merging frequency maps by `Long::sum` is commutative |
| JobAggregates.MergeAssociative | aggregator/src/main/java/org/itmo/aggregator/model/JobAggregate.java:31-35 | merging frequency maps is associative |
| JobAggregates.MergeEmpty | aggregator/src/main/java/org/itmo/aggregator/model/JobAggregate.java:31-35 | merging an empty section map changes nothing |
| JobAggregates.TakenStep | aggregator/src/main/java/org/itmo/aggregator/model/JobAggregate.java:32-34 | visiting one more entry of the local map moves it from the rest to the part already merged |
| JobAggregates.WordTotalInsert | aggregator/src/main/java/org/itmo/aggregator/model/JobAggregate.java:25 | storing a new section adds its word count to the total |
| JobAggregates.NetSentimentInsert | aggregator/src/main/java/org/itmo/aggregator/model/JobAggregate.java:27 | storing a new section adds its score times its word count to the weighted sum |
| JobAggregates.MergeOrderIrrelevant | aggregator/src/main/java/org/itmo/aggregator/model/JobAggregate.java:26 | merging two sections' maps in either order gives the same global map |
| JobAggregates.MergeStep | aggregator/src/main/java/org/itmo/aggregator/model/JobAggregate.java:33 | one `merge(w, v, Long::sum)` adds `v` to the count of `w`, or inserts `v` when `w` is new |
| JobAggregates.MergedFreqEntry | aggregator/src/main/java/org/itmo/aggregator/model/JobAggregate.java:26 | the merged map holds exactly the words some stored section counts, each with its total count over all sections |
| JobAggregates.MergedFreqInsert | aggregator/src/main/java/org/itmo/aggregator/model/JobAggregate.java:24-26 | storing a new section merges its frequency map into the pointwise sum |
| JobAggregates.StoreSection | aggregator/src/main/java/org/itmo/aggregator/model/JobAggregate.java:24-27 | storing a new section adds its word count, its weighted sentiment and its frequencies to the totals over the stored sections |
| JobAggregates.EmptyTotals | aggregator/src/main/java/org/itmo/aggregator/model/JobAggregate.java:14-16 | with no section the totals are 0, 0.0 and the empty map |
| JobAggregates.Range | producer/src/main/java/org/itmo/producer/service/JobStarterService.java:32-36 | the ids `0 .. n-1`, exactly `n` of them |
| JobAggregates.CompleteIffAllReceived | aggregator/src/main/java/org/itmo/aggregator/model/JobAggregate.java:37-39 | when the section ids are among `0 .. expected-1`, the `>=` test holds exactly when every one of those ids has been received |
| JobAggregates.LeastExists | aggregator/src/main/java/org/itmo/aggregator/model/JobAggregate.java:53 | a non-empty set of section ids has a least element |
| JobAggregates.SortedIds | aggregator/src/main/java/org/itmo/aggregator/model/JobAggregate.java:53 | the stored ids in strictly ascending order, each exactly once |
| JobAggregates.InOrderSorted | aggregator/src/main/java/org/itmo/aggregator/model/JobAggregate.java:52-53 | the sections sorted by `sectionId` list every stored section, in strictly ascending id order |
| JobAggregates.GlueStep | aggregator/src/main/java/org/itmo/aggregator/model/JobAggregate.java:55-58 | the two appends of the loop body put `"\n\n"` in only after a non-empty text |
| JobAggregates.DropLeadingEmptyAppend | aggregator/src/main/java/org/itmo/aggregator/model/JobAggregate.java:55-58 | how the empty texts at the front of the texts seen so far change when one more text is appended |
| JobAggregates.JoinSectionsIsJoin | aggregator/src/main/java/org/itmo/aggregator/model/JobAggregate.java:49-60 | the StringBuilder loop is `String.join("\n\n", …)` of the texts, except that empty texts before the first non-empty one leave no separator |
| JobAggregates.ReportStep | aggregator/src/main/java/org/itmo/aggregator/model/JobAggregate.java:54-59 | one more section glues one more text and appends one more sentence list |
| JobAggregates.AverageSentiment | aggregator/src/main/java/org/itmo/aggregator/model/JobAggregate.java:45-47 | the average is 0 when there are no words, and lies in [-1, 1] when the weighted sum lies between minus and plus the word total |
| JobAggregates.NetSentimentBounded | aggregator/src/main/java/org/itmo/aggregator/model/JobAggregate.java:27 | when each section's score is in [-1, 1] and its word count is not negative, the weighted sum lies between minus and plus the word total |
| JobAggregates.ReportOfProperties | aggregator/src/main/java/org/itmo/aggregator/model/JobAggregate.java:41-73 | the report fails exactly for a negative topN. Otherwise it carries the job id, `expectedSections` and the word total, plus the top-N of the merged map with its length and order. It also carries the guarded average, the texts joined in section order, and the concatenated sentence lists as a length-sorted, stable permutation |
| JobAggregates.JobAggregate.constructor | aggregator/src/main/java/org/itmo/aggregator/model/JobAggregate.java:18-21 | a new aggregate stores nothing, all totals are zero, and `expectedSections` is fixed |
| JobAggregates.JobAggregate.AddSectionResult | aggregator/src/main/java/org/itmo/aggregator/model/JobAggregate.java:23-29 | a known section id changes no field; a new one is stored, and its word count, frequencies and weighted score are added. The invariant that the totals are sums over the stored sections is kept |
| JobAggregates.JobAggregate.MergeFreq | aggregator/src/main/java/org/itmo/aggregator/model/JobAggregate.java:31-35 | the loop of `merge` calls, in any order of the entries, leaves `Merge(old globalFreq, local)` and changes nothing else |
| JobAggregates.JobAggregate.ToAggregatedResult | aggregator/src/main/java/org/itmo/aggregator/model/JobAggregate.java:41-73 | the report built from the running totals is the report of the stored sections |
| JobAggregates.JobAggregate.CollectInOrder | aggregator/src/main/java/org/itmo/aggregator/model/JobAggregate.java:49-60 | the `forEach` over the sections sorted by id builds the glued texts and the concatenated sentence lists |
| Aggregation.Evictions | aggregator/src/main/java/org/itmo/aggregator/service/AggregationService.java:90-95 | the loop polls exactly as many ids as the deque holds beyond the capacity, so the deque ends at most at capacity |
| Aggregation.StoredOrder | aggregator/src/main/java/org/itmo/aggregator/service/AggregationService.java:88-95 | after the loop the deque holds the newest min(size, capacity) ids in order |
| Aggregation.PolledStep | aggregator/src/main/java/org/itmo/aggregator/service/AggregationService.java:91 | one more poll adds the next front id to the polled ids |
| Aggregation.EvictStep | aggregator/src/main/java/org/itmo/aggregator/service/AggregationService.java:91-93 | one more poll removes the next front id from the deque and from the cache |
| Aggregation.KeptUnlessPolled | aggregator/src/main/java/org/itmo/aggregator/service/AggregationService.java:90-94 | an id of the deque that the loop did not poll is still in the deque |
| Aggregation.CacheWithinOrder | aggregator/src/main/java/org/itmo/aggregator/service/AggregationService.java:87-94 | every cached id stays in the deque |
| Aggregation.CacheBounded | aggregator/src/main/java/org/itmo/aggregator/service/AggregationService.java:87-95 | so the cache never holds more reports than the deque holds ids, which is at most the capacity |
| Aggregation.EvictionIsOldestFirst | aggregator/src/main/java/org/itmo/aggregator/service/AggregationService.java:90-94 | a cached report is dropped exactly when its id is among the polled front ids; kept reports are unchanged |
| Aggregation.StoredOrderWindow | aggregator/src/main/java/org/itmo/aggregator/service/AggregationService.java:88-95 | running the loop after every store leaves the newest `capacity` ids of the whole completion history |
| Aggregation.NewestIsCached | aggregator/src/main/java/org/itmo/aggregator/service/AggregationService.java:86-95 | with capacity at least 1, a job finalized for the first time can be read back from the cache |
| Aggregation.RefinalizedResultEvicted | aggregator/src/main/java/org/itmo/aggregator/service/AggregationService.java:86-95 | for any deque and capacity: a job finalized again while an older copy of its id is among the polled ids loses its fresh report, because polling the older copy removes the entry both copies share. With room for one id, the new copy stays in the deque |
| Aggregation.RefinalizedTwiceInARow | aggregator/src/main/java/org/itmo/aggregator/service/AggregationService.java:86-95 | for instance, a job finalized twice in a row into a deque of capacity 1 is no longer cached, though its id is |
| Aggregation.UpdateThenRemove | aggregator/src/main/java/org/itmo/aggregator/service/AggregationService.java:81-84 | removing a key undoes any update of it |
| Aggregation.AggregationService.constructor | aggregator/src/main/java/org/itmo/aggregator/service/AggregationService.java:29-35 | a new service holds no job, caches nothing and records the capacity |
| Aggregation.AggregationService.HandleSectionResult | aggregator/src/main/java/org/itmo/aggregator/service/AggregationService.java:37-55 | see the paragraph below the table |
| Aggregation.AggregationService.Admit | aggregator/src/main/java/org/itmo/aggregator/service/AggregationService.java:40-46 | `putIfAbsent`, `computeIfAbsent` and `addSectionResult`: the first topN and the first `totalSections` win, and only the job's aggregate changes |
| Aggregation.AggregationService.AddToLive | aggregator/src/main/java/org/itmo/aggregator/service/AggregationService.java:42-46 | a live job: the result is added to its existing aggregate |
| Aggregation.AggregationService.StartLive | aggregator/src/main/java/org/itmo/aggregator/service/AggregationService.java:40-46 | a job that is not live (new, or already cleaned up) gets the result's topN and a fresh aggregate holding only this result |
| Aggregation.AggregationService.NewAggregate | aggregator/src/main/java/org/itmo/aggregator/service/AggregationService.java:44-46 | a fresh aggregate with the result's job id and `totalSections`, holding only this result |
| Aggregation.AggregationService.Finish | aggregator/src/main/java/org/itmo/aggregator/service/AggregationService.java:51-53 | after the write: the file holds the report, the report is cached with eviction, and the job leaves the live maps. It keeps `Valid`, which includes that the cache holds at most `maxCompletedResults` reports |
| Aggregation.AggregationService.GetResult | aggregator/src/main/java/org/itmo/aggregator/service/AggregationService.java:68-79 | the cached report first, then a snapshot of the live job with the query's topN (or the ranking error), otherwise null; nothing changes |
| Aggregation.AggregationService.CleanupJob | aggregator/src/main/java/org/itmo/aggregator/service/AggregationService.java:81-84 | the job leaves `jobs` and `jobTopN` and nothing else changes |
| Aggregation.AggregationService.StoreCompletedResult | aggregator/src/main/java/org/itmo/aggregator/service/AggregationService.java:86-95 | the report is cached, its id appended, and ids polled from the front (each removed from the cache) until the deque fits the capacity |
| TextSplitting.GroupSize | producer/src/main/java/org/itmo/producer/text/TextSplitter.java:29-31 | the `count >= k` test closes a section after `k` sentences, or after every sentence when `k <= 0` |
| TextSplitting.ChunksShape | producer/src/main/java/org/itmo/producer/text/TextSplitter.java:21-41 | groups are non-empty, and there are none exactly when there are no sentences |
| TextSplitting.ChunkSizes | producer/src/main/java/org/itmo/producer/text/TextSplitter.java:21-41 | every group but the last holds `g` sentences and the last 1 to `g` |
| TextSplitting.ChunkCount | producer/src/main/java/org/itmo/producer/text/TextSplitter.java:21-41 | there are ceil(m / g) groups for m sentences |
| TextSplitting.JoinChunks | producer/src/main/java/org/itmo/producer/text/TextSplitter.java:25-28 | joining the joined groups with a space is joining all the sentences with a space |
| TextSplitting.GroupedNonEmpty | producer/src/main/java/org/itmo/producer/text/TextSplitter.java:22-28 | every sentence the loop appends is non-empty |
| TextSplitting.KeepNonBlankNonEmpty | producer/src/main/java/org/itmo/producer/text/TextSplitter.java:22-28 | when no non-blank string trims to nothing, every kept string is non-empty |
| TextSplitting.SectionsNonEmpty | producer/src/main/java/org/itmo/producer/text/TextSplitter.java:25-41 | every returned section is non-empty |
| TextSplitting.JoinEachNonEmpty | producer/src/main/java/org/itmo/producer/text/TextSplitter.java:25-41 | groups of non-empty sentences join into non-empty sections |
| TextSplitting.SectionSizes | producer/src/main/java/org/itmo/producer/text/TextSplitter.java:21-41 | with `k >= 1`, every section but the last groups exactly `k` sentences and the last 1 to `k`, giving ceil(m / k) sections for m sentences |
| TextSplitting.JoinEachLength | producer/src/main/java/org/itmo/producer/text/TextSplitter.java:32 | one section per group |
| TextSplitting.OneSentencePerSection | producer/src/main/java/org/itmo/producer/text/TextSplitter.java:29-35 | with `k <= 0` every sentence is a section of its own |
| TextSplitting.SingletonChunks | producer/src/main/java/org/itmo/producer/text/TextSplitter.java:29-35 | groups of one, joined, are the sentences themselves |
| TextSplitting.SectionsJoinToSentences | producer/src/main/java/org/itmo/producer/text/TextSplitter.java:25-28 | joining the sections with a space equals joining the sentences with a space: order is kept and nothing is dropped |
| TextSplitting.BlankTextHasNoSections | producer/src/main/java/org/itmo/producer/text/TextSplitter.java:38 | an empty or blank text gives no section |
| TextSplitting.RunSnoc | producer/src/main/java/org/itmo/producer/text/TextSplitter.java:21-36 | one more iteration of the for loop is one more `Step` |
| TextSplitting.RunMeaning | producer/src/main/java/org/itmo/producer/text/TextSplitter.java:21-36 | the closed sections are whole groups, joined; `current` joins the open group; `count` is its size, below the group size |
| TextSplitting.CloseFullGroup | producer/src/main/java/org/itmo/producer/text/TextSplitter.java:31-35 | reaching the count closes the group as one more section |
| TextSplitting.ExtendGroup | producer/src/main/java/org/itmo/producer/text/TextSplitter.java:25-29 | below the count, the sentence joins the open group after one space |
| TextSplitting.RunClosed | producer/src/main/java/org/itmo/producer/text/TextSplitter.java:38-40 | flushing a non-empty `current` after the loop gives exactly the groups of the sentences, joined |
| TextSplitting.AppendSentence | producer/src/main/java/org/itmo/producer/text/TextSplitter.java:25-28 | the space goes in only when `current` is non-empty |
| TextSplitting.CloseGroup | producer/src/main/java/org/itmo/producer/text/TextSplitter.java:31-33 | closing a group after whole groups adds its joined text as one more section |
| TextSplitting.LastGroupEmpty | producer/src/main/java/org/itmo/producer/text/TextSplitter.java:38 | an empty `current` means an empty open group |
| TextSplitting.TextSplitter.constructor | producer/src/main/java/org/itmo/producer/text/TextSplitter.java:10-12 | the splitter keeps `sentencesPerSection` |
| TextSplitting.TextSplitter.SplitIntoSections | producer/src/main/java/org/itmo/producer/text/TextSplitter.java:14-43 | the loop returns the non-blank sentences cut into groups of `GroupSize(k)`, each joined with one space |
| TextSplitting.TextSplitter.SplitIntoSentences | producer/src/main/java/org/itmo/producer/text/TextSplitter.java:45-54 | the pieces of the regex split, blank ones dropped and the rest trimmed |
| JobStarting.TextsOfTasks | producer/src/main/java/org/itmo/producer/service/JobStarterService.java:33-41 | the i-th task carries the i-th section's text |
| JobStarting.TasksNumbered | producer/src/main/java/org/itmo/producer/service/JobStarterService.java:29-41 | one task per section, the i-th with `sectionId = i`, all with the same job id, topN and `totalSections = n`. So the ids are exactly `0 .. n-1` |
| JobStarting.DeliveredTasksCompleteJob | producer/src/main/java/org/itmo/producer/service/JobStarterService.java:32-37 | this numbering completes the aggregator's `>=` test exactly when a result for every task is stored |
| JobStarting.TasksPrefix | producer/src/main/java/org/itmo/producer/service/JobStarterService.java:33-42 | one iteration publishes the next task |
| JobStarting.TasksCoverText | producer/src/main/java/org/itmo/producer/service/JobStarterService.java:27-43 | the tasks' texts are non-empty and, joined with a space, give the job's sentences joined with a space |
| JobStarting.BlankTextStartsNoTask | producer/src/main/java/org/itmo/producer/service/JobStarterService.java:27-43 | an empty or blank text publishes no task |
| JobStarting.JobStarterService.constructor | producer/src/main/java/org/itmo/producer/service/JobStarterService.java:19-21 | nothing published yet |
| JobStarting.JobStarterService.SendSection | producer/src/main/java/org/itmo/producer/service/JobStarterService.java:42 | a send appends exactly the message to the queue |
| JobStarting.JobStarterService.StartJob | producer/src/main/java/org/itmo/producer/service/JobStarterService.java:23-46 | returns the given id and appends exactly the job's tasks, in section order, to what was published before |
| TextProcessing.RunLength | worker/src/main/java/org/itmo/worker/service/TextProcessingService.java:17 | a match of `\p{L}+` is a maximal run of letters |
| TextProcessing.LettersOfRun | worker/src/main/java/org/itmo/worker/service/TextProcessingService.java:63-67 | a prefix of letters is kept whole among the letters of the text |
| TextProcessing.LetterRunsCoverLetters | worker/src/main/java/org/itmo/worker/service/TextProcessingService.java:63-67 | the matches are non-empty runs of letters and, concatenated, are exactly the letters of the text in order |
| TextProcessing.TallyCounts | worker/src/main/java/org/itmo/worker/service/TextProcessingService.java:61-69 | the frequency map holds exactly the words that occur, each with its number of occurrences, so every frequency is at least 1 |
| TextProcessing.TallySum | worker/src/main/java/org/itmo/worker/service/TextProcessingService.java:61-69 | the frequencies add up to the number of matches |
| TextProcessing.TallyStep | worker/src/main/java/org/itmo/worker/service/TextProcessingService.java:66 | one `merge(word, 1L, Long::sum)` per match |
| TextProcessing.RatioBounded | worker/src/main/java/org/itmo/worker/service/TextProcessingService.java:95 | a quotient whose numerator is bounded in absolute value by its positive denominator lies in [-1, 1] |
| TextProcessing.TallyBounded | worker/src/main/java/org/itmo/worker/service/TextProcessingService.java:84-94 | positive and negative words are tallied from disjoint parts of the map, so with non-negative counts both tallies are non-negative and add up to at most the total |
| TextProcessing.SentimentBounded | worker/src/main/java/org/itmo/worker/service/TextProcessingService.java:80-96 | so the score with `totalWords` the sum of the frequencies lies in [-1, 1] |
| TextProcessing.NoWordsNoSentiment | worker/src/main/java/org/itmo/worker/service/TextProcessingService.java:81-83 | a text without words scores 0 |
| TextProcessing.TallyOfNothing | worker/src/main/java/org/itmo/worker/service/TextProcessingService.java:84-85 | an empty map tallies 0 positive and 0 negative |
| TextProcessing.TallyEntry | worker/src/main/java/org/itmo/worker/service/TextProcessingService.java:86-94 | an entry counts towards `pos` when its word is positive, towards `neg` when it is negative and not positive, and towards neither otherwise |
| TextProcessing.ResultOfProperties | worker/src/main/java/org/itmo/worker/service/TextProcessingService.java:31-58 | see the paragraph below the table |
| TextProcessing.TextProcessingService.constructor | worker/src/main/java/org/itmo/worker/service/TextProcessingService.java:27-29 | the service keeps its lexicon |
| TextProcessing.TextProcessingService.ProcessSection | worker/src/main/java/org/itmo/worker/service/TextProcessingService.java:31-58 | the record built from the helper methods is the section's result |
| TextProcessing.TextProcessingService.CountWordFrequencies | worker/src/main/java/org/itmo/worker/service/TextProcessingService.java:61-69 | the matcher loop builds the tally of the words of the lowercased text |
| TextProcessing.TextProcessingService.TotalWords | worker/src/main/java/org/itmo/worker/service/TextProcessingService.java:35 | the sum over the values, in any order, is the sum of the frequencies |
| TextProcessing.TextProcessingService.ComputeSentiment | worker/src/main/java/org/itmo/worker/service/TextProcessingService.java:80-96 | 0 for no words, else `(pos - neg) / totalWords` |
| TextProcessing.TextProcessingService.TallyPolarity | worker/src/main/java/org/itmo/worker/service/TextProcessingService.java:84-94 | the loop over the entries, in any order, computes the positive and the negative tally |
| TextProcessing.TextProcessingService.SortSentencesByLength | worker/src/main/java/org/itmo/worker/service/TextProcessingService.java:114-124 | the trimmed non-blank pieces of the split, sorted stably by length |
| Lexicons.TrimKeepsOut | worker/src/main/java/org/itmo/worker/sentiment/SentimentLexicon.java:55 | trimming adds no character |
| Lexicons.NormalizeStripsComment | worker/src/main/java/org/itmo/worker/sentiment/SentimentLexicon.java:55-59 | a normalised line has no `#`. Without a `#` it is the trimmed line; with one it is the trimmed text before the first `#` |
| Lexicons.LoadWordsMembers | worker/src/main/java/org/itmo/worker/sentiment/SentimentLexicon.java:48-62 | a null resource loads nothing; otherwise the words are exactly the lowercased forms of the lines whose normalised form is non-empty |
| Lexicons.WordOfShape | worker/src/main/java/org/itmo/worker/sentiment/SentimentLexicon.java:55-61 | a loaded line's word is non-empty. It is in lowercase when the case mapping is idempotent, and it has no `#` when the case mapping never produces one |
| Lexicons.LoadedWordShape | worker/src/main/java/org/itmo/worker/sentiment/SentimentLexicon.java:54-62 | so every stored word has that shape |
| Lexicons.LexiconMembership | worker/src/main/java/org/itmo/worker/sentiment/SentimentLexicon.java:28-38 | `isPositive` and `isNegative` are exactly membership in the respective loaded sets, and never hold for the empty word or a word with `#` |

**HandleSectionResult.** The outcome is one of four:

- pending, when the job is not complete;
- a ranking failure, for a negative topN;
- a write failure;
- finalized.

The ranking is computed with the first topN recorded while the job is live. The aggregate has
the first `totalSections` and the result stored. When the job is finalized, the file and the
cache hold the report, the deque is updated with eviction, and the job leaves `jobs` and
`jobTopN`. In every other outcome the job stays live with the result added, and nothing is
cached or written.

**ResultOfProperties.** The result fails exactly for a negative topN. Otherwise it:

- copies the ids and the topN from the section;
- counts each word of the lowercased text as often as it occurs, so the word count is the
  number of words;
- carries the top-N of those frequencies;
- scores in [-1, 1], and exactly 0 when there are no words;
- carries the text's sentences as a length-sorted, stable permutation.

## Left out

- **Concurrency.** The concurrent maps and deque, `synchronized`, and the window between
  `isComplete` and `cleanupJob` in which two threads can both finalize are not modelled. The
  model is sequential.
- **Floating point.** `double` is modelled as `real`, and the JSON `long` values as unbounded
  integers. Rounding and overflow are not modelled.
- **Writing the JSON file.** `writeResultToFile` is a boolean parameter, `writeSucceeds`, plus a
  map `files` from job id to the report last written. No directory or serialisation is modelled.
- **Things taken as given.**
  - The regex name anonymiser is a function parameter, `TextOps.anonymize`.
  - `\p{L}` is a parameter, `TextOps.isLetter`.
  - `toLowerCase` is a parameter, a per-`char` mapping `lower`. A case mapping that changes the
    length of a string (such as U+0130) is not modelled.
  - `UUID.randomUUID()` is the parameter `uuid` of `StartJob`.
- **The `tasks` list of `SectionMessage`** (`List.copyOf(EnumSet.allOf(TaskType.class))`).
  `TaskType` is not part of this model, and no modelled code reads the list.
- **Reading the lexicon resources.** The lines are an `Option<seq<string>>`: `None` is a null
  resource and `Some` holds the lines. IOException is not modelled, and neither is the
  TreeSet's order, since only membership is used.
- **Strings as code points.** A Java `String` is a sequence of UTF-16 code units; the model's
  strings are sequences of Dafny `char`s, which are Unicode scalar values. So the model agrees
  with Java only on text made of Basic Multilingual Plane characters. Outside it, Java counts a
  supplementary character (such as U+1F600) as two units and the model as one. This affects:
  - the length key of both sorts by length, so `["ab", "😀"]` keeps its order in Java but
    not in the model;
  - the word order of `compareTo`. Java compares surrogate values, so U+1F600 sorts before
    U+FF21, while the model's lexicographic order on `char`s puts it after.

  The `anonymized.length() > 0` test of the report's builder
  (aggregator/src/main/java/org/itmo/aggregator/model/JobAggregate.java:55) is not affected. It
  only asks whether the builder is empty, and both units agree on that.
- **Context-dependent lower-casing.** The model lowercases each character on its own, so
  mappings that depend on the neighbouring characters (such as the Greek final sigma) are not
  modelled.
- **The controllers, listeners, the RabbitMQ configuration and the performance scripts.**
- Aggregation.AggregationService.constructor: requires `maxCompletedResults >= 0`. With a
  negative capacity, `storeCompletedResult` polls an empty deque forever.
- Aggregation.AggregationService.StartLive: `jobTopN.putIfAbsent` and `computeIfAbsent` are
  modelled in one step; the source does them in two.
- TextProcessing.TextProcessingService.TotalWords: the stream sum is modelled as a loop over
  the entries.
- TextProcessing.TextProcessingService.TallyPolarity: holds the loop of `computeSentiment` as a
  method of its own.
- The in-place sorts (`List.sort`) are modelled on values: `SortByLength` is an insertion sort,
  proved to be the unique stable sort by length. Aliasing of the sorted lists is not modelled.
- `String.split` drops trailing empty pieces. The model keeps them: they are blank, and both
  sentence splitters drop blank pieces anyway.
- Java's `trim` removes characters up to U+0020, but `isBlank` tests `Character.isWhitespace`.
  So a piece such as "\u0001" is not blank and trims to "". The worker keeps such an empty
  sentence, as the source does, while the splitter's second `isBlank` test drops it.
