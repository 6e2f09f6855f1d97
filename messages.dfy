/**
 * The records exchanged between the producer, the workers and the aggregator.
 * They carry no logic of their own.
 */
module Messages {

  /** A (word, count) pair of a ranking; both records named WordCount in the source have this shape. */
  datatype WordCount = WordCount(word: string, count: int)

  /** One section task, sent by the producer to the workers. */
  datatype SectionMessage = SectionMessage(
    jobId: string,
    sectionId: int,
    totalSections: int,
    topN: int,
    text: string
  )

  /** The analytics of one section, sent by a worker to the aggregator. */
  datatype ResultMessage = ResultMessage(
    jobId: string,
    sectionId: int,
    totalSections: int,
    topN: int,
    wordCount: int,
    wordFreq: map<string, int>,
    topWords: seq<WordCount>,
    sentimentScore: real,
    anonymizedText: string,
    sortedSentences: seq<string>
  )

  /** The report of a job: a finalized result or a snapshot of a live job. */
  datatype AggregatedJobResult = AggregatedJobResult(
    jobId: string,
    totalSections: int,
    totalWordCount: int,
    topWords: seq<WordCount>,
    averageSentiment: real,
    anonymizedText: string,
    sortedSentences: seq<string>
  )

}
