/**
 * The producer's `startJob`: the text is split into sections and one section task per
 * section is published, numbered in order, each carrying the job's id, the number of
 * sections and the requested top-N.
 */
module JobStarting {

  import opened Messages
  import opened Strings
  import opened TextSplitting
  import opened JobAggregates

  /** The task that announces section `i` of a job split into `sections`. */
  function TaskFor(jobId: string, sections: seq<string>, topN: int, i: int): SectionMessage
    requires 0 <= i < |sections|
  {
    SectionMessage(jobId, i, |sections|, topN, sections[i])
  }

  /** The tasks of a job, in the order they are published. */
  function TasksFor(jobId: string, sections: seq<string>, topN: int): seq<SectionMessage>
  {
    seq(|sections|, i requires 0 <= i < |sections| => TaskFor(jobId, sections, topN, i))
  }

  /** The section texts a list of tasks carries. */
  function TextsOf(tasks: seq<SectionMessage>): seq<string>
  {
    seq(|tasks|, i requires 0 <= i < |tasks| => tasks[i].text)
  }

  /** The set of section ids a list of tasks carries. */
  function IdsOf(tasks: seq<SectionMessage>): set<int>
  {
    set i | 0 <= i < |tasks| :: tasks[i].sectionId
  }

  /** Reading the texts back off the tasks gives the sections, in order. */
  lemma TextsOfTasks(jobId: string, sections: seq<string>, topN: int)
    ensures TextsOf(TasksFor(jobId, sections, topN)) == sections
  {
  }

  /**
   * The tasks of a job are numbered 0, 1, ... in order and each one announces the same job,
   * the same top-N and the number of tasks, so the aggregator sees exactly `totalSections`
   * distinct section ids.
   */
  lemma TasksNumbered(jobId: string, sections: seq<string>, topN: int)
    ensures var tasks := TasksFor(jobId, sections, topN);
      |tasks| == |sections| &&
      (forall i :: 0 <= i < |tasks| ==>
        tasks[i].jobId == jobId && tasks[i].sectionId == i &&
        tasks[i].totalSections == |tasks| && tasks[i].topN == topN) &&
      IdsOf(tasks) == Range(|tasks|) &&
      |IdsOf(tasks)| == |tasks|
  {
    var tasks := TasksFor(jobId, sections, topN);
    forall x | x in Range(|tasks|)
      ensures x in IdsOf(tasks)
    {
      assert tasks[x].sectionId == x;
    }
  }

  /**
   * The numbering is what the aggregator's completion test relies on: when results are stored
   * only under the ids of a job's tasks, the job is complete exactly when a result for every
   * task is stored.
   */
  lemma DeliveredTasksCompleteJob(jobId: string, sections: seq<string>, topN: int,
                                  stored: map<int, ResultMessage>)
    requires forall k :: k in stored ==> k in IdsOf(TasksFor(jobId, sections, topN))
    ensures var tasks := TasksFor(jobId, sections, topN);
      Complete(stored, |sections|) <==> forall i :: 0 <= i < |tasks| ==> tasks[i].sectionId in stored
  {
    var tasks := TasksFor(jobId, sections, topN);
    forall k | k in stored
      ensures 0 <= k < |sections|
    {
      var i :| 0 <= i < |tasks| && tasks[i].sectionId == k;
    }
    CompleteIffAllReceived(stored, |sections|);
    if forall i :: 0 <= i < |tasks| ==> tasks[i].sectionId in stored {
      forall i | 0 <= i < |sections|
        ensures i in stored
      {
        assert tasks[i].sectionId == i;
      }
    }
  }

  /** One more task published extends the published prefix by that task. */
  lemma TasksPrefix(jobId: string, sections: seq<string>, topN: int, i: int)
    requires 0 <= i < |sections|
    ensures TasksFor(jobId, sections, topN)[..i + 1] ==
      TasksFor(jobId, sections, topN)[..i] + [SectionMessage(jobId, i, |sections|, topN, sections[i])]
  {
  }

  /**
   * What a job's tasks carry, taken together: non-empty texts that, joined with single
   * spaces, give back the job's sentences joined the same way.
   */
  lemma TasksCoverText(jobId: string, text: string, topN: int, k: int)
    ensures var tasks := TasksFor(jobId, SectionsOf(text, k), topN);
      JoinWith(TextsOf(tasks), " ") == JoinWith(Grouped(text), " ") &&
      forall i :: 0 <= i < |tasks| ==> |tasks[i].text| > 0
  {
    TextsOfTasks(jobId, SectionsOf(text, k), topN);
    SectionsJoinToSentences(text, k);
    SectionsNonEmpty(text, k);
  }

  /** A blank text starts a job with no task at all. */
  lemma BlankTextStartsNoTask(jobId: string, text: string, topN: int, k: int)
    requires IsBlank(text)
    ensures TasksFor(jobId, SectionsOf(text, k), topN) == []
  {
    BlankTextHasNoSections(text, k);
  }

  /** `JobStarterService`, with the section queue as the list of tasks published so far. */
  class JobStarterService {

    /** The tasks `SectionProducer` has published, oldest first. */
    var published: seq<SectionMessage>

    constructor ()
      ensures published == []
    {
      published := [];
    }

    /** `SectionProducer.sendSection`. */
    method SendSection(message: SectionMessage)
      modifies this
      ensures published == old(published) + [message]
    {
      published := published + [message];
    }

    /**
     * `startJob`, with the random UUID given as `uuid`: publishes the job's tasks in order and
     * returns the job's id.
     */
    method StartJob(text: string, topN: int, sentencesPerSection: int, uuid: string)
      returns (jobId: string)
      modifies this
      ensures jobId == uuid
      ensures published == old(published) + TasksFor(jobId, SectionsOf(text, sentencesPerSection), topN)
    {
      jobId := uuid;
      var splitter := new TextSplitter(sentencesPerSection);
      var sections := splitter.SplitIntoSections(text);
      var totalSections := |sections|;
      ghost var tasks := TasksFor(jobId, sections, topN);
      var sectionId := 0;
      for i := 0 to |sections|
        invariant sectionId == i
        invariant published == old(published) + tasks[..i]
      {
        var message := SectionMessage(jobId, sectionId, totalSections, topN, sections[i]);
        sectionId := sectionId + 1;
        TasksPrefix(jobId, sections, topN, i);
        SendSection(message);
      }
      assert tasks[..|sections|] == tasks;
    }
  }

}
