/**
  The two halves together: the summary the GitHub side builds, rendered as
  the Slack attachment.
 */
module Pipeline {
  import opened Wrappers
  import opened Seqs
  import opened Paths
  import opened Results
  import opened GitHub
  import opened Slack

  /** How many evidence items the action finds for one failed job. */
  function ExpectedEvidence(env: Env, fromWorkflowRun: bool, job: Job): nat
  {
    var annotations := ExcludeDefaultErrorAnnotations(env.annotationsOf(job.id));
    if |annotations| > 0 then |annotations|
    else if fromWorkflowRun then |FailedStepsOf(job)|
    else 0
  }

  /** One heading per job and three blocks per evidence item. */
  function ExpectedBlocks(env: Env, fromWorkflowRun: bool, jobs: seq<Job>): nat
  {
    if |jobs| == 0 then 0
    else 1 + 3 * ExpectedEvidence(env, fromWorkflowRun, jobs[0]) + ExpectedBlocks(env, fromWorkflowRun, jobs[1..])
  }

  /** The evidence blocks a failed job calls for. */
  function ExpectedEvidenceBlocks(env: Env, fromWorkflowRun: bool, job: Job): seq<Block>
    requires JobEvidence(env, fromWorkflowRun, job).Ok?
  {
    var annotations := ExcludeDefaultErrorAnnotations(env.annotationsOf(job.id));
    if |annotations| > 0 then AnnotationBlocks(annotations)
    else if fromWorkflowRun then JobLogBlocks(GetJobLog(env, job).value)
    else []
  }

  /**
    A job's rendered blocks: its heading, then its surviving annotations if
    any, else (for a `workflow_run` event) its failed steps' logs, else nothing.
   */
  lemma RenderedJob(env: Env, fromWorkflowRun: bool, job: Job)
    requires JobEvidence(env, fromWorkflowRun, job).Ok?
    ensures JobEvidence(env, fromWorkflowRun, job).value.job == job
    ensures EvidenceBlocks(JobEvidence(env, fromWorkflowRun, job).value) == ExpectedEvidenceBlocks(env, fromWorkflowRun, job)
    ensures EvidenceCount(JobEvidence(env, fromWorkflowRun, job).value) == ExpectedEvidence(env, fromWorkflowRun, job)
  {
  }

  lemma {:induction false} TotalBlocksOfEvidence(env: Env, fromWorkflowRun: bool, jobs: seq<Job>, entries: seq<Summary>)
    requires |entries| == |jobs|
    requires forall i :: 0 <= i < |jobs| ==> JobEvidence(env, fromWorkflowRun, jobs[i]) == Ok(entries[i])
    ensures TotalBlocks(entries) == ExpectedBlocks(env, fromWorkflowRun, jobs)
  {
    if |jobs| > 0 {
      RenderedJob(env, fromWorkflowRun, jobs[0]);
      TotalBlocksOfEvidence(env, fromWorkflowRun, jobs[1..], entries[1..]);
    }
  }

  /**
    The attachment built from a successful summary holds one heading per
    job and three blocks per surviving annotation or failed step.
   */
  lemma AttachmentSize(env: Env, fromWorkflowRun: bool, jobs: seq<Job>)
    requires GetSummary(env, fromWorkflowRun, jobs).Ok?
    ensures |BlocksInAttachment(GetSummary(env, fromWorkflowRun, jobs).value)| == ExpectedBlocks(env, fromWorkflowRun, jobs)
  {
    var entries := GetSummary(env, fromWorkflowRun, jobs).value;
    TotalBlocksOfEvidence(env, fromWorkflowRun, jobs, entries);
    BlocksInAttachmentLength(entries);
  }

  /** A single job's summary renders as that job's blocks. */
  lemma SingleJobBlocks(env: Env, fromWorkflowRun: bool, job: Job)
    requires JobEvidence(env, fromWorkflowRun, job).Ok?
    ensures var r := GetSummary(env, fromWorkflowRun, [job]);
      r.Ok? && BlocksInAttachment(r.value) == JobBlocks(JobEvidence(env, fromWorkflowRun, job).value)
  {
    SingleJobSummary(env, fromWorkflowRun, job);
    BlocksOfOneEntry(JobEvidence(env, fromWorkflowRun, job).value);
  }

  lemma SingleJobSummary(env: Env, fromWorkflowRun: bool, job: Job)
    requires JobEvidence(env, fromWorkflowRun, job).Ok?
    ensures GetSummary(env, fromWorkflowRun, [job]) == Ok([JobEvidence(env, fromWorkflowRun, job).value])
  {
    ReduceAppendSingle(job, j => JobEvidence(env, fromWorkflowRun, j));
  }

  /**
    One failed job with one surviving annotation: the attachment is the job
    heading, a divider, the annotation's location and its message.
   */
  lemma AnnotatedJobScenario(env: Env, fromWorkflowRun: bool, job: Job, a: Annotation)
    requires ExcludeDefaultErrorAnnotations(env.annotationsOf(job.id)) == [a]
    ensures var r := GetSummary(env, fromWorkflowRun, [job]);
      && r.Ok?
      && BlocksInAttachment(r.value) ==
           [JobHeading(job), Divider, Section(AnnotationLocation(a)), Section(Fenced(OrNull(a.message)))]
  {
    var e := Summary(job, Some([a]), None);
    assert JobEvidence(env, fromWorkflowRun, job) == Ok(e);
    SingleJobSummary(env, fromWorkflowRun, job);
    BlocksOfOneEntry(e);
    AnnotatedEntryBlocks(job, a);
  }

  /**
    One failed job of a `workflow_run` event with no surviving annotation and
    one failed step whose log is staged in place: the attachment is the job
    heading, a divider, the step's name and its formatted log.
   */
  lemma LoggedJobScenario(env: Env, job: Job, s: Step)
    requires ExcludeDefaultErrorAnnotations(env.annotationsOf(job.id)) == []
    requires FailedStepsOf(job) == [s]
    requires RawPrefixGuard(env.cwd, StepLogPath(env.cwd, job.name, s))
    requires StepLogPath(env.cwd, job.name, s) in env.logFiles
    ensures var r := GetSummary(env, true, [job]);
      && r.Ok?
      && BlocksInAttachment(r.value) ==
           [JobHeading(job), Divider, Section("Step: `" + s.name + "`"),
            Section(Fenced(FormatLog(env.logFiles[StepLogPath(env.cwd, job.name, s)])))]
  {
    var entry := StepLog(FormatLog(env.logFiles[StepLogPath(env.cwd, job.name, s)]), s.name);
    SingleStepJobLog(env, job, s);
    var e := Summary(job, None, Some([entry]));
    assert JobEvidence(env, true, job) == Ok(e);
    SingleJobSummary(env, true, job);
    BlocksOfOneEntry(e);
    LoggedEntryBlocks(job, entry);
  }

  /** A job whose one failed step has its log staged where the prefix test admits it yields that one formatted log. */
  lemma SingleStepJobLog(env: Env, job: Job, s: Step)
    requires FailedStepsOf(job) == [s]
    requires RawPrefixGuard(env.cwd, StepLogPath(env.cwd, job.name, s))
    requires StepLogPath(env.cwd, job.name, s) in env.logFiles
    ensures GetJobLog(env, job) == Ok([StepLog(FormatLog(env.logFiles[StepLogPath(env.cwd, job.name, s)]), s.name)])
  {
    var log := GetJobLog(env, job);
    assert log.Ok? && |log.value| == 1;
    assert log.value == [log.value[0]];
  }
}
