/**
  The Slack side of the action: the message's two header blocks, and the
  attachment listing every failed job with its annotations or step logs.
  Sending the message to the webhook is not modelled.

  Template literals render an absent value as the text `null` (a field the
  API types as nullable) or `undefined` (an optional chain that stops).
 */
module Slack {
  import opened Wrappers
  import opened Text
  import opened Seqs
  import opened GitHub

  /** Colour bar of the attachment. */
  const AttachmentColor := "#a30200"
  const FaviconUrl := "https://github.githubassets.com/favicon.ico"
  const FaviconAltText := "GitHub"

  datatype ContextElement = Image(imageUrl: string, altText: string) | Mrkdwn(text: string)

  /** The Block Kit blocks the message uses; every section holds mrkdwn text. */
  datatype Block = Divider | Section(text: string) | Context(elements: seq<ContextElement>)

  datatype Attachment = Attachment(color: string, blocks: seq<Block>)

  /** The webhook payload. */
  datatype Params = Params(blocks: seq<Block>, attachments: seq<Attachment>)

  /** `${x}` for a value typed `string | null`. */
  function OrNull(x: Option<string>): string
  {
    x.GetOr("null")
  }

  /** `${x}` for an optional chain such as `actor?.login`. */
  function OrUndefined(x: Option<string>): string
  {
    x.GetOr("undefined")
  }

  /** A Slack link `<url|text>`. */
  function Link(url: string, text: string): string
  {
    "<" + url + "|" + text + ">"
  }

  /** Text inside a triple-backtick code block. */
  function Fenced(text: string): string
  {
    "```" + text + "```"
  }

  // ------------------------------------------------------------------ header

  function FailedLine(run: WorkflowRun): string
  {
    "Failed: " + OrUndefined(run.actorLogin) + "`s `" + run.event + "` on `" + OrNull(run.headBranch) + "`"
  }

  function WorkflowLine(run: WorkflowRun): string
  {
    "Workflow: " + OrNull(run.name) + " " + Link(run.htmlUrl, "#" + IntToString(run.runNumber))
  }

  /** Two lines, each preceded by a line break, with a final line break. */
  function Framed(first: string, second: string): string
  {
    "\n" + first + "\n" + second + "\n"
  }

  /** The header text: the `Failed:` line and the `Workflow:` line, framed by line breaks. */
  function HeaderText(run: WorkflowRun): string
  {
    Framed(FailedLine(run), WorkflowLine(run))
  }

  /** `generateBlocks`: a mrkdwn section with the header text, then the repository context block. */
  function GenerateBlocks(run: WorkflowRun): (r: seq<Block>)
    ensures |r| == 2
    ensures r[0].Section? && r[0].text == HeaderText(run)
    ensures r[1].Context? && |r[1].elements| == 2
    ensures r[1].elements[0] == Image(FaviconUrl, FaviconAltText)
    ensures r[1].elements[1] == Mrkdwn("*" + Link(run.repoHtmlUrl, run.repoFullName) + "*")
  {
    var repoName := Link(run.repoHtmlUrl, run.repoFullName);
    [Section(HeaderText(run)), Context([Image(FaviconUrl, FaviconAltText), Mrkdwn("*" + repoName + "*")])]
  }

  predicate SingleLine(s: string)
  {
    '\n' !in s
  }

  /**
    When the run's fields hold no line break, the header text consists of
    exactly two lines, the `Failed:` line and the `Workflow:` line, framed by
    empty lines.
   */
  lemma HeaderLines(run: WorkflowRun)
    requires SingleLine(OrUndefined(run.actorLogin)) && SingleLine(run.event) && SingleLine(OrNull(run.headBranch))
    requires SingleLine(OrNull(run.name)) && SingleLine(run.htmlUrl)
    ensures Split(HeaderText(run), '\n') == ["", FailedLine(run), WorkflowLine(run), ""]
  {
    FailedLineIsSingle(run);
    WorkflowLineIsSingle(run);
    FramedLines(FailedLine(run), WorkflowLine(run));
  }

  lemma FailedLineIsSingle(run: WorkflowRun)
    requires SingleLine(OrUndefined(run.actorLogin)) && SingleLine(run.event) && SingleLine(OrNull(run.headBranch))
    ensures SingleLine(FailedLine(run))
  {
  }

  lemma WorkflowLineIsSingle(run: WorkflowRun)
    requires SingleLine(OrNull(run.name)) && SingleLine(run.htmlUrl)
    ensures SingleLine(WorkflowLine(run))
  {
    var digits := IntToString(run.runNumber);
    assert SingleLine(digits) by {
      assert forall i :: 0 <= i < |digits| ==> digits[i] == '-' || '0' <= digits[i] <= '9';
    }
  }

  lemma FramedLines(a: string, b: string)
    requires SingleLine(a) && SingleLine(b)
    ensures Split(Framed(a, b), '\n') == ["", a, b, ""]
  {
    FramedIsJoin(a, b);
    SplitJoin(["", a, b, ""], '\n');
  }

  lemma FramedIsJoin(a: string, b: string)
    ensures Framed(a, b) == Join(["", a, b, ""], '\n')
  {
    var parts := ["", a, b, ""];
    assert parts[1..] == [a, b, ""] && parts[1..][1..] == [b, ""] && parts[1..][1..][1..] == [""];
    assert Join([b, ""], '\n') == b + ['\n'];
    assert Join([a, b, ""], '\n') == a + ['\n'] + b + ['\n'];
  }

  /** The header names the workflow right after the `Failed:` line. */
  lemma HeaderNamesWorkflow(run: WorkflowRun)
    ensures var w, k := "Workflow: " + OrNull(run.name) + " ", 2 + |FailedLine(run)|;
      k + |w| <= |HeaderText(run)| && HeaderText(run)[k..k + |w|] == w
  {
    var w, k := "Workflow: " + OrNull(run.name) + " ", 2 + |FailedLine(run)|;
    var rest := Link(run.htmlUrl, "#" + IntToString(run.runNumber)) + "\n";
    assert HeaderText(run) == ("\n" + FailedLine(run) + "\n") + w + rest;
  }

  // -------------------------------------------------------------- attachment

  /** `*{path}: L{start}~L{end}*` */
  function AnnotationLocation(a: Annotation): string
  {
    "*" + a.path + ": L" + IntToString(a.startLine) + "~L" + IntToString(a.endLine) + "*"
  }

  function AnnotationItem(a: Annotation): seq<Block>
  {
    [Divider, Section(AnnotationLocation(a)), Section(Fenced(OrNull(a.message)))]
  }

  /** `generateAnnotationBlocks` */
  function AnnotationBlocks(annotations: seq<Annotation>): seq<Block>
  {
    FlatMap(annotations, AnnotationItem)
  }

  /**
    Three blocks per annotation, in order: a divider, the location section
    and the message in a code block.
   */
  lemma AnnotationBlocksLayout(annotations: seq<Annotation>)
    ensures var r := AnnotationBlocks(annotations);
      && |r| == 3 * |annotations|
      && forall i :: 0 <= i < |annotations| ==>
           r[3 * i .. 3 * i + 3] ==
             [Divider, Section(AnnotationLocation(annotations[i])), Section(Fenced(OrNull(annotations[i].message)))]
  {
    FlatMapUniformLength(annotations, AnnotationItem, 3);
    forall i | 0 <= i < |annotations|
      ensures AnnotationBlocks(annotations)[3 * i .. 3 * i + 3] == AnnotationItem(annotations[i])
    {
      FlatMapTriple(annotations, AnnotationItem, i);
    }
  }

  function StepItem(log: StepLog): seq<Block>
  {
    [Divider, Section("Step: `" + log.stepName + "`"), Section(Fenced(log.log))]
  }

  /** `generateJobLogBlock` */
  function JobLogBlocks(jobLog: seq<StepLog>): seq<Block>
  {
    FlatMap(jobLog, StepItem)
  }

  /**
    Three blocks per step log, in order: a divider, the step's name and the
    formatted log in a code block.
   */
  lemma JobLogBlocksLayout(jobLog: seq<StepLog>)
    ensures var r := JobLogBlocks(jobLog);
      && |r| == 3 * |jobLog|
      && forall i :: 0 <= i < |jobLog| ==>
           r[3 * i .. 3 * i + 3] ==
             [Divider, Section("Step: `" + jobLog[i].stepName + "`"), Section(Fenced(jobLog[i].log))]
  {
    FlatMapUniformLength(jobLog, StepItem, 3);
    forall i | 0 <= i < |jobLog|
      ensures JobLogBlocks(jobLog)[3 * i .. 3 * i + 3] == StepItem(jobLog[i])
    {
      FlatMapTriple(jobLog, StepItem, i);
    }
  }

  /** `Job: <{html_url}|{name}> {conclusion}` */
  function JobHeading(job: Job): Block
  {
    Section("Job: " + Link(OrNull(job.htmlUrl), job.name) + " " + OrNull(job.conclusion))
  }

  /**
    An entry's evidence blocks. A present annotation list wins even when it
    is empty (an array is truthy); otherwise the step logs, an absent list
    counting as none.
   */
  function EvidenceBlocks(s: Summary): seq<Block>
  {
    if s.annotations.Some? then AnnotationBlocks(s.annotations.value)
    else JobLogBlocks(s.jobLog.GetOr([]))
  }

  function JobBlocks(s: Summary): seq<Block>
  {
    [JobHeading(s.job)] + EvidenceBlocks(s)
  }

  /** `generateBlocksInAttachment`: each entry's heading and evidence, entry after entry. */
  function BlocksInAttachment(summary: seq<Summary>): seq<Block>
  {
    FlatMap(summary, JobBlocks)
  }

  /** How many items an entry's evidence lists: its annotations if present, else its step logs. */
  function EvidenceCount(s: Summary): nat
  {
    if s.annotations.Some? then |s.annotations.value|
    else if s.jobLog.Some? then |s.jobLog.value|
    else 0
  }

  /** The number of attachment blocks the entries call for: one heading and three blocks per item. */
  function TotalBlocks(summary: seq<Summary>): nat
  {
    if |summary| == 0 then 0 else 1 + 3 * EvidenceCount(summary[0]) + TotalBlocks(summary[1..])
  }

  /** An entry renders as its heading followed by three blocks per evidence item. */
  lemma JobBlocksLength(s: Summary)
    ensures |JobBlocks(s)| == 1 + 3 * EvidenceCount(s)
    ensures JobBlocks(s)[0] == JobHeading(s.job)
  {
    if s.annotations.Some? {
      AnnotationBlocksLayout(s.annotations.value);
    } else {
      JobLogBlocksLayout(s.jobLog.GetOr([]));
    }
  }

  /** The attachment holds exactly `sum of (1 + 3 n)` blocks over the entries. */
  lemma {:induction false} BlocksInAttachmentLength(summary: seq<Summary>)
    ensures |BlocksInAttachment(summary)| == TotalBlocks(summary)
  {
    if |summary| > 0 {
      JobBlocksLength(summary[0]);
      BlocksInAttachmentLength(summary[1..]);
    }
  }

  lemma {:induction false} TotalBlocksConcat(a: seq<Summary>, b: seq<Summary>)
    ensures TotalBlocks(a + b) == TotalBlocks(a) + TotalBlocks(b)
  {
    if |a| > 0 {
      TotalBlocksConcat(a[1..], b);
      assert (a + b)[1..] == a[1..] + b;
    } else {
      assert a + b == b;
    }
  }

  /** The attachment of a concatenation is the two attachments one after the other. */
  lemma BlocksInAttachmentConcat(a: seq<Summary>, b: seq<Summary>)
    ensures BlocksInAttachment(a + b) == BlocksInAttachment(a) + BlocksInAttachment(b)
  {
    FlatMapConcat(a, b, JobBlocks);
  }

  /**
    Entries keep their order: an entry placed after the entries `pre` starts
    right after their blocks, with its heading and then its evidence blocks.
   */
  lemma BlocksInAttachmentAt(pre: seq<Summary>, s: Summary, post: seq<Summary>)
    ensures var r, k := BlocksInAttachment(pre + [s] + post), TotalBlocks(pre);
      && k + 1 + 3 * EvidenceCount(s) <= |r|
      && r[k] == JobHeading(s.job)
      && r[k + 1 .. k + 1 + 3 * EvidenceCount(s)] == EvidenceBlocks(s)
  {
    BlocksInAttachmentConcat(pre + [s], post);
    BlocksInAttachmentConcat(pre, [s]);
    BlocksOfOneEntry(s);
    BlocksInAttachmentLength(pre);
    EvidenceBlocksLength(s);
    HeadAndTailBetween(BlocksInAttachment(pre), JobHeading(s.job), EvidenceBlocks(s), BlocksInAttachment(post));
  }

  /** An entry's blocks are its heading then its evidence, three blocks per item. */
  lemma EvidenceBlocksLength(s: Summary)
    ensures JobBlocks(s) == [JobHeading(s.job)] + EvidenceBlocks(s)
    ensures |EvidenceBlocks(s)| == 3 * EvidenceCount(s)
  {
    JobBlocksLength(s);
  }

  /** A single entry's attachment is that entry's blocks. */
  lemma BlocksOfOneEntry(s: Summary)
    ensures BlocksInAttachment([s]) == JobBlocks(s)
  {
    assert [s][1..] == [];
    assert FlatMap([s][1..], JobBlocks) == [];
    assert JobBlocks(s) + [] == JobBlocks(s);
  }

  /** One annotation renders as its three blocks. */
  lemma OneAnnotationBlocks(a: Annotation)
    ensures AnnotationBlocks([a]) == [Divider, Section(AnnotationLocation(a)), Section(Fenced(OrNull(a.message)))]
  {
    assert [a][1..] == [];
    assert FlatMap([a][1..], AnnotationItem) == [];
    assert AnnotationItem(a) + [] == AnnotationItem(a);
  }

  /** One step log renders as its three blocks. */
  lemma OneStepLogBlocks(log: StepLog)
    ensures JobLogBlocks([log]) == [Divider, Section("Step: `" + log.stepName + "`"), Section(Fenced(log.log))]
  {
    assert [log][1..] == [];
    assert FlatMap([log][1..], StepItem) == [];
    assert StepItem(log) + [] == StepItem(log);
  }

  /** An entry with one annotation renders as its heading and the annotation's three blocks. */
  lemma AnnotatedEntryBlocks(job: Job, a: Annotation)
    ensures JobBlocks(Summary(job, Some([a]), None)) ==
      [JobHeading(job), Divider, Section(AnnotationLocation(a)), Section(Fenced(OrNull(a.message)))]
  {
    OneAnnotationBlocks(a);
  }

  /** An entry with one step log renders as its heading and the step's three blocks. */
  lemma LoggedEntryBlocks(job: Job, log: StepLog)
    ensures JobBlocks(Summary(job, None, Some([log]))) ==
      [JobHeading(job), Divider, Section("Step: `" + log.stepName + "`"), Section(Fenced(log.log))]
  {
    OneStepLogBlocks(log);
  }

  /** A present but empty annotation list renders the heading alone, whatever step logs the entry carries. */
  lemma EmptyAnnotationsHideLog(s: Summary)
    requires s.annotations == Some([])
    ensures JobBlocks(s) == [JobHeading(s.job)]
  {
  }

  // ------------------------------------------------------------------ params

  /** `generateParams`: the header blocks and a single red attachment holding the job blocks. */
  function GenerateParams(run: WorkflowRun, summary: seq<Summary>): (r: Params)
    ensures r.blocks == GenerateBlocks(run)
    ensures |r.attachments| == 1
    ensures r.attachments[0].color == AttachmentColor
    ensures r.attachments[0].blocks == BlocksInAttachment(summary)
  {
    Params(GenerateBlocks(run), [Attachment(AttachmentColor, BlocksInAttachment(summary))])
  }

  /** The payload's size: two header blocks and `sum of (1 + 3 n)` attachment blocks. */
  lemma ParamsSize(run: WorkflowRun, summary: seq<Summary>)
    ensures var r := GenerateParams(run, summary);
      |r.blocks| == 2 && |r.attachments| == 1 && |r.attachments[0].blocks| == TotalBlocks(summary)
  {
    BlocksInAttachmentLength(summary);
  }
}
