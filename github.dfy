/**
  The GitHub side of the action: formatting a step log, dropping the runner's
  default error annotation, selecting failed jobs, reading the failed steps'
  staged logs and assembling the per-job summary.

  The REST calls (workflow run, jobs, annotations, log archive) are not
  modelled: their responses are inputs here. The staged log directory is a
  map from normalised path to file contents.
 */
module GitHub {
  import opened Wrappers
  import opened Text
  import opened Seqs
  import opened Paths
  import opened Results

  /** Directory, under the working directory, into which the log archive is extracted. */
  const LogDir := "logs"
  /** Number of trailing log lines kept for a step. */
  const LatestLines := 30
  /** Path and message prefix of the annotation the runner adds to every failed job. */
  const DefaultErrorPath := ".github"
  const DefaultErrorPrefix := "Process completed with exit code"
  /** Message of the error thrown when a log path escapes the log directory. */
  const InvalidPathMessage := "Invalid path"

  datatype Step = Step(name: string, number: int, conclusion: Option<string>)

  datatype Job = Job(
    id: int,
    name: string,
    status: string,
    conclusion: Option<string>,
    htmlUrl: Option<string>,
    steps: Option<seq<Step>>)

  datatype Annotation = Annotation(path: string, startLine: int, endLine: int, message: Option<string>)

  datatype StepLog = StepLog(log: string, stepName: string)

  /** A failed job with the evidence found for it: annotations, step logs, or neither. */
  datatype Summary = Summary(job: Job, annotations: Option<seq<Annotation>>, jobLog: Option<seq<StepLog>>)

  datatype WorkflowRun = WorkflowRun(
    name: Option<string>,
    actorLogin: Option<string>,
    headBranch: Option<string>,
    event: string,
    htmlUrl: string,
    runNumber: int,
    repoFullName: string,
    repoHtmlUrl: string)

  /** Why reading a step's staged log fails. */
  datatype LogError = InvalidPath | FileNotFound(path: string)
  {
    function Message(): string
    {
      match this
      case InvalidPath => InvalidPathMessage
      case FileNotFound(p) => "ENOENT: no such file or directory, open '" + p + "'"
    }
  }

  /** What the summary is built from: the annotation listing, the working directory and the staged log files. */
  datatype Env = Env(annotationsOf: int -> seq<Annotation>, cwd: string, logFiles: map<string, string>)

  // ---------------------------------------------------------------- formatLog

  /** One log line with its timestamp token removed: split on spaces, drop the first piece, rejoin. */
  function StripTimestamp(line: string): string
  {
    Join(Split(line, ' ')[1..], ' ')
  }

  /** Stripping removes everything up to and including the first space; a line without a space becomes empty. */
  lemma StripTimestampDropsFirstToken(line: string)
    ensures ' ' in line ==> StripTimestamp(line) == line[IndexOf(line, ' ') + 1..]
    ensures ' ' !in line ==> StripTimestamp(line) == ""
  {
    if ' ' in line {
      var i := IndexOf(line, ' ');
      JoinSplit(line[i + 1..], ' ');
      assert Split(line, ' ')[1..] == Split(line[i + 1..], ' ');
    }
  }

  /** `s.slice(-n)`: the last `n` elements, or all of them when there are fewer. */
  function LastN<T>(s: seq<T>, n: nat): seq<T>
  {
    if |s| <= n then s else s[|s| - n..]
  }

  function Min(a: int, b: int): int
  {
    if a < b then a else b
  }

  /** The last `min(|s|, n)` elements of `s`, in order. */
  lemma LastNElements<T>(s: seq<T>, n: nat)
    ensures |LastN(s, n)| == Min(|s|, n)
    ensures forall i :: 0 <= i < |LastN(s, n)| ==> LastN(s, n)[i] == s[|s| - |LastN(s, n)| + i]
  {
  }

  /** Each line of a log, split on `\n`, with its timestamp removed. */
  function StrippedLines(log: string): (r: seq<string>)
    ensures |r| == |Split(log, '\n')|
    ensures forall i :: 0 <= i < |r| ==> r[i] == StripTimestamp(Split(log, '\n')[i])
  {
    var lines := Split(log, '\n');
    seq(|lines|, i requires 0 <= i < |lines| => StripTimestamp(lines[i]))
  }

  /** The last `LatestLines` lines of a raw step log, each without its timestamp. */
  function FormatLog(log: string): (r: string)
    ensures log == "" ==> r == ""
  {
    Join(LastN(StrippedLines(log), LatestLines), '\n')
  }

  /** A stripped line holds no character its line did not hold. */
  lemma StripTimestampWithin(line: string, c: char)
    requires c !in line
    ensures c !in StripTimestamp(line)
  {
    StripTimestampDropsFirstToken(line);
    if ' ' in line {
      var k := IndexOf(line, ' ');
      assert forall d :: d in line[k + 1..] ==> d in line;
    }
  }

  /** Stripping keeps each piece of the log on a single line. */
  lemma StrippedLinesAreSingle(log: string)
    ensures forall i :: 0 <= i < |StrippedLines(log)| ==> '\n' !in StrippedLines(log)[i]
  {
    var pieces := Split(log, '\n');
    forall i | 0 <= i < |pieces|
      ensures '\n' !in StrippedLines(log)[i]
    {
      StripTimestampWithin(pieces[i], '\n');
    }
  }

  /** Joining single lines with `\n` and splitting again gives the lines back. */
  lemma SplitJoinedLines(lines: seq<string>)
    requires |lines| >= 1
    requires forall i :: 0 <= i < |lines| ==> '\n' !in lines[i]
    ensures Split(Join(lines, '\n'), '\n') == lines
  {
    SplitJoin(lines, '\n');
  }

  /**
    The formatted log has `min(k, 30)` lines for a log of `k` lines: the last
    ones of the input, in order, each with its timestamp stripped.
   */
  lemma FormatLogLines(log: string)
    ensures var pieces := Split(log, '\n');
      var m := Min(|pieces|, LatestLines);
      var lines := Split(FormatLog(log), '\n');
      && |lines| == m
      && forall i :: 0 <= i < m ==> lines[i] == StripTimestamp(pieces[|pieces| - m + i])
  {
    var stripped := StrippedLines(log);
    StrippedLinesAreSingle(log);
    LastNElements(stripped, LatestLines);
    var kept := LastN(stripped, LatestLines);
    SplitJoinedLines(kept);
  }

  // ------------------------------------------------------ default annotations

  /** The runner's own "Process completed with exit code" annotation, anchored at `.github`. */
  function IsDefaultErrorMessage(a: Annotation): (b: bool)
    ensures b <==> a.path == DefaultErrorPath && a.message.Some? && DefaultErrorPrefix <= a.message.value
  {
    a.path == DefaultErrorPath && a.message.Some? && StartsWith(a.message.value, DefaultErrorPrefix)
  }

  predicate IsReported(a: Annotation)
  {
    !IsDefaultErrorMessage(a)
  }

  /** The annotations of a job with the runner's default error annotation removed, in source order. */
  function ExcludeDefaultErrorAnnotations(annotations: seq<Annotation>): (r: seq<Annotation>)
    ensures forall i :: 0 <= i < |r| ==> r[i] in annotations && !IsDefaultErrorMessage(r[i])
    ensures forall i :: 0 <= i < |annotations| && !IsDefaultErrorMessage(annotations[i]) ==> annotations[i] in r
  {
    Filter(annotations, IsReported)
  }

  /** An annotation survives as often as it occurs unless it is the default one, which never does. */
  lemma ExcludeDefaultErrorAnnotationsCount(annotations: seq<Annotation>, a: Annotation)
    ensures multiset(ExcludeDefaultErrorAnnotations(annotations))[a]
      == if IsDefaultErrorMessage(a) then 0 else multiset(annotations)[a]
  {
    FilterCount(annotations, IsReported, a);
  }

  /** Exclusion keeps the source order: it distributes over concatenation. */
  lemma ExcludeDefaultErrorAnnotationsConcat(a: seq<Annotation>, b: seq<Annotation>)
    ensures ExcludeDefaultErrorAnnotations(a + b)
      == ExcludeDefaultErrorAnnotations(a) + ExcludeDefaultErrorAnnotations(b)
  {
    FilterConcat(a, b, IsReported);
  }

  // -------------------------------------------------------------- failed jobs

  predicate IsCompleted(j: Job)
  {
    j.status == "completed"
  }

  predicate HasFailed(j: Job)
  {
    j.conclusion == Some("failure")
  }

  predicate IsFailedJob(j: Job)
  {
    IsCompleted(j) && HasFailed(j)
  }

  /** The completed jobs whose conclusion is `failure`, in listing order. */
  function FailedJobs(jobs: seq<Job>): (r: seq<Job>)
    ensures forall i :: 0 <= i < |r| ==> r[i] in jobs && r[i].status == "completed" && r[i].conclusion == Some("failure")
    ensures forall i :: 0 <= i < |jobs| && jobs[i].status == "completed" && jobs[i].conclusion == Some("failure") ==>
              jobs[i] in r
  {
    var completed := Filter(jobs, IsCompleted);
    Filter(completed, HasFailed)
  }

  /** The two filters in a row are one filter on "completed and failed". */
  lemma FailedJobsIsOneFilter(jobs: seq<Job>)
    ensures FailedJobs(jobs) == Filter(jobs, IsFailedJob)
  {
    FilterFilter(jobs, IsCompleted, HasFailed, IsFailedJob);
  }

  /** A failed job is kept as often as it is listed; any other job never is. */
  lemma FailedJobsCount(jobs: seq<Job>, j: Job)
    ensures multiset(FailedJobs(jobs))[j] == if IsFailedJob(j) then multiset(jobs)[j] else 0
  {
    FailedJobsIsOneFilter(jobs);
    FilterCount(jobs, IsFailedJob, j);
  }

  /** Selection keeps the listing order: it distributes over concatenation. */
  lemma FailedJobsConcat(a: seq<Job>, b: seq<Job>)
    ensures FailedJobs(a + b) == FailedJobs(a) + FailedJobs(b)
  {
    FailedJobsIsOneFilter(a + b);
    FailedJobsIsOneFilter(a);
    FailedJobsIsOneFilter(b);
    FilterConcat(a, b, IsFailedJob);
  }

  // ------------------------------------------------------------------ job log

  predicate IsNotSlash(c: char)
  {
    c != '/'
  }

  /** The job name with every `/` removed, as the archive's directory names have it. */
  function SanitizeJobName(name: string): (r: string)
    ensures '/' !in r
  {
    Filter(name, IsNotSlash)
  }

  /** Sanitising removes the slashes and nothing else. */
  lemma SanitizeJobNameKeepsOthers(name: string, c: char)
    ensures multiset(SanitizeJobName(name))[c] == if c == '/' then 0 else multiset(name)[c]
    ensures '/' !in name ==> SanitizeJobName(name) == name
  {
    FilterCount(name, IsNotSlash, c);
    if '/' !in name {
      FilterKeepsAll(name, IsNotSlash);
    }
  }

  /** Sanitising keeps the order of the remaining characters: it distributes over concatenation. */
  lemma SanitizeJobNameConcat(a: string, b: string)
    ensures SanitizeJobName(a + b) == SanitizeJobName(a) + SanitizeJobName(b)
  {
    FilterConcat(a, b, IsNotSlash);
  }

  /** `{number}_{name}.txt`, the file the archive holds for a step. */
  function StepFileName(s: Step): string
  {
    IntToString(s.number) + "_" + s.name + ".txt"
  }

  /** The normalised log directory under the working directory. */
  function BaseDir(cwd: string): string
  {
    Normalize(cwd + "/" + LogDir)
  }

  /** The normalised path of a step's staged log file. */
  function StepLogPath(cwd: string, jobName: string, s: Step): string
  {
    Normalize(cwd + "/" + LogDir + "/" + SanitizeJobName(jobName) + "/" + StepFileName(s))
  }

  predicate IsFailedStep(s: Step)
  {
    s.conclusion == Some("failure")
  }

  /** The failed steps of a job, in step order; a job without a step list has none. */
  function FailedStepsOf(job: Job): (r: seq<Step>)
    ensures forall i :: 0 <= i < |r| ==> r[i].conclusion == Some("failure")
    ensures job.steps.None? ==> r == []
    ensures job.steps.Some? ==> forall i :: 0 <= i < |r| ==> r[i] in job.steps.value
    ensures job.steps.Some? ==>
              forall i :: 0 <= i < |job.steps.value| && job.steps.value[i].conclusion == Some("failure") ==>
                job.steps.value[i] in r
  {
    match job.steps
    case None => []
    case Some(steps) => Filter(steps, IsFailedStep)
  }

  /** A failed step is selected as often as the job lists it; any other step is not selected. */
  lemma FailedStepsOfCount(job: Job, s: Step)
    ensures multiset(FailedStepsOf(job))[s] ==
      if job.steps.Some? && s.conclusion == Some("failure") then multiset(job.steps.value)[s] else 0
  {
    if job.steps.Some? {
      FilterCount(job.steps.value, IsFailedStep, s);
    }
  }

  /** The failed steps keep the job's step order: selection distributes over a split step list. */
  lemma FailedStepsOfConcat(job: Job, a: seq<Step>, b: seq<Step>)
    requires job.steps == Some(a + b)
    ensures FailedStepsOf(job) == FailedStepsOf(job.(steps := Some(a))) + FailedStepsOf(job.(steps := Some(b)))
  {
    FilterConcat(a, b, IsFailedStep);
  }

  /**
    One failed step's log: the path guard, then the file read, then formatting.
    The guard is the source's raw prefix test `RawPrefixGuard`, which also
    admits paths in a sibling directory such as `logsevil`; the corrected
    guard is in `ReadStepLogGuarded`.
   */
  function ReadStepLog(env: Env, jobName: string, s: Step): (r: Result<StepLog, LogError>)
    ensures !RawPrefixGuard(env.cwd, StepLogPath(env.cwd, jobName, s)) ==> r == Err(InvalidPath)
    ensures RawPrefixGuard(env.cwd, StepLogPath(env.cwd, jobName, s)) && StepLogPath(env.cwd, jobName, s) !in env.logFiles ==>
              r == Err(FileNotFound(StepLogPath(env.cwd, jobName, s)))
    ensures r.Ok? <==> (RawPrefixGuard(env.cwd, StepLogPath(env.cwd, jobName, s))
                        && StepLogPath(env.cwd, jobName, s) in env.logFiles)
    ensures r.Ok? ==> (r.value.stepName == s.name
                       && r.value.log == FormatLog(env.logFiles[StepLogPath(env.cwd, jobName, s)]))
  {
    var path := StepLogPath(env.cwd, jobName, s);
    if !RawPrefixGuard(env.cwd, path) then Err(InvalidPath)
    else if path !in env.logFiles then Err(FileNotFound(path))
    else Ok(StepLog(FormatLog(env.logFiles[path]), s.name))
  }

  /**
    `getJobLog`: one entry per failed step, in step order, holding the step's
    name and its formatted staged log; it fails exactly when some failed step's
    log path fails the raw prefix test or is not staged.
   */
  function GetJobLog(env: Env, job: Job): (r: Result<seq<StepLog>, LogError>)
    ensures var failed := FailedStepsOf(job);
      && (r.Ok? <==> (forall i :: 0 <= i < |failed| ==>
                        && RawPrefixGuard(env.cwd, StepLogPath(env.cwd, job.name, failed[i]))
                        && StepLogPath(env.cwd, job.name, failed[i]) in env.logFiles))
      && (r.Ok? ==> (&& |r.value| == |failed|
                     && forall i :: 0 <= i < |failed| ==>
                          && r.value[i].stepName == failed[i].name
                          && r.value[i].log == FormatLog(env.logFiles[StepLogPath(env.cwd, job.name, failed[i])])))
    ensures job.steps.None? ==> r == Ok([])
  {
    MapAll(FailedStepsOf(job), s => ReadStepLog(env, job.name, s))
  }

  /**
    One failed step's log with the corrected guard: the path must be the log
    directory or lie below it at a segment boundary (`Paths.InsideBase`).
    Wherever it succeeds, it reads what the source's version reads.
   */
  function ReadStepLogGuarded(env: Env, jobName: string, s: Step): (r: Result<StepLog, LogError>)
    ensures !InsideBase(BaseDir(env.cwd), StepLogPath(env.cwd, jobName, s)) ==> r == Err(InvalidPath)
    ensures InsideBase(BaseDir(env.cwd), StepLogPath(env.cwd, jobName, s)) && StepLogPath(env.cwd, jobName, s) !in env.logFiles ==>
              r == Err(FileNotFound(StepLogPath(env.cwd, jobName, s)))
    ensures r.Ok? <==> (InsideBase(BaseDir(env.cwd), StepLogPath(env.cwd, jobName, s))
                        && StepLogPath(env.cwd, jobName, s) in env.logFiles)
    ensures InsideBase(BaseDir(env.cwd), StepLogPath(env.cwd, jobName, s)) ==> r == ReadStepLog(env, jobName, s)
  {
    var path := StepLogPath(env.cwd, jobName, s);
    if !InsideBase(BaseDir(env.cwd), path) then Err(InvalidPath)
    else if path !in env.logFiles then Err(FileNotFound(path))
    else Ok(StepLog(FormatLog(env.logFiles[path]), s.name))
  }

  /**
    `getJobLog` with the corrected guard: it succeeds only when every failed
    step's log path lies inside the log directory, and then it returns exactly
    what the source's `getJobLog` returns.
   */
  function GetJobLogGuarded(env: Env, job: Job): (r: Result<seq<StepLog>, LogError>)
    ensures var failed := FailedStepsOf(job);
      r.Ok? <==> (forall i :: 0 <= i < |failed| ==>
                    && InsideBase(BaseDir(env.cwd), StepLogPath(env.cwd, job.name, failed[i]))
                    && StepLogPath(env.cwd, job.name, failed[i]) in env.logFiles)
    ensures r.Ok? ==> GetJobLog(env, job) == r
  {
    var failed := FailedStepsOf(job);
    var r := MapAll(failed, s => ReadStepLogGuarded(env, job.name, s));
    if r.Ok? then
      GuardedAgrees(env, job);
      r
    else r
  }

  /** When every failed step passes the corrected guard, both guards read the same logs. */
  lemma GuardedAgrees(env: Env, job: Job)
    requires var failed := FailedStepsOf(job);
      forall i :: 0 <= i < |failed| ==> InsideBase(BaseDir(env.cwd), StepLogPath(env.cwd, job.name, failed[i]))
    ensures MapAll(FailedStepsOf(job), s => ReadStepLogGuarded(env, job.name, s)) ==
            MapAll(FailedStepsOf(job), s => ReadStepLog(env, job.name, s))
  {
    var failed := FailedStepsOf(job);
    MapAllAgree(failed, s => ReadStepLogGuarded(env, job.name, s), s => ReadStepLog(env, job.name, s));
  }

  /** A failing `getJobLog` reports the first failed step whose log cannot be read, e.g. `Invalid path`. */
  lemma GetJobLogFirstError(env: Env, job: Job, k: nat)
    requires var failed := FailedStepsOf(job);
      && k < |failed| && ReadStepLog(env, job.name, failed[k]).Err?
      && forall i :: 0 <= i < k ==> ReadStepLog(env, job.name, failed[i]).Ok?
    ensures GetJobLog(env, job) == Err(ReadStepLog(env, job.name, FailedStepsOf(job)[k]).error)
  {
    MapAllFirstError(FailedStepsOf(job), s => ReadStepLog(env, job.name, s), k);
  }

  /** Splitting a path built by joining `a` and `b` with a separator splits `a` and `b`. */
  lemma SplitJoined(a: string, b: string)
    ensures Split(a + "/" + b, '/') == Split(a, '/') + Split(b, '/')
  {
    assert a + "/" + b == a + ['/'] + b;
    SplitConcat(a, '/', b);
  }

  /** The log directory and a step's log path, as resolutions of their raw pieces. */
  lemma StepLogPathPieces(cwd: string, jobName: string, s: Step)
    ensures BaseDir(cwd) == Render(Resolve([], Split(cwd, '/') + [LogDir]))
    ensures StepLogPath(cwd, jobName, s) ==
      Render(Resolve([], Split(cwd, '/') + [LogDir] + Split(SanitizeJobName(jobName), '/') + Split(StepFileName(s), '/')))
  {
    var name, file := SanitizeJobName(jobName), StepFileName(s);
    assert Split(LogDir, '/') == [LogDir];
    SplitJoined(cwd, LogDir);
    SplitJoined(cwd + "/" + LogDir, name);
    SplitJoined(cwd + "/" + LogDir + "/" + name, file);
  }

  /** A step name without `/` gives a file name that is a single path segment. */
  lemma StepFileNameIsSegment(s: Step)
    requires '/' !in s.name
    ensures IsSegment(StepFileName(s))
  {
    var file := StepFileName(s);
    assert |file| >= 6;
    assert forall c :: c in IntToString(s.number) ==> c != '/';
  }

  /** With ordinary names the step's log path lies in the log directory, so the guard passes. */
  lemma OrdinaryStepLogPathIsInside(cwd: string, jobName: string, s: Step)
    requires IsSegment(SanitizeJobName(jobName))
    requires '/' !in s.name
    ensures InsideBase(BaseDir(cwd), StepLogPath(cwd, jobName, s))
  {
    var name, file := SanitizeJobName(jobName), StepFileName(s);
    StepFileNameIsSegment(s);
    StepLogPathPieces(cwd, jobName, s);
    SplitWithoutSeparator(name, '/');
    SplitWithoutSeparator(file, '/');
    var cwdPieces := Split(cwd, '/');
    var root := Resolve([], cwdPieces);
    ResolveAppendSegment(cwdPieces, LogDir);
    ResolveAppendSegment(cwdPieces + [LogDir], name);
    ResolveAppendSegment(cwdPieces + [LogDir] + [name], file);
    DescendantIsInside(root + [LogDir], root + [LogDir] + [name] + [file]);
  }

  /** The guard as the source writes it: a raw string-prefix test against the log directory. */
  function RawPrefixGuard(cwd: string, path: string): (ok: bool)
    ensures ok <==> BaseDir(cwd) <= path
  {
    StartsWith(path, BaseDir(cwd))
  }

  /**
    The raw prefix test lets a step log path escape into a sibling directory
    whose name extends the log directory's. For every working directory, a
    job named `..` with a failed step named `/../logs{suffix}/{leaf}` resolves
    to `{cwd}/logs{suffix}/{leaf}.txt` (e.g. `/w/logsevil/x.txt` for working
    directory `/w`): the raw test passes, so the source reads that file (or
    fails with `ENOENT` when it is absent), yet the path is not inside the log
    directory, and the corrected guard rejects it with `Invalid path`.
   */
  lemma RawPrefixGuardAdmitsSibling(env: Env, suffix: string, leaf: string, number: int)
    requires suffix != "" && '/' !in suffix && '/' !in leaf
    ensures var s := Step("/../" + LogDir + suffix + "/" + leaf, number, Some("failure"));
      var path := StepLogPath(env.cwd, "..", s);
      var root := Resolve([], Split(env.cwd, '/'));
      && path == Render(root + [LogDir + suffix, leaf + ".txt"])
      && RawPrefixGuard(env.cwd, path)
      && !InsideBase(BaseDir(env.cwd), path)
      && ReadStepLog(env, "..", s) ==
           (if path in env.logFiles then Ok(StepLog(FormatLog(env.logFiles[path]), s.name))
            else Err(FileNotFound(path)))
      && ReadStepLogGuarded(env, "..", s) == Err(InvalidPath)
      && ReadStepLogGuarded(env, "..", s).error.Message() == "Invalid path"
  {
    var sibling, file := LogDir + suffix, leaf + ".txt";
    var root := Resolve([], Split(env.cwd, '/'));
    SiblingPathResolves(env.cwd, suffix, leaf, number);
    BaseDirResolves(env.cwd);
    SiblingIsNotInside(root, sibling, file);
    SiblingRenderExtends(root, suffix, file);
  }

  /** A path in a sibling of the log directory is not inside the log directory. */
  lemma SiblingIsNotInside(root: seq<string>, sibling: string, file: string)
    requires AllSegments(root) && IsSegment(sibling) && IsSegment(file) && sibling != LogDir
    ensures !InsideBase(Render(root + [LogDir]), Render(root + [sibling, file]))
  {
    var base, path := root + [LogDir], root + [sibling, file];
    InsideBaseIsDescendant(base, path);
    assert base[|root|] != path[|root|];
  }

  /** The rendered sibling path extends the rendered log directory as a string. */
  lemma SiblingRenderExtends(root: seq<string>, suffix: string, file: string)
    requires AllSegments(root)
    ensures Render(root + [LogDir]) <= Render(root + [LogDir + suffix, file])
  {
    var sibling := LogDir + suffix;
    assert Join([LogDir], '/') == LogDir;
    assert Join([sibling, file], '/') == sibling + ['/'] + file by {
      assert [sibling, file][1..] == [file];
    }
    PrefixOfLonger(LogDir, suffix + ['/'], file);
    assert LogDir <= sibling + ['/'] + file;
    if |root| == 0 {
      assert root + [LogDir] == [LogDir] && root + [sibling, file] == [sibling, file];
      PrefixUnder("/", LogDir, sibling + ['/'] + file);
    } else {
      var j := Join(root, '/');
      JoinConcat(root, [LogDir], '/');
      JoinConcat(root, [sibling, file], '/');
      PrefixUnder(j + ['/'], LogDir, sibling + ['/'] + file);
      PrefixUnder("/", j + ['/'] + LogDir, j + ['/'] + (sibling + ['/'] + file));
    }
  }

  /** The log directory as a segment list over the working directory's. */
  lemma BaseDirResolves(cwd: string)
    ensures BaseDir(cwd) == Render(Resolve([], Split(cwd, '/')) + [LogDir])
  {
    var c := Split(cwd, '/');
    SplitJoined(cwd, LogDir);
    SplitWithoutSeparator(LogDir, '/');
    ResolveAppendSegment(c, LogDir);
  }

  /** The escaping step's log path as a segment list over the working directory's. */
  lemma SiblingPathResolves(cwd: string, suffix: string, leaf: string, number: int)
    requires suffix != "" && '/' !in suffix && '/' !in leaf
    ensures var s := Step("/../" + LogDir + suffix + "/" + leaf, number, Some("failure"));
      StepLogPath(cwd, "..", s) == Render(Resolve([], Split(cwd, '/')) + [LogDir + suffix, leaf + ".txt"])
  {
    var sibling, file := LogDir + suffix, leaf + ".txt";
    var s := Step("/../" + LogDir + suffix + "/" + leaf, number, Some("failure"));
    assert s.name == "/../" + sibling + "/" + leaf;
    var root := Resolve([], Split(cwd, '/'));
    var tag := IntToString(number) + "_";
    assert IsSegment(sibling) && IsSegment(file);
    EscapingFileName(s, tag, sibling, leaf);
    ParentJobStepLogPath(cwd, s);
    ResolveEscape(root, tag, sibling, file);
  }

  /** For a job named `..`, the step's file name is resolved one level above the log directory. */
  lemma ParentJobStepLogPath(cwd: string, s: Step)
    ensures var c := Split(cwd, '/');
      StepLogPath(cwd, "..", s) ==
        Render(Resolve(Resolve(Resolve(Resolve([], c), [LogDir]), [".."]), Split(StepFileName(s), '/')))
  {
    var c, f := Split(cwd, '/'), Split(StepFileName(s), '/');
    assert SanitizeJobName("..") == ".." by {
      SanitizeJobNameKeepsOthers("..", '.');
    }
    SplitWithoutSeparator("..", '/');
    StepLogPathPieces(cwd, "..", s);
    ResolveInSteps(c, LogDir, "..", f);
  }

  /** The escaping step's file name splits into its tag, a parent step, the sibling and the leaf. */
  lemma EscapingFileName(s: Step, tag: string, sibling: string, leaf: string)
    requires tag == IntToString(s.number) + "_"
    requires s.name == "/../" + sibling + "/" + leaf
    requires '/' !in sibling && '/' !in leaf
    ensures '/' !in tag && IsSegment(tag)
    ensures Split(StepFileName(s), '/') == [tag, "..", sibling, leaf + ".txt"]
  {
    var file := leaf + ".txt";
    assert '/' !in tag by {
      assert forall c :: c in IntToString(s.number) ==> c != '/';
    }
    assert tag[|tag| - 1] == '_';
    assert StepFileName(s) == tag + ['/'] + ".." + ['/'] + sibling + ['/'] + file;
    SplitFourPieces(tag, "..", sibling, file, '/');
  }

  /** Resolving the escaping pieces after the working directory lands in the sibling directory. */
  lemma ResolveEscape(root: seq<string>, tag: string, sibling: string, file: string)
    requires AllSegments(root)
    requires IsSegment(tag) && IsSegment(sibling) && IsSegment(file)
    ensures Resolve(root, [LogDir]) == root + [LogDir]
    ensures Resolve(Resolve(root + [LogDir], [".."]), [tag, "..", sibling, file]) == root + [sibling, file]
  {
    ResolveIntoAndOut(root, LogDir);
    ResolveEscapeTail(root, tag, sibling, file);
  }

  lemma ResolveEscapeTail(root: seq<string>, tag: string, sibling: string, file: string)
    requires AllSegments(root)
    requires IsSegment(tag) && IsSegment(sibling) && IsSegment(file)
    ensures Resolve(root, [tag, "..", sibling, file]) == root + [sibling, file]
  {
    calc {
      Resolve(root, [tag, "..", sibling, file]);
      { ResolvePush(root, tag, ["..", sibling, file]); }
      Resolve(root + [tag], ["..", sibling, file]);
      { ResolvePop(root, tag, [sibling, file]); }
      Resolve(root, [sibling, file]);
      { ResolvePush(root, sibling, [file]); }
      Resolve(root + [sibling], [file]);
      { ResolvePush(root + [sibling], file, []); }
      Resolve(root + [sibling] + [file], []);
    }
  }

  // ------------------------------------------------------------------ summary

  /**
    The evidence for one failed job. With annotations left after exclusion the
    job carries them; otherwise, for a `workflow_run` event, its failed steps'
    logs; otherwise nothing.
   */
  function JobEvidence(env: Env, fromWorkflowRun: bool, job: Job): (r: Result<Summary, LogError>)
    ensures var annotations := ExcludeDefaultErrorAnnotations(env.annotationsOf(job.id));
      && (r.Err? <==> |annotations| == 0 && fromWorkflowRun && GetJobLog(env, job).Err?)
      && (r.Err? ==> r.error == GetJobLog(env, job).error)
      && (r.Ok? ==> (&& r.value.job == job
                     && (r.value.annotations.Some? <==> |annotations| > 0)
                     && (r.value.annotations.Some? ==> r.value.annotations.value == annotations)
                     && (r.value.jobLog.Some? <==> |annotations| == 0 && fromWorkflowRun)
                     && (r.value.jobLog.Some? ==> GetJobLog(env, job) == Ok(r.value.jobLog.value))))
  {
    var annotations := ExcludeDefaultErrorAnnotations(env.annotationsOf(job.id));
    if fromWorkflowRun then
      if |annotations| > 0 then Ok(Summary(job, Some(annotations), None))
      else
        match GetJobLog(env, job)
        case Err(e) => Err(e)
        case Ok(jobLog) => Ok(Summary(job, None, Some(jobLog)))
    else if |annotations| > 0 then Ok(Summary(job, Some(annotations), None))
    else Ok(Summary(job, None, None))
  }

  /**
    `getSummary`: a fold over the jobs that appends each job's entry to the
    accumulator. Each step settles its own job's evidence before awaiting the
    accumulator, so the error that surfaces is the last failing job's.
   */
  function GetSummary(env: Env, fromWorkflowRun: bool, jobs: seq<Job>): (r: Result<seq<Summary>, LogError>)
    ensures r.Ok? <==> forall i :: 0 <= i < |jobs| ==> JobEvidence(env, fromWorkflowRun, jobs[i]).Ok?
    ensures r.Ok? ==> (&& |r.value| == |jobs|
                       && forall i :: 0 <= i < |jobs| ==> JobEvidence(env, fromWorkflowRun, jobs[i]) == Ok(r.value[i]))
  {
    ReduceAppend(jobs, j => JobEvidence(env, fromWorkflowRun, j))
  }

  /** The error of a failed summary is that of the last job whose evidence fails. */
  lemma GetSummaryLastError(env: Env, fromWorkflowRun: bool, jobs: seq<Job>, k: nat)
    requires k < |jobs| && JobEvidence(env, fromWorkflowRun, jobs[k]).Err?
    requires forall i :: k < i < |jobs| ==> JobEvidence(env, fromWorkflowRun, jobs[i]).Ok?
    ensures GetSummary(env, fromWorkflowRun, jobs) == Err(JobEvidence(env, fromWorkflowRun, jobs[k]).error)
  {
    ReduceAppendLastError(jobs, j => JobEvidence(env, fromWorkflowRun, j), k);
  }

  /** Each job is summarised on its own: the summary of a concatenation is the concatenation of the summaries. */
  lemma GetSummaryConcat(env: Env, fromWorkflowRun: bool, a: seq<Job>, b: seq<Job>)
    ensures var ra, rb := GetSummary(env, fromWorkflowRun, a), GetSummary(env, fromWorkflowRun, b);
      GetSummary(env, fromWorkflowRun, a + b) ==
        if rb.Err? then rb
        else if ra.Err? then ra
        else Ok(ra.value + rb.value)
  {
    ReduceAppendConcat(a, b, j => JobEvidence(env, fromWorkflowRun, j));
  }

  /** Summarising the selected jobs never yields an entry for a job that did not fail. */
  lemma SummaryHasOnlyFailedJobs(env: Env, fromWorkflowRun: bool, jobs: seq<Job>)
    ensures var r := GetSummary(env, fromWorkflowRun, FailedJobs(jobs));
      r.Ok? ==> forall i :: 0 <= i < |r.value| ==>
        r.value[i].job.status == "completed" && r.value[i].job.conclusion == Some("failure")
  {
  }
}
