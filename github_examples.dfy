/** The repository's own test fixtures for the GitHub side, restated as lemmas about the model. */
module GitHubExamples {
  import opened Wrappers
  import opened Text
  import opened Seqs
  import opened Paths
  import opened GitHub

  function MockJob(name: string, status: string, conclusion: Option<string>): Job
  {
    Job(1, name, status, conclusion, None, None)
  }

  /** The mocked job listing: one failed, one successful and one running job keep only the failed one. */
  lemma MockJobsKeepOnlyFailed()
    ensures var job1 := MockJob("job1", "completed", Some("failure"));
      var job2 := MockJob("job2", "completed", Some("success"));
      var job3 := MockJob("job3", "running", None);
      FailedJobs([job1, job2, job3]) == [job1]
    ensures FailedJobs([]) == []
  {
    var job1 := MockJob("job1", "completed", Some("failure"));
    var job2 := MockJob("job2", "completed", Some("success"));
    var job3 := MockJob("job3", "running", None);
    var jobs := [job1, job2, job3];
    FailedJobsIsOneFilter(jobs);
    assert jobs[1..] == [job2, job3] && jobs[1..][1..] == [job3];
  }

  /** The runner's annotation in the mocked listing is recognised as the default one. */
  lemma MockRunnerAnnotationIsDefault()
    ensures IsDefaultErrorMessage(Annotation(".github", 300, 300, Some("Process completed with exit code 1.")))
  {
    var message := "Process completed with exit code 1.";
    assert message == DefaultErrorPrefix + " 1.";
  }

  /** An annotation elsewhere than `.github` followed by the runner's default one: only the first is kept. */
  lemma DefaultDroppedAfterReported(reported: Annotation, runnerDefault: Annotation)
    requires reported.path != DefaultErrorPath && IsDefaultErrorMessage(runnerDefault)
    ensures ExcludeDefaultErrorAnnotations([reported, runnerDefault]) == [reported]
  {
    assert IsReported(reported) && !IsReported(runnerDefault);
    KeepFirstOfTwo(reported, runnerDefault, IsReported);
  }

  /** The mocked annotations: a real one and the runner's default one leave only the real one. */
  lemma MockAnnotationsDropDefault()
    ensures var reported := Annotation("path/to/file", 1, 1, Some("\nhoge\nfuga\npiyo\n"));
      var runnerDefault := Annotation(".github", 300, 300, Some("Process completed with exit code 1."));
      ExcludeDefaultErrorAnnotations([reported, runnerDefault]) == [reported]
  {
    MockRunnerAnnotationIsDefault();
    DefaultDroppedAfterReported(
      Annotation("path/to/file", 1, 1, Some("\nhoge\nfuga\npiyo\n")),
      Annotation(".github", 300, 300, Some("Process completed with exit code 1.")));
  }

  /** Of the test job's two steps only the second one failed. */
  lemma TestJobFailedSteps()
    ensures var setup := Step("Run actionsetup-node", 3, Some("success"));
      var test := Step("test", 4, Some("failure"));
      FailedStepsOf(Job(1, "test", "completed", Some("failure"), None, Some([setup, test]))) == [test]
  {
    var setup := Step("Run actionsetup-node", 3, Some("success"));
    var test := Step("test", 4, Some("failure"));
    var steps := [setup, test];
    assert steps[1..] == [test] && steps[1..][1..] == [];
    assert !IsFailedStep(setup) && IsFailedStep(test);
  }

  /**
    The job-log test: a job named `test` with a successful step and a failed
    step `test` (number 4) yields one log, named `test`, once that step's file
    is staged.
   */
  lemma OneFailedStepGivesOneLog(env: Env)
    ensures var setup := Step("Run actionsetup-node", 3, Some("success"));
      var test := Step("test", 4, Some("failure"));
      var job := Job(1, "test", "completed", Some("failure"), None, Some([setup, test]));
      StepLogPath(env.cwd, "test", test) in env.logFiles ==>
        var r := GetJobLog(env, job);
        r.Ok? && |r.value| == 1 && r.value[0].stepName == "test"
  {
    var test := Step("test", 4, Some("failure"));
    TestJobFailedSteps();
    assert IsSegment("test");
    assert SanitizeJobName("test") == "test" by {
      SanitizeJobNameKeepsOthers("test", 't');
    }
    OrdinaryStepLogPathIsInside(env.cwd, "test", test);
  }
}
