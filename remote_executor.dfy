/** The executor for distributed execution
    (snakemake_interface_executor_plugins/executors/remote.py): every job
    becomes a jobscript that runs Snakemake again on some backend, and the
    executor keeps the list of submitted jobs that are still active, polling
    the backend for them in rounds. */
module Remote {
  import opened Wrappers
  import Text
  import opened PyValues
  import CliUtils
  import opened Dataclasses
  import opened ExecutorBase
  import RealExecutor

  datatype WorkflowError = WorkflowError(message: string)

  const JobidWildcard := "{jobid}"

  /** The constructor's message for a job name without `{jobid}`. */
  function JobnameMessage(jobname: string): string
  {
    "Defined jobname (\"" + jobname + "\") has to contain the wildcard {jobid}."
  }

  /** The constructor's checks, in order: the jobscript template must be
      readable (its text, or the error of reading it), then the job name must
      contain `{jobid}`. */
  function ConstructorCheck(template: Result<string, string>, jobname: string): (r: Option<WorkflowError>)
    ensures r.None? <==> template.Ok? && Text.Occurs(jobname, JobidWildcard)
    ensures template.Err? ==> r == Some(WorkflowError(template.error))
    ensures template.Ok? && r.Some? ==> r.value == WorkflowError(JobnameMessage(jobname))
  {
    if template.Err? then Some(WorkflowError(template.error))
    else if !Text.Occurs(jobname, JobidWildcard) then Some(WorkflowError(JobnameMessage(jobname)))
    else None
  }

  /** The `cores` property: the workflow's cores when they are set and not
      `sys.maxsize`, otherwise "all", for whatever the node provides. */
  function Cores(cores: Option<int>, maxsize: int): (r: Value)
    ensures r == Str("all") <==> cores.None? || cores.value == maxsize
    ensures r != Str("all") ==> r == Int(cores.value)
  {
    if cores.Some? && cores.value != maxsize then Int(cores.value) else Str("all")
  }

  /** `get_python_executable()`: the host's interpreter when software
      deployment shares the file system, otherwise `python`. */
  function PythonExecutable(sharedSoftwareDeployment: bool, sysExecutable: string): (r: string)
    ensures sharedSoftwareDeployment ==> r == sysExecutable
    ensures !sharedSoftwareDeployment ==> r == "python"
  {
    if sharedSoftwareDeployment then sysExecutable else "python"
  }

  // ---------------------------------------------------------------------------
  // Wait-for-files arguments

  /** Up to this many files are passed on the command line. */
  const WaitForFilesLimit := 20

  /** The file listing the files to wait for, next to the jobscript. */
  function WaitForFilesFile(jobscript: string): string
  {
    jobscript + ".waitforfilesfile.txt"
  }

  /** `--wait-for-files` with every file as its own item. */
  function WaitForFilesArg(files: seq<string>): (r: string)
    ensures r == "" <==> files == []
    ensures r != "" ==> Text.StartsWith(r, "--wait-for-files ")
  {
    var r := CliUtils.FormatCliArg("--wait-for-files", List(RealExecutor.Strs(files)), true, false);
    assert r != "" ==> r[..17] == "--wait-for-files ";
    r
  }

  /** `--wait-for-files-file` naming the list file. */
  function WaitForFilesFileArg(jobscript: string): (r: string)
    ensures Text.StartsWith(r, "--wait-for-files-file ")
  {
    var r := CliUtils.FormatCliArg("--wait-for-files-file", Str(WaitForFilesFile(jobscript)), true, false);
    assert r[..22] == "--wait-for-files-file ";
    r
  }

  /** A non-empty name made of shell-safe characters is rendered as itself. */
  lemma SafeFileRendered(f: string)
    requires f != "" && Shell.AllSafe(f)
    ensures CliUtils.FormatCliValue(Str(f)) == f && ' ' !in f
  {
    Shell.QuoteShape(f);
    assert Shell.SafeChar(f[0]);
    assert !CliUtils.IsQuoted(f);
    forall k | 0 <= k < |f|
      ensures f[k] != ' '
    {
      assert Shell.SafeChar(f[k]);
    }
  }

  /** The files' list renders as the files joined by blanks. */
  lemma SafeFilesRendered(files: seq<string>)
    requires forall i | 0 <= i < |files| :: files[i] != "" && Shell.AllSafe(files[i])
    ensures CliUtils.FormatCliPosArg(List(RealExecutor.Strs(files))) == Text.JoinNonEmpty(files)
  {
    var vs := RealExecutor.Strs(files);
    var items := seq(|vs|, i requires 0 <= i < |vs| => CliUtils.FormatCliValue(vs[i]));
    forall i | 0 <= i < |files|
      ensures items[i] == files[i]
    {
      SafeFileRendered(files[i]);
    }
    assert items == files;
  }

  lemma SafeFilesArg(files: seq<string>)
    requires files != []
    requires forall i | 0 <= i < |files| :: files[i] != "" && Shell.AllSafe(files[i])
    ensures WaitForFilesArg(files) == "--wait-for-files" + (" " + Text.JoinNonEmpty(files))
  {
    SafeFilesRendered(files);
    assert Truthy(List(RealExecutor.Strs(files)));
  }

  lemma SafeFilesHaveNoBlank(files: seq<string>)
    requires forall i | 0 <= i < |files| :: files[i] != "" && Shell.AllSafe(files[i])
    ensures forall i | 0 <= i < |files| :: ' ' !in files[i]
  {
    forall i | 0 <= i < |files|
      ensures ' ' !in files[i]
    {
      SafeFileRendered(files[i]);
    }
  }

  /** Files whose names need no shell quoting reach the spawned process as
      exactly those words. */
  lemma WaitForFilesWords(files: seq<string>)
    requires files != []
    requires forall i | 0 <= i < |files| :: files[i] != "" && Shell.AllSafe(files[i])
    ensures Text.Words(WaitForFilesArg(files)) == ["--wait-for-files"] + files
  {
    SafeFilesArg(files);
    SafeFilesHaveNoBlank(files);
    Text.WordsOfFlagAndItems("--wait-for-files", files);
  }

  // ---------------------------------------------------------------------------
  // Jobscripts

  /** The message for a job name that holds the path separator. */
  function SeparatorMessage(sep: char, name: string): string
  {
    "Path separator (" + [sep] + ") found in job name " + name + ". This is not supported."
  }

  /** Why `write_jobscript` raises: the template's KeyError itself, or a
      WorkflowError around it. */
  datatype JobscriptError = TemplateKeyError(key: string) | Workflow(error: WorkflowError)

  function CustomJobscriptMessage(shown: string, key: string): string
  {
    "Error formatting custom jobscript " + shown + ": value for " + StrRepr(key)
    + " not found.\nMake sure that your custom jobscript is defined as expected."
  }

  /** The error routing of `write_jobscript`: the formatted text, or the
      missing template key (`formatted`), re-raised for the built-in
      jobscript and wrapped, naming the jobscript `shown`, for a custom one. */
  function JobscriptContent(formatted: Result<string, string>, isDefault: bool, shown: string)
    : (r: Result<string, JobscriptError>)
    ensures formatted.Ok? <==> r.Ok?
    ensures formatted.Ok? ==> r.value == formatted.value
    ensures formatted.Err? && isDefault ==> r.error == TemplateKeyError(formatted.error)
    ensures formatted.Err? && !isDefault ==> r.error.Workflow? && Text.StartsWith(r.error.error.message, "Error formatting custom jobscript " + shown + ": ")
  {
    match formatted
    case Ok(content) => Ok(content)
    case Err(key) =>
      if isDefault then Err(TemplateKeyError(key))
      else
        var m := CustomJobscriptMessage(shown, key);
        assert m[..|"Error formatting custom jobscript " + shown + ": "|] == "Error formatting custom jobscript " + shown + ": ";
        Err(Workflow(WorkflowError(m)))
  }

  /** The discrepancy: for a custom jobscript the message as written shows
      the template's whole text where the jobscript's path is meant (the
      older generation shows the path); the two differ whenever the text is
      not the path itself. */
  lemma CustomJobscriptShowsTemplate(template: string, path: string, key: string)
    requires template != path
    ensures JobscriptContent(Err(key), false, template) != JobscriptContent(Err(key), false, path)
  {
    var post := ": value for " + StrRepr(key) + " not found.\nMake sure that your custom jobscript is defined as expected.";
    var pre := "Error formatting custom jobscript ";
    assert CustomJobscriptMessage(template, key) == pre + template + post;
    assert CustomJobscriptMessage(path, key) == pre + path + post;
    if CustomJobscriptMessage(template, key) == CustomJobscriptMessage(path, key) {
      Text.MiddleDetermines(pre, template, path, post);
    }
  }

  /** What `print_job_error(job_info, msg, **kwargs)` hands on: the message
      (empty when none) with the fixed hint appended, and the keyword
      arguments with `external_jobid` set when the job has one. */
  const JobErrorHint := "For further error details see the cluster/cloud log and the log files of the involved rule(s)."

  function JobErrorReport(info: JobInfo, msg: Option<string>, kwargs: seq<(string, Value)>)
    : (r: (string, seq<(string, Value)>))
    ensures Text.EndsWith(r.0, JobErrorHint)
    ensures msg.Some? ==> Text.StartsWith(r.0, msg.value) && |r.0| == |msg.value| + |JobErrorHint|
    ensures msg.None? ==> r.0 == JobErrorHint
    ensures info.externalJobid.None? ==> r.1 == kwargs
    ensures info.externalJobid.Some? ==> Lookup(r.1, "external_jobid") == Some(Str(info.externalJobid.value))
    ensures forall k | k != "external_jobid" :: Lookup(r.1, k) == Lookup(kwargs, k)
  {
    var text := (if msg.Some? then msg.value else "") + JobErrorHint;
    assert text[|text| - |JobErrorHint|..] == JobErrorHint;
    assert msg.Some? ==> text[..|msg.value|] == msg.value;
    if info.externalJobid.Some? then
      PutLookup(kwargs, "external_jobid", Str(info.externalJobid.value));
      (text, Put(kwargs, "external_jobid", Str(info.externalJobid.value)))
    else (text, kwargs)
  }

  // ---------------------------------------------------------------------------
  // Bookkeeping of active jobs

  /** The events of `shutdown()`: the wait thread is joined and, unless jobs
      are submitted immediately, the tmpdir (created first if it never was)
      is removed. */
  function ShutdownEvents(immediateSubmit: bool, tmpdir: Option<string>, newDir: string): seq<Event>
  {
    [JoinWaitThread]
    + if immediateSubmit then []
      else (if tmpdir.None? then [MakeTmpdir(newDir)] else []) + [RemoveTree(TmpdirPath(tmpdir, newDir))]
  }

  /** The path the lazy `tmpdir` property returns: the directory made before,
      or the new one `mkdtemp` makes (given as `newDir`, already absolute). */
  function TmpdirPath(tmpdir: Option<string>, newDir: string): string
  {
    if tmpdir.Some? then tmpdir.value else newDir
  }

  /** The list of jobs holds no job twice. */
  ghost predicate NoDuplicates(jobs: seq<JobInfo>)
  {
    forall x :: multiset(jobs)[x] <= 1
  }

  /** A poll round keeps the active list free of duplicates when the backend
      yields each job it was given at most once and the jobs submitted
      meanwhile are new. */
  lemma RoundKeepsJobsDistinct(snapshot: seq<JobInfo>, submitted: seq<JobInfo>, stillActive: seq<JobInfo>)
    requires NoDuplicates(snapshot) && NoDuplicates(submitted)
    requires multiset(stillActive) <= multiset(snapshot)
    requires forall j | j in submitted :: j !in snapshot
    ensures NoDuplicates(submitted + stillActive)
  {
    forall x
      ensures multiset(submitted + stillActive)[x] <= 1
    {
      assert multiset(submitted + stillActive) == multiset(submitted) + multiset(stillActive);
      if x in submitted {
        assert x !in snapshot;
        assert multiset(snapshot)[x] == 0;
      }
    }
  }

  class RemoteExecutor {
    const jobname: string
    /** The text of the jobscript template. */
    const template: string
    /** The configured jobscript path; None selects the built-in jobscript. */
    const jobscriptSetting: Option<string>
    const secondsBetweenStatusChecks: int
    const immediateSubmit: bool
    const persistencePath: string

    var activeJobs: seq<JobInfo>
    var wait: bool
    var tmpdir: Option<string>
    var nextSecondsOverride: Option<int>
    var events: seq<Event>

    predicate IsDefaultJobscript()
    {
      jobscriptSetting.None?
    }

    /** The state right after the constructor's checks have passed; the wait
        thread starts polling. */
    constructor(jobname: string, template: string, jobscriptSetting: Option<string>,
                secondsBetweenStatusChecks: int, immediateSubmit: bool, persistencePath: string)
      requires Text.Occurs(jobname, JobidWildcard)
      ensures this.jobname == jobname && this.template == template && this.jobscriptSetting == jobscriptSetting
      ensures this.secondsBetweenStatusChecks == secondsBetweenStatusChecks
      ensures this.immediateSubmit == immediateSubmit && this.persistencePath == persistencePath
      ensures activeJobs == [] && wait && tmpdir.None? && nextSecondsOverride.None? && events == []
    {
      this.jobname := jobname;
      this.template := template;
      this.jobscriptSetting := jobscriptSetting;
      this.secondsBetweenStatusChecks := secondsBetweenStatusChecks;
      this.immediateSubmit := immediateSubmit;
      this.persistencePath := persistencePath;
      activeJobs := [];
      wait := true;
      tmpdir := None;
      nextSecondsOverride := None;
      events := [];
    }

    /** `next_seconds_between_status_checks`: the override once set,
        otherwise the configured interval. */
    function NextSecondsBetweenStatusChecks(): (r: int)
      reads this
      ensures nextSecondsOverride.Some? ==> r == nextSecondsOverride.value
      ensures nextSecondsOverride.None? ==> r == secondsBetweenStatusChecks
    {
      if nextSecondsOverride.None? then secondsBetweenStatusChecks else nextSecondsOverride.value
    }

    /** The property's setter. */
    method SetNextSecondsBetweenStatusChecks(value: Option<int>)
      modifies this
      ensures nextSecondsOverride == value
      ensures activeJobs == old(activeJobs) && wait == old(wait) && tmpdir == old(tmpdir) && events == old(events)
    {
      nextSecondsOverride := value;
    }

    /** The lazy `tmpdir` property: made on first use, the same path after. */
    method Tmpdir(newDir: string) returns (path: string)
      modifies this
      ensures path == TmpdirPath(old(tmpdir), newDir) && tmpdir == Some(path)
      ensures events == old(events) + if old(tmpdir).None? then [MakeTmpdir(newDir)] else []
      ensures activeJobs == old(activeJobs) && wait == old(wait) && nextSecondsOverride == old(nextSecondsOverride)
    {
      if tmpdir.None? {
        tmpdir := Some(newDir);
        events := events + [MakeTmpdir(newDir)];
      }
      path := tmpdir.value;
    }

    /** `report_job_submission(job_info, register_job)`: the real executor's
        report, then the job goes last in the active list, with no check for
        duplicates. */
    method ReportJobSubmission(info: JobInfo, registerJob: bool, registerError: Option<string>)
      modifies this
      ensures events == old(events) + RealExecutor.SubmissionEvents(info, registerJob, registerError, persistencePath)
      ensures activeJobs == old(activeJobs) + [info]
      ensures wait == old(wait) && tmpdir == old(tmpdir) && nextSecondsOverride == old(nextSecondsOverride)
    {
      events := events + RealExecutor.SubmissionEvents(info, registerJob, registerError, persistencePath);
      activeJobs := activeJobs + [info];
    }

    /** One round of `_wait_for_jobs`: nothing once `wait` is cleared;
        otherwise the active list is taken and emptied, the backend's
        `check_active_jobs` sees the snapshot, the jobs it yields become the
        active list, and the executor sleeps for the current interval. */
    method PollRound(checkActiveJobs: seq<JobInfo> -> seq<JobInfo>) returns (continued: bool)
      modifies this
      ensures continued == old(wait)
      ensures !old(wait) ==> activeJobs == old(activeJobs) && events == old(events)
      ensures old(wait) ==> activeJobs == checkActiveJobs(old(activeJobs))
      ensures old(wait) ==> events == old(events) + [CheckActiveJobs(old(activeJobs)), Sleep(NextSecondsBetweenStatusChecks())]
      ensures wait == old(wait) && tmpdir == old(tmpdir) && nextSecondsOverride == old(nextSecondsOverride)
    {
      if !wait {
        return false;
      }
      var snapshot := activeJobs;
      activeJobs := [];
      events := events + [CheckActiveJobs(snapshot)];
      var stillActive := checkActiveJobs(snapshot);
      activeJobs := activeJobs + stillActive;
      events := events + [Sleep(NextSecondsBetweenStatusChecks())];
      return true;
    }

    /** `shutdown()`: `wait` is cleared, so no further round polls, then the
        tmpdir is removed unless jobs are submitted immediately. */
    method Shutdown(newDir: string)
      modifies this
      ensures !wait
      ensures events == old(events) + ShutdownEvents(immediateSubmit, old(tmpdir), newDir)
      ensures immediateSubmit ==> tmpdir == old(tmpdir)
      ensures !immediateSubmit ==> tmpdir == Some(TmpdirPath(old(tmpdir), newDir))
      ensures activeJobs == old(activeJobs) && nextSecondsOverride == old(nextSecondsOverride)
    {
      wait := false;
      events := events + [JoinWaitThread];
      if !immediateSubmit {
        var path := Tmpdir(newDir);
        events := events + [RemoveTree(path)];
      }
    }

    /** `cancel()`: the backend cancels the jobs active at the call, then the
        executor shuts down. */
    method Cancel(newDir: string)
      modifies this
      ensures !wait
      ensures events == old(events) + [CancelJobs(old(activeJobs))] + ShutdownEvents(immediateSubmit, old(tmpdir), newDir)
      ensures activeJobs == old(activeJobs) && nextSecondsOverride == old(nextSecondsOverride)
    {
      var snapshot := activeJobs;
      events := events + [CancelJobs(snapshot)];
      Shutdown(newDir);
    }

    /** `get_jobscript(job)` for the job's formatted name: refused when the
        name holds the path separator, otherwise the name inside the tmpdir. */
    method GetJobscript(name: string, sep: char, newDir: string) returns (r: Result<string, WorkflowError>)
      modifies this
      ensures sep in name ==> r == Err(WorkflowError(SeparatorMessage(sep, name)))
      ensures sep in name ==> tmpdir == old(tmpdir) && events == old(events)
      ensures sep !in name ==> r == Ok(TmpdirPath(old(tmpdir), newDir) + [sep] + name)
      ensures sep !in name ==> tmpdir == Some(TmpdirPath(old(tmpdir), newDir))
      ensures sep !in name ==> events == old(events) + if old(tmpdir).None? then [MakeTmpdir(newDir)] else []
      ensures activeJobs == old(activeJobs) && wait == old(wait) && nextSecondsOverride == old(nextSecondsOverride)
    {
      if sep in name {
        return Err(WorkflowError(SeparatorMessage(sep, name)));
      }
      var dir := Tmpdir(newDir);
      return Ok(dir + [sep] + name);
    }

    /** `get_job_args(job)`: the real executor's arguments and, when input and
        output share the file system, the files to wait for: the tmpdir and
        the job's own, on the command line for up to 20 of them, otherwise
        written to a file next to the jobscript. */
    method GetJobArgs(job: Job, jobArgs: string, sharedInputOutput: bool, name: string, sep: char, newDir: string)
      returns (r: Result<string, WorkflowError>)
      modifies this
      ensures !sharedInputOutput ==> r == Ok(jobArgs + " ") && tmpdir == old(tmpdir) && events == old(events)
      ensures sharedInputOutput ==>
        var files := [TmpdirPath(old(tmpdir), newDir)] + job.waitForFiles;
        tmpdir == Some(TmpdirPath(old(tmpdir), newDir))
        && (|files| <= WaitForFilesLimit ==> r == Ok(jobArgs + " " + WaitForFilesArg(files)))
        && (|files| > WaitForFilesLimit && sep in name ==> r == Err(WorkflowError(SeparatorMessage(sep, name))))
        && (|files| > WaitForFilesLimit && sep !in name ==>
              var js := TmpdirPath(old(tmpdir), newDir) + [sep] + name;
              r == Ok(jobArgs + " " + WaitForFilesFileArg(js))
              && |events| >= 1 && events[|events| - 1] == WriteFile(WaitForFilesFile(js), files))
      ensures activeJobs == old(activeJobs) && wait == old(wait) && nextSecondsOverride == old(nextSecondsOverride)
    {
      var parameter := "";
      if sharedInputOutput {
        var dir := Tmpdir(newDir);
        var files := [dir] + job.waitForFiles;
        if |files| > WaitForFilesLimit {
          var js := GetJobscript(name, sep, newDir);
          if js.Err? {
            return Err(js.error);
          }
          events := events + [WriteFile(WaitForFilesFile(js.value), files)];
          parameter := WaitForFilesFileArg(js.value);
        } else {
          parameter := WaitForFilesArg(files);
        }
      }
      assert !sharedInputOutput ==> jobArgs + " " + parameter == jobArgs + " ";
      return Ok(jobArgs + " " + parameter);
    }

    /** `write_jobscript(job, path)` for the template formatted with the
        job's properties and command line: the content is logged and written
        to the path; a missing template key is routed by
        `JobscriptContent`, a custom jobscript being named by its path. */
    method WriteJobscript(formatted: Result<string, string>, path: string) returns (err: Option<JobscriptError>)
      modifies this
      ensures var c := JobscriptContent(formatted, IsDefaultJobscript(), jobscriptSetting.GetOr(""));
              (c.Err? ==> err == Some(c.error) && events == old(events))
              && (c.Ok? ==> err.None? && events == old(events) + [LogDebug("Jobscript:\n" + c.value), WriteFile(path, [c.value])])
      ensures activeJobs == old(activeJobs) && wait == old(wait) && tmpdir == old(tmpdir)
      ensures nextSecondsOverride == old(nextSecondsOverride)
    {
      var c := JobscriptContent(formatted, IsDefaultJobscript(), jobscriptSetting.GetOr(""));
      if c.Err? {
        return Some(c.error);
      }
      events := events + [LogDebug("Jobscript:\n" + c.value), WriteFile(path, [c.value])];
      return None;
    }
  }

  /** `RemoteExecutor(workflow, logger)`: the checks of `ConstructorCheck`,
      then an executor with no active job, polling. */
  method NewRemoteExecutor(jobname: string, template: Result<string, string>, jobscriptSetting: Option<string>,
                           secondsBetweenStatusChecks: int, immediateSubmit: bool, persistencePath: string)
    returns (r: Result<RemoteExecutor, WorkflowError>)
    ensures r.Err? <==> ConstructorCheck(template, jobname).Some?
    ensures r.Err? ==> r.error == ConstructorCheck(template, jobname).value
    ensures r.Ok? ==> fresh(r.value) && r.value.jobname == jobname && r.value.template == template.value
    ensures r.Ok? ==> r.value.activeJobs == [] && r.value.wait && r.value.tmpdir.None? && r.value.events == []
  {
    var check := ConstructorCheck(template, jobname);
    if check.Some? {
      return Err(check.value);
    }
    var e := new RemoteExecutor(jobname, template.value, jobscriptSetting, secondsBetweenStatusChecks,
                                immediateSubmit, persistencePath);
    return Ok(e);
  }

  /** Once set, the interval override stays in force through any number of
      submissions and poll rounds. */
  method OverrideIsSticky(e: RemoteExecutor, seconds: int, info: JobInfo,
                          check: seq<JobInfo> -> seq<JobInfo>)
    modifies e
    ensures e.NextSecondsBetweenStatusChecks() == seconds
  {
    e.SetNextSecondsBetweenStatusChecks(Some(seconds));
    e.ReportJobSubmission(info, true, None);
    var c1 := e.PollRound(check);
    var c2 := e.PollRound(check);
  }
}
