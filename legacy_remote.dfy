/** The executor for distributed execution of the older generation
    (snakemake_executor_plugin_interface/executors/remote.py). It shares the
    constructor checks, the jobscript naming and the wait-for-files
    arguments with the current generation; what differs is gated by the
    constructor's flags and by whether a shared file system is assumed. */
module LegacyRemote {
  import opened Wrappers
  import Text
  import opened PyValues
  import opened ExecutorBase
  import RealExecutor
  import Remote

  /** The constructor's default job name. */
  const DefaultJobname := "snakejob.{name}.{jobid}.sh"

  /** The default job name passes the constructor's check. */
  lemma DefaultJobnameAccepted(template: string)
    ensures Remote.ConstructorCheck(Ok(template), DefaultJobname).None?
  {
    assert Text.OccursAt(DefaultJobname, Remote.JobidWildcard, 16);
  }

  /** The `cores` attribute: the given cores when truthy, otherwise "all". */
  function Cores(cores: Value): (r: Value)
    ensures Truthy(r)
    ensures Truthy(cores) ==> r == cores
    ensures !Truthy(cores) ==> r == Str("all")
  {
    if Truthy(cores) then cores else Str("all")
  }

  /** The generations agree on a positive core count below `sys.maxsize` and
      on unset cores; zero cores are "all" only in this one. */
  lemma CoresGenerations(n: int, maxsize: int)
    ensures n > 0 && n != maxsize ==> Cores(Int(n)) == Remote.Cores(Some(n), maxsize)
    ensures Cores(NoneValue) == Remote.Cores(None, maxsize)
    ensures 0 != maxsize ==> Cores(Int(0)) != Remote.Cores(Some(0), maxsize)
  {
  }

  /** A getter switched off by its flag: "" when `disabled`, otherwise what
      the inherited getter returns (`inherited`). `get_default_remote_provider_args`
      and `get_default_resources_args` are gated by their `disable_*` flags,
      `get_workdir_arg` by the absence of a shared file system. */
  function Gated(disabled: bool, inherited: string): (r: string)
    ensures disabled ==> r == ""
    ensures !disabled ==> r == inherited
  {
    if disabled then "" else inherited
  }

  // ---------------------------------------------------------------------------
  // Environment variables

  /** `os.environ[var]` raising KeyError. */
  datatype KeyError = KeyError(key: string)

  /** The definitions `VAR=repr(os.environ[VAR])` in order, or the first
      variable missing from the environment. */
  function EnvDefs(envvars: seq<string>, environ: map<string, string>): (r: Result<seq<string>, KeyError>)
    ensures r.Ok? <==> forall i | 0 <= i < |envvars| :: envvars[i] in environ
    ensures r.Ok? ==> |r.value| == |envvars|
    ensures r.Ok? ==> forall i | 0 <= i < |envvars| :: r.value[i] == envvars[i] + "=" + StrRepr(environ[envvars[i]])
    ensures r.Err? ==> r.error.key !in environ
    ensures r.Err? ==> exists i | 0 <= i < |envvars| :: (envvars[i] == r.error.key && forall k | 0 <= k < i :: envvars[k] in environ)
  {
    if envvars == [] then Ok([])
    else if envvars[0] !in environ then
      Err(KeyError(envvars[0]))
    else
      var rest := EnvDefs(envvars[1..], environ);
      assert forall i | 1 <= i < |envvars| :: envvars[i] == envvars[1..][i - 1];
      match rest
      case Ok(defs) => Ok([envvars[0] + "=" + StrRepr(environ[envvars[0]])] + defs)
      case Err(e) =>
        ghost var i :| 0 <= i < |envvars[1..]| && (envvars[1..][i] == e.key && forall k | 0 <= k < i :: envvars[1..][k] in environ);
        assert envvars[i + 1] == e.key;
        assert forall k | 0 <= k < i + 1 :: envvars[k] in environ by {
          forall k | 0 <= k < i + 1
            ensures envvars[k] in environ
          {
            if k > 0 {
              assert envvars[k] == envvars[1..][k - 1];
            }
          }
        }
        Err(e)
  }

  /** `get_envvar_declarations()`: "" when disabled, otherwise the
      definitions of the workflow's variables joined with blanks, with no
      `export` and no `&&` around them. */
  function EnvvarDeclarations(disabled: bool, envvars: seq<string>, environ: map<string, string>)
    : (r: Result<string, KeyError>)
    ensures disabled ==> r == Ok("")
    ensures !disabled ==> (r.Ok? <==> forall i | 0 <= i < |envvars| :: envvars[i] in environ)
    ensures !disabled && r.Err? ==> r.error.key in envvars && r.error.key !in environ
  {
    if disabled then Ok("")
    else
      match EnvDefs(envvars, environ)
      case Ok(defs) => Ok(Text.Join(" ", defs))
      case Err(e) => Err(e)
  }

  /** The variables paired with their values, as the current generation
      receives them. */
  function EnvItems(envvars: seq<string>, environ: map<string, string>): (r: seq<(string, string)>)
    requires forall i | 0 <= i < |envvars| :: envvars[i] in environ
    ensures |r| == |envvars|
    ensures forall i | 0 <= i < |envvars| :: r[i] == (envvars[i], environ[envvars[i]])
  {
    seq(|envvars|, i requires 0 <= i < |envvars| && envvars[i] in environ => (envvars[i], environ[envvars[i]]))
  }

  /** With every variable set, the two generations write the same
      definitions; the current one adds `export` before and `&&` after. */
  lemma EnvvarGenerations(envvars: seq<string>, environ: map<string, string>)
    requires envvars != []
    requires forall i | 0 <= i < |envvars| :: envvars[i] in environ
    ensures EnvvarDeclarations(false, envvars, environ).Ok?
    ensures RealExecutor.EnvvarDeclarations(true, EnvItems(envvars, environ))
      == "export " + EnvvarDeclarations(false, envvars, environ).value + " &&"
  {
    var items := EnvItems(envvars, environ);
    assert RealExecutor.EnvvarDefs(items) == EnvDefs(envvars, environ).value;
  }

  // ---------------------------------------------------------------------------
  // Error reports

  /** What failed: the rule of a single job, or the group of a group job. */
  function ErrorKind(job: Job): (r: string)
    ensures job.isGroup <==> Text.StartsWith(r, "group job ")
    ensures !job.isGroup <==> Text.StartsWith(r, "rule ")
  {
    var r := if job.isGroup then "group job " + job.groupid else "rule " + job.ruleName;
    assert job.isGroup ==> r[..10] == "group job ";
    assert !job.isGroup ==> r[..5] == "rule ";
    assert r[0] == if job.isGroup then 'g' else 'r';
    r
  }

  const ClusterErrorHint := "). For error details see the cluster log and the log files of the involved rule(s)."

  /** The message of `print_cluster_job_error(job_info, jobid)`: what failed
      and on which cluster job id, the job's external id, then the jobscript
      and the hint, and nothing else. */
  function ClusterJobErrorMessage(job: Job, jobid: string, externalJobid: string, jobscript: string): (r: string)
    ensures Text.StartsWith(r, "Error executing " + ErrorKind(job) + " on cluster (jobid: " + jobid + ", "
                               + "external: " + externalJobid + ", ")
    ensures Text.EndsWith(r, "jobscript: " + jobscript + ClusterErrorHint)
    ensures |r| == |"Error executing " + ErrorKind(job) + " on cluster (jobid: " + jobid + ", "
                    + "external: " + externalJobid + ", "| + |"jobscript: " + jobscript + ClusterErrorHint|
  {
    var head := "Error executing " + ErrorKind(job) + " on cluster (jobid: " + jobid + ", ";
    var tail := "jobscript: " + jobscript + ClusterErrorHint;
    var r := head + "external: " + externalJobid + ", " + tail;
    assert r[..|head + "external: " + externalJobid + ", "|] == head + "external: " + externalJobid + ", ";
    assert r[|r| - |tail|..] == tail;
    r
  }

  /** The events of `handle_job_error(job)`: the inherited handling, then,
      unless incomplete output is kept, the metadata and output cleanups. */
  function JobErrorEvents(job: Job, keepIncomplete: bool): (r: seq<Event>)
    ensures |r| >= 2 && r[0] == InheritedHandleJobError(job)
    ensures PersistenceCleanup(job) in r <==> !keepIncomplete
    ensures JobCleanup(job) in r <==> !keepIncomplete
  {
    var r := [InheritedHandleJobError(job), LogDebug("Cleanup job metadata.")]
      + if keepIncomplete then []
        else [PersistenceCleanup(job), LogDebug("Cleanup failed jobs output files."), JobCleanup(job)];
    assert !keepIncomplete ==> r[2] == PersistenceCleanup(job) && r[4] == JobCleanup(job);
    r
  }

  class LegacyRemoteExecutor {
    const jobname: string
    const template: string
    /** The configured jobscript path; None selects the built-in jobscript. */
    const jobscriptSetting: Option<string>
    const cores: Value
    const assumeSharedFs: bool
    const immediateSubmit: bool
    const keepIncomplete: bool

    var wait: bool
    var tmpdir: Option<string>
    var events: seq<Event>

    constructor(jobname: string, template: string, jobscriptSetting: Option<string>, cores: Value,
                assumeSharedFs: bool, immediateSubmit: bool, keepIncomplete: bool)
      requires Text.Occurs(jobname, Remote.JobidWildcard)
      ensures this.jobname == jobname && this.template == template && this.jobscriptSetting == jobscriptSetting
      ensures this.cores == Cores(cores) && this.assumeSharedFs == assumeSharedFs
      ensures this.immediateSubmit == immediateSubmit && this.keepIncomplete == keepIncomplete
      ensures wait && tmpdir.None? && events == []
    {
      this.jobname := jobname;
      this.template := template;
      this.jobscriptSetting := jobscriptSetting;
      this.cores := Cores(cores);
      this.assumeSharedFs := assumeSharedFs;
      this.immediateSubmit := immediateSubmit;
      this.keepIncomplete := keepIncomplete;
      wait := true;
      tmpdir := None;
      events := [];
    }

    /** The lazy `tmpdir` property. */
    method Tmpdir(newDir: string) returns (path: string)
      modifies this
      ensures path == Remote.TmpdirPath(old(tmpdir), newDir) && tmpdir == Some(path)
      ensures events == old(events) + if old(tmpdir).None? then [MakeTmpdir(newDir)] else []
      ensures wait == old(wait)
    {
      if tmpdir.None? {
        tmpdir := Some(newDir);
        events := events + [MakeTmpdir(newDir)];
      }
      path := tmpdir.value;
    }

    /** `shutdown()`: as in the current generation; the tree is removed
        without ignoring errors. */
    method Shutdown(newDir: string)
      modifies this
      ensures !wait
      ensures events == old(events) + Remote.ShutdownEvents(immediateSubmit, old(tmpdir), newDir)
      ensures immediateSubmit ==> tmpdir == old(tmpdir)
      ensures !immediateSubmit ==> tmpdir == Some(Remote.TmpdirPath(old(tmpdir), newDir))
    {
      wait := false;
      events := events + [JoinWaitThread];
      if !immediateSubmit {
        var path := Tmpdir(newDir);
        events := events + [RemoveTree(path)];
      }
    }

    /** `cancel()` is `shutdown()`: no job is cancelled at the backend. */
    method Cancel(newDir: string)
      modifies this
      ensures !wait
      ensures events == old(events) + Remote.ShutdownEvents(immediateSubmit, old(tmpdir), newDir)
      ensures forall e | e in events[|old(events)|..] :: !e.CancelJobs?
    {
      Shutdown(newDir);
    }

    /** `_run(job)`: with a shared file system the job's stale output is
        removed and its remote input downloaded first. */
    method Run(job: Job)
      modifies this
      ensures events == old(events)
        + (if assumeSharedFs then [RemoveExistingOutput(job), DownloadRemoteInput(job)] else [])
        + [InheritedRun(job)]
      ensures wait == old(wait) && tmpdir == old(tmpdir)
    {
      if assumeSharedFs {
        events := events + [RemoveExistingOutput(job), DownloadRemoteInput(job)];
      }
      events := events + [InheritedRun(job)];
    }

    /** `handle_job_error(job)`. */
    method HandleJobError(job: Job)
      modifies this
      ensures events == old(events) + JobErrorEvents(job, keepIncomplete)
      ensures wait == old(wait) && tmpdir == old(tmpdir)
    {
      events := events + [InheritedHandleJobError(job), LogDebug("Cleanup job metadata.")];
      if !keepIncomplete {
        events := events + [PersistenceCleanup(job), LogDebug("Cleanup failed jobs output files."), JobCleanup(job)];
      }
    }

    /** `print_cluster_job_error(job_info, jobid)`. */
    method PrintClusterJobError(job: Job, jobid: string, externalJobid: string, jobscript: string)
      modifies this
      ensures events == old(events) + [LogError(ClusterJobErrorMessage(job, jobid, externalJobid, jobscript))]
      ensures wait == old(wait) && tmpdir == old(tmpdir)
    {
      events := events + [LogError(ClusterJobErrorMessage(job, jobid, externalJobid, jobscript))];
    }

    /** `get_jobscript(job)` for the job's formatted name. */
    method GetJobscript(name: string, sep: char, newDir: string) returns (r: Result<string, Remote.WorkflowError>)
      modifies this
      ensures sep in name ==> r == Err(Remote.WorkflowError(Remote.SeparatorMessage(sep, name)))
      ensures sep in name ==> tmpdir == old(tmpdir) && events == old(events)
      ensures sep !in name ==> r == Ok(Remote.TmpdirPath(old(tmpdir), newDir) + [sep] + name)
      ensures sep !in name ==> tmpdir == Some(Remote.TmpdirPath(old(tmpdir), newDir))
      ensures sep !in name ==> events == old(events) + if old(tmpdir).None? then [MakeTmpdir(newDir)] else []
      ensures wait == old(wait)
    {
      if sep in name {
        return Err(Remote.WorkflowError(Remote.SeparatorMessage(sep, name)));
      }
      var dir := Tmpdir(newDir);
      return Ok(dir + [sep] + name);
    }

    /** `get_job_args(job)`: the files to wait for are passed only when a
        shared file system is assumed. */
    method GetJobArgs(job: Job, jobArgs: string, name: string, sep: char, newDir: string)
      returns (r: Result<string, Remote.WorkflowError>)
      modifies this
      ensures !assumeSharedFs ==> r == Ok(jobArgs + " ") && tmpdir == old(tmpdir) && events == old(events)
      ensures assumeSharedFs ==>
        var files := [Remote.TmpdirPath(old(tmpdir), newDir)] + job.waitForFiles;
        tmpdir == Some(Remote.TmpdirPath(old(tmpdir), newDir))
        && (|files| <= Remote.WaitForFilesLimit ==> r == Ok(jobArgs + " " + Remote.WaitForFilesArg(files)))
        && (|files| > Remote.WaitForFilesLimit && sep in name ==> r == Err(Remote.WorkflowError(Remote.SeparatorMessage(sep, name))))
        && (|files| > Remote.WaitForFilesLimit && sep !in name ==>
              var js := Remote.TmpdirPath(old(tmpdir), newDir) + [sep] + name;
              r == Ok(jobArgs + " " + Remote.WaitForFilesFileArg(js))
              && |events| >= 1 && events[|events| - 1] == WriteFile(Remote.WaitForFilesFile(js), files))
      ensures wait == old(wait)
    {
      var parameter := "";
      if assumeSharedFs {
        var dir := Tmpdir(newDir);
        var files := [dir] + job.waitForFiles;
        if |files| > Remote.WaitForFilesLimit {
          var js := GetJobscript(name, sep, newDir);
          if js.Err? {
            return Err(js.error);
          }
          events := events + [WriteFile(Remote.WaitForFilesFile(js.value), files)];
          parameter := Remote.WaitForFilesFileArg(js.value);
        } else {
          parameter := Remote.WaitForFilesArg(files);
        }
      }
      assert !assumeSharedFs ==> jobArgs + " " + parameter == jobArgs + " ";
      return Ok(jobArgs + " " + parameter);
    }

    /** `write_jobscript(job, path)`: a custom jobscript is named by its
        configured path in the error. */
    method WriteJobscript(formatted: Result<string, string>, path: string) returns (err: Option<Remote.JobscriptError>)
      modifies this
      ensures var c := Remote.JobscriptContent(formatted, jobscriptSetting.None?, jobscriptSetting.GetOr(""));
              (c.Err? ==> err == Some(c.error) && events == old(events))
              && (c.Ok? ==> err.None? && events == old(events) + [LogDebug("Jobscript:\n" + c.value), WriteFile(path, [c.value])])
      ensures wait == old(wait) && tmpdir == old(tmpdir)
    {
      var c := Remote.JobscriptContent(formatted, jobscriptSetting.None?, jobscriptSetting.GetOr(""));
      if c.Err? {
        return Some(c.error);
      }
      events := events + [LogDebug("Jobscript:\n" + c.value), WriteFile(path, [c.value])];
      return None;
    }
  }

  /** The constructor: the checks of the current generation, in the same
      order, then an executor with the given cores or "all". */
  method NewLegacyRemoteExecutor(jobname: string, template: Result<string, string>, jobscriptSetting: Option<string>,
                                 cores: Value, assumeSharedFs: bool, immediateSubmit: bool, keepIncomplete: bool)
    returns (r: Result<LegacyRemoteExecutor, Remote.WorkflowError>)
    ensures r.Err? <==> Remote.ConstructorCheck(template, jobname).Some?
    ensures r.Err? ==> r.error == Remote.ConstructorCheck(template, jobname).value
    ensures r.Ok? ==> fresh(r.value) && r.value.jobname == jobname && r.value.template == template.value
    ensures r.Ok? ==> r.value.cores == Cores(cores) && r.value.wait && r.value.tmpdir.None? && r.value.events == []
  {
    var check := Remote.ConstructorCheck(template, jobname);
    if check.Some? {
      return Err(check.value);
    }
    var e := new LegacyRemoteExecutor(jobname, template.value, jobscriptSetting, cores,
                                      assumeSharedFs, immediateSubmit, keepIncomplete);
    return Ok(e);
  }
}
