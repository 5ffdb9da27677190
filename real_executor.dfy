/** The executor that spawns Snakemake again for each job
    (snakemake_interface_executor_plugins/executors/real.py): the arguments
    of the spawned process, the environment declarations in front of it, the
    whole command line, and what happens when a submission is reported. */
module RealExecutor {
  import opened Wrappers
  import Text
  import opened PyValues
  import CliUtils
  import opened ExecutorBase

  /** A list of strings as a Python list value. */
  function Strs(xs: seq<string>): (r: seq<Value>)
    ensures |r| == |xs|
  {
    seq(|xs|, i requires 0 <= i < |xs| => Str(xs[i]))
  }

  // ---------------------------------------------------------------------------
  // get_job_args

  /** `--target-jobs` with one `rule:wildcards` item per target spec. */
  function TargetJobsArg(job: Job): (r: string)
    ensures r == "" <==> job.targetSpec == []
    ensures r != "" ==> Text.StartsWith(r, "--target-jobs ")
  {
    var targets := seq(|job.targetSpec|, i requires 0 <= i < |job.targetSpec| => CliUtils.TargetJobItem(job.targetSpec[i]));
    var r := CliUtils.FormatCliArg("--target-jobs", List(Strs(targets)), true, false);
    assert r != "" ==> r[..14] == "--target-jobs ";
    r
  }

  /** `--allowed-rules`, skipped for an updated job, which has to be updated
      in the spawned process as well. */
  function AllowedRulesArg(job: Job): (r: string)
    ensures r == "" <==> job.isUpdated || job.rules == []
    ensures r != "" ==> Text.StartsWith(r, "--allowed-rules ")
  {
    var r := CliUtils.FormatCliArg("--allowed-rules", List(Strs(job.rules)), false, job.isUpdated);
    assert r != "" ==> r[..16] == "--allowed-rules ";
    r
  }

  /** `--local-groupid` with the job's own id, for group jobs only. */
  function JobGroupidArg(job: Job): (r: string)
    ensures r != "" <==> job.isGroup && Truthy(job.jobid)
    ensures r != "" && !job.jobid.Bool? ==> r == "--local-groupid " + CliUtils.FormatCliPosArg(job.jobid)
  {
    CliUtils.FormatCliArg("--local-groupid", job.jobid, true, !job.isGroup)
  }

  /** `--force-use-threads`, exactly for a job that is no group. */
  function ForceUseThreadsArg(job: Job): (r: string)
    ensures r == if job.isGroup then "" else "--force-use-threads "
  {
    CliUtils.FormatCliArg("--force-use-threads", Bool(!job.isGroup), true, false)
  }

  /** `--unneeded-temp-files`, skipped when there are none. */
  function UnneededTempFilesArg(files: seq<string>): (r: string)
    ensures r == "" <==> files == []
    ensures r != "" ==> Text.StartsWith(r, "--unneeded-temp-files ")
  {
    var r := CliUtils.FormatCliArg("--unneeded-temp-files", List(Strs(files)), true, files == []);
    assert r != "" ==> r[..22] == "--unneeded-temp-files ";
    r
  }

  /** The fragments `get_job_args(job)` joins, in order: target jobs, allowed
      rules, the job's local group id, cores, attempt, force-use-threads,
      unneeded temp files and the resource declarations. `cores` is the value
      passed as keyword or else the executor's own. */
  function JobArgFragments(job: Job, cores: Value, unneededTempFiles: seq<string>, scopeExcluded: set<string>)
    : (f: seq<string>)
    ensures f == [TargetJobsArg(job), AllowedRulesArg(job), JobGroupidArg(job),
                  CliUtils.FormatCliArg("--cores", cores, true, false),
                  CliUtils.FormatCliArg("--attempt", job.attempt, true, false),
                  ForceUseThreadsArg(job), UnneededTempFilesArg(unneededTempFiles),
                  ResourceDeclarations(job.resources, scopeExcluded)]
  {
    [TargetJobsArg(job), AllowedRulesArg(job), JobGroupidArg(job),
     CliUtils.FormatCliArg("--cores", cores, true, false), CliUtils.FormatCliArg("--attempt", job.attempt, true, false),
     ForceUseThreadsArg(job), UnneededTempFilesArg(unneededTempFiles), ResourceDeclarations(job.resources, scopeExcluded)]
  }

  /** Strings handed to `join_cli_args` never make it fail: it returns the
      non-empty ones joined with single spaces. */
  lemma JoinStrings(xs: seq<string>)
    ensures CliUtils.JoinCliArgs(Strs(xs)) == Ok(Text.JoinNonEmpty(xs))
  {
    assert Strs(xs) == seq(|xs|, i requires 0 <= i < |xs| => Str(xs[i]));
    CliUtils.TruthyTextsOfStrings(xs);
  }

  /** `get_job_args(job)`: the result of `join_cli_args` on the fragments,
      which always succeeds: the non-empty fragments joined with single
      spaces. */
  function GetJobArgs(job: Job, cores: Value, unneededTempFiles: seq<string>, scopeExcluded: set<string>): (r: string)
    ensures CliUtils.JoinCliArgs(Strs(JobArgFragments(job, cores, unneededTempFiles, scopeExcluded))) == Ok(r)
  {
    JoinStrings(JobArgFragments(job, cores, unneededTempFiles, scopeExcluded));
    Text.JoinNonEmpty(JobArgFragments(job, cores, unneededTempFiles, scopeExcluded))
  }

  /** The target jobs come first whenever the job has any. */
  lemma JobArgsStartWithTargets(job: Job, cores: Value, unneededTempFiles: seq<string>, scopeExcluded: set<string>)
    requires job.targetSpec != []
    ensures Text.StartsWith(GetJobArgs(job, cores, unneededTempFiles, scopeExcluded), "--target-jobs ")
  {
    var f := JobArgFragments(job, cores, unneededTempFiles, scopeExcluded);
    assert f == [f[0]] + f[1..];
    Text.JoinNonEmptyStarts(f[0], f[1..]);
  }

  // ---------------------------------------------------------------------------
  // get_envvar_declarations

  /** `VAR=repr(value)` for each environment variable, in dict order. */
  function EnvvarDefs(envvars: seq<(string, string)>): (r: seq<string>)
    ensures |r| == |envvars|
    ensures forall i | 0 <= i < |envvars| :: r[i] == envvars[i].0 + "=" + StrRepr(envvars[i].1)
  {
    seq(|envvars|, i requires 0 <= i < |envvars| => envvars[i].0 + "=" + StrRepr(envvars[i].1))
  }

  /** `get_envvar_declarations()` over the items of the environment dict:
      nothing unless declarations are passed to the command and there is a
      variable; otherwise one `export` of all of them, closed by `&&`. */
  function EnvvarDeclarations(passDeclarations: bool, envvars: seq<(string, string)>): (r: string)
    ensures r == "" <==> !passDeclarations || envvars == []
    ensures r != "" ==> Text.StartsWith(r, "export ") && Text.EndsWith(r, " &&")
    ensures r != "" ==> |r| >= 10 && r[7..|r| - 3] == Text.Join(" ", EnvvarDefs(envvars))
  {
    if passDeclarations && envvars != [] then "export " + Text.Join(" ", EnvvarDefs(envvars)) + " &&"
    else ""
  }

  /** Every definition reads back: the variable's name, `=`, and a Python
      string literal that denotes exactly the variable's value. */
  lemma EnvvarDefReadBack(envvars: seq<(string, string)>, i: int)
    requires 0 <= i < |envvars|
    ensures var d := EnvvarDefs(envvars)[i];
            var n := |envvars[i].0|;
            |d| > n && d[..n + 1] == envvars[i].0 + "=" && DecodeStrLiteral(d[n + 1..]) == Some(envvars[i].1)
  {
    var d := EnvvarDefs(envvars)[i];
    var n := |envvars[i].0|;
    assert d[n + 1..] == StrRepr(envvars[i].1);
    StrReprRoundTrip(envvars[i].1);
  }

  /** A key of the environment dict unpacked as `var, value`. */
  datatype UnpackError = UnpackError(key: string)

  /** The definitions as written: iterating the dict yields its keys, and
      `for var, value in envars` unpacks each key as a sequence of two
      characters; a key of any other length raises ValueError. */
  function UnpackedKeyDefs(envvars: seq<(string, string)>): (r: Result<seq<string>, UnpackError>)
    ensures r.Ok? <==> forall i | 0 <= i < |envvars| :: |envvars[i].0| == 2
    ensures r.Ok? ==> |r.value| == |envvars|
  {
    if envvars == [] then Ok([])
    else
      var key := envvars[0].0;
      assert forall i | 1 <= i < |envvars| :: envvars[i] == envvars[1..][i - 1];
      if |key| != 2 then Err(UnpackError(key))
      else
        match UnpackedKeyDefs(envvars[1..])
        case Ok(rest) => Ok([key[..1] + "=" + StrRepr(key[1..])] + rest)
        case Err(e) => Err(e)
  }

  /** `get_envvar_declarations()` as written. */
  function EnvvarDeclarationsAsWritten(passDeclarations: bool, envvars: seq<(string, string)>)
    : (r: Result<string, UnpackError>)
    ensures !passDeclarations || envvars == [] ==> r == Ok("")
  {
    if passDeclarations && envvars != [] then
      match UnpackedKeyDefs(envvars)
      case Ok(defs) => Ok("export " + Text.Join(" ", defs) + " &&")
      case Err(e) => Err(e)
    else Ok("")
  }

  /** The discrepancy: a variable whose name is not two characters long, such
      as PATH, makes the code as written raise, where the declaration
      `export PATH='/usr/bin' &&` is meant. */
  lemma EnvvarKeysUnpacked(name: string, value: string)
    requires |name| != 2
    ensures EnvvarDeclarationsAsWritten(true, [(name, value)]).Err?
    ensures EnvvarDeclarations(true, [(name, value)]) == "export " + name + "=" + StrRepr(value) + " &&"
  {
    var defs := EnvvarDefs([(name, value)]);
    assert defs == [name + "=" + StrRepr(value)];
    assert Text.Join(" ", defs) == name + "=" + StrRepr(value);
    assert "export " + (name + "=" + StrRepr(value)) + " &&" == "export " + name + "=" + StrRepr(value) + " &&";
  }

  /** ... and a two-letter name is split into a name and a value, the
      variable's real value being dropped. */
  lemma TwoLetterKeySplit(value: string)
    ensures EnvvarDeclarationsAsWritten(true, [("AB", value)]) == Ok("export A=" + StrRepr("B") + " &&")
  {
    var e := [("AB", value)];
    assert e[1..] == [];
    assert UnpackedKeyDefs(e[1..]) == Ok([]);
    assert |e[0].0| == 2;
    assert e[0].0[..1] == "A" && e[0].0[1..] == "B";
    assert UnpackedKeyDefs(e) == Ok([e[0].0[..1] + "=" + StrRepr(e[0].0[1..])] + []);
    var d := ["A=" + StrRepr("B")];
    var k := e[0].0;
    assert k[..1] + "=" == "A=";
    assert StrRepr(k[1..]) == StrRepr("B");
    assert [k[..1] + "=" + StrRepr(k[1..])] + [] == d;
    assert UnpackedKeyDefs(e) == Ok(d);
    assert Text.Join(" ", d) == "A=" + StrRepr("B");
    assert EnvvarDeclarationsAsWritten(true, e) == Ok("export " + Text.Join(" ", d) + " &&");
    assert "export " + ("A=" + StrRepr("B")) + " &&" == "export A=" + StrRepr("B") + " &&";
  }

  // ---------------------------------------------------------------------------
  // format_job_exec

  /** What `format_job_exec(job)` assembles: the subclass's prefix and suffix,
      the environment declarations, the spawned-job factory's precommand and
      general arguments, the python executable, the snakefile, the job's
      arguments, `additional_general_args()`, the execution mode's choice text
      and the workflow's local group id. */
  datatype ExecParts = ExecParts(
    prefix: string, suffix: string, envvarDeclarations: string, precommand: string,
    pythonExecutable: string, snakefile: Value, jobArgs: string, generalArgs: string,
    additionalArgs: seq<string>, modeChoice: string, workflowGroupid: Value)

  /** `job_specific_local_groupid`. */
  const JobSpecificLocalGroupid := true

  /** A non-empty prefix or precommand is followed by `&&`. */
  function AndAfter(s: string): (r: string)
    ensures s == "" ==> r == ""
    ensures s != "" ==> r == s + " &&"
  {
    if s != "" then s + " &&" else s
  }

  /** A non-empty suffix is preceded by `&&`. */
  function AndBefore(s: string): (r: string)
    ensures s == "" ==> r == ""
    ensures s != "" ==> r == "&& " + s
  {
    if s != "" then "&& " + s else s
  }

  /** The fragments before the additional arguments: the prefix, the
      environment declarations, the precommand, the interpreter running
      `-m snakemake` on the snakefile, then the job's and the general
      arguments. */
  function ExecHead(p: ExecParts): (r: seq<string>)
    ensures |r| == 8 && r[0] == AndAfter(p.prefix) && r[1] == p.envvarDeclarations && r[2] == AndAfter(p.precommand)
    ensures r[3] == p.pythonExecutable && r[4] == "-m snakemake"
    ensures r[5] == CliUtils.FormatCliArg("--snakefile", p.snakefile, true, false)
    ensures r[6] == p.jobArgs && r[7] == p.generalArgs
  {
    [AndAfter(p.prefix), p.envvarDeclarations, AndAfter(p.precommand), p.pythonExecutable, "-m snakemake",
     CliUtils.FormatCliArg("--snakefile", p.snakefile, true, false), p.jobArgs, p.generalArgs]
  }

  /** The fragments after the additional arguments; the workflow's group id
      is skipped because the group id is job specific. */
  function ExecTail(p: ExecParts): (r: seq<string>)
    ensures |r| == 3 && r[0] == CliUtils.FormatCliArg("--mode", Str(p.modeChoice), true, false)
    ensures r[1] == "" && r[2] == AndBefore(p.suffix)
  {
    [CliUtils.FormatCliArg("--mode", Str(p.modeChoice), true, false),
     CliUtils.FormatCliArg("--local-groupid", p.workflowGroupid, true, JobSpecificLocalGroupid),
     AndBefore(p.suffix)]
  }

  /** `format_job_exec(job)` with the additional arguments spliced in as
      separate fragments: the command line opens with the prefix and its
      `&&`, and closes with the suffix after its `&&`. */
  function FormatJobExec(p: ExecParts): (r: string)
    ensures p.prefix != "" ==> Text.StartsWith(r, p.prefix + " &&")
    ensures p.suffix != "" ==> Text.EndsWith(r, "&& " + p.suffix)
  {
    var xs := ExecHead(p) + p.additionalArgs + ExecTail(p);
    assert xs[0] == AndAfter(p.prefix) && xs[|xs| - 1] == AndBefore(p.suffix);
    JoinNonEmptyFrame(xs);
    Text.JoinNonEmpty(xs)
  }

  /** A non-empty first fragment opens the joined line, a non-empty last one
      closes it. */
  lemma JoinNonEmptyFrame(xs: seq<string>)
    requires xs != []
    ensures xs[0] != "" ==> Text.StartsWith(Text.JoinNonEmpty(xs), xs[0])
    ensures xs[|xs| - 1] != "" ==> Text.EndsWith(Text.JoinNonEmpty(xs), xs[|xs| - 1])
  {
    if xs[0] != "" {
      assert xs == [xs[0]] + xs[1..];
      Text.JoinNonEmptyStarts(xs[0], xs[1..]);
    }
    if xs[|xs| - 1] != "" {
      assert xs == xs[..|xs| - 1] + [xs[|xs| - 1]];
      Text.JoinNonEmptyEnds(xs[..|xs| - 1], xs[|xs| - 1]);
    }
  }

  /** The workflow-wide local group id never reaches the command line. */
  lemma WorkflowGroupidIgnored(p: ExecParts, groupid: Value)
    ensures FormatJobExec(p) == FormatJobExec(p.(workflowGroupid := groupid))
    ensures FormatJobExec(p) == Text.JoinNonEmpty(ExecHead(p) + p.additionalArgs + ExecTail(p)[..1] + ExecTail(p)[2..])
  {
    var xs := ExecHead(p) + p.additionalArgs + ExecTail(p);
    var ys := ExecHead(p) + p.additionalArgs + ExecTail(p)[..1] + ExecTail(p)[2..];
    Text.NonEmptyAppend(ExecHead(p) + p.additionalArgs + ExecTail(p)[..1], ExecTail(p)[1..]);
    Text.NonEmptyAppend(ExecHead(p) + p.additionalArgs + ExecTail(p)[..1], ExecTail(p)[2..]);
    assert xs == (ExecHead(p) + p.additionalArgs + ExecTail(p)[..1]) + ExecTail(p)[1..];
    Text.NonEmptyAppend(ExecTail(p)[1..2], ExecTail(p)[2..]);
    assert ExecTail(p)[1..] == ExecTail(p)[1..2] + ExecTail(p)[2..];
    assert Text.NonEmpty(ExecTail(p)[1..2]) == [] by {
      assert ExecTail(p)[1..2] == [""];
      assert [""][1..] == [];
    }
  }

  /** The fragments as the code hands them to `join_cli_args`: the list
      returned by `additional_general_args()` is one fragment. */
  function ExecValuesAsWritten(p: ExecParts): seq<Value>
  {
    Strs(ExecHead(p)) + [List(Strs(p.additionalArgs))] + Strs(ExecTail(p))
  }

  /** `format_job_exec(job)` as written: it succeeds exactly when
      `additional_general_args()` returns the empty list; any other list
      makes `join_cli_args` raise TypeError, showing the whole fragment list. */
  function FormatJobExecAsWritten(p: ExecParts): (r: Result<string, CliUtils.CliError>)
    ensures r.Ok? <==> p.additionalArgs == []
    ensures r.Err? ==> r.error.message == CliUtils.JoinErrorMessage + PyStr(List(ExecValuesAsWritten(p)))
  {
    var vs := ExecValuesAsWritten(p);
    assert vs[8] == List(Strs(p.additionalArgs));
    assert forall i | 0 <= i < |vs| && i != 8 :: vs[i].Str?;
    var r := CliUtils.JoinCliArgs(vs);
    assert r.Err? ==> r.error.message == r.error.message[..|CliUtils.JoinErrorMessage|] + r.error.message[|CliUtils.JoinErrorMessage|..];
    r
  }

  lemma {:induction false} TruthyTextsAppend(a: seq<Value>, b: seq<Value>)
    ensures CliUtils.TruthyTexts(a + b) == CliUtils.TruthyTexts(a) + CliUtils.TruthyTexts(b)
  {
    if a != [] {
      assert (a + b)[0] == a[0];
      assert (a + b)[1..] == a[1..] + b;
      TruthyTextsAppend(a[1..], b);
    } else {
      assert a + b == b;
    }
  }

  /** With the default `additional_general_args()`, the empty list, the code
      as written and the corrected assembly agree. */
  lemma DefaultAdditionalArgsAgree(p: ExecParts)
    requires p.additionalArgs == []
    ensures FormatJobExecAsWritten(p) == Ok(FormatJobExec(p))
  {
    var h := ExecHead(p);
    var t := ExecTail(p);
    var vs := ExecValuesAsWritten(p);
    assert Strs([]) == [];
    assert vs == Strs(h) + [List([])] + Strs(t);
    assert CliUtils.AllTruthyAreStrings(vs) by {
      forall i | 0 <= i < |vs| && Truthy(vs[i])
        ensures vs[i].Str?
      {
        assert i != 8;
      }
    }
    TruthyTextsAppend(Strs(h) + [List([])], Strs(t));
    TruthyTextsAppend(Strs(h), [List([])]);
    assert CliUtils.TruthyTexts([List([])]) == [] by {
      assert [List([])][1..] == [];
    }
    CliUtils.TruthyTextsOfStrings(h);
    CliUtils.TruthyTextsOfStrings(t);
    assert CliUtils.TruthyTexts(vs) == Text.NonEmpty(h) + Text.NonEmpty(t);
    Text.NonEmptyAppend(h, t);
    assert h + p.additionalArgs + t == h + t;
    assert FormatJobExec(p) == Text.Join(" ", Text.NonEmpty(h + t));
  }

  // ---------------------------------------------------------------------------
  // report_job_submission

  const RegisterFailureLead := "Failed to set marker file for job started ("
  const RegisterFailureBody :=
    "). Snakemake will work, but cannot ensure that output files are complete in case of a kill "
    + "signal or power loss. Please ensure write permissions for the directory "

  /** The placeholder that the message as written leaves in place: only the
      first of its string literals is an f-string. */
  const PersistencePathPlaceholder := "{self.workflow.persistence.path}"

  function RegisterFailureMessageAsWritten(error: string): string
  {
    RegisterFailureLead + error + RegisterFailureBody + PersistencePathPlaceholder + "."
  }

  /** The message logged when the marker file cannot be written, naming the
      persistence directory. */
  function RegisterFailureMessage(error: string, persistencePath: string): (r: string)
    ensures Text.StartsWith(r, RegisterFailureLead + error)
    ensures Text.EndsWith(r, persistencePath + ".")
  {
    var r := RegisterFailureLead + error + RegisterFailureBody + persistencePath + ".";
    assert r[..|RegisterFailureLead + error|] == RegisterFailureLead + error;
    assert r[|r| - |persistencePath + "."|..] == persistencePath + ".";
    r
  }

  /** The discrepancy: whatever the persistence directory, the message as
      written shows the placeholder instead of it. */
  lemma RegisterFailureMessageUnformatted(error: string, persistencePath: string)
    requires persistencePath != PersistencePathPlaceholder
    ensures RegisterFailureMessageAsWritten(error) != RegisterFailureMessage(error, persistencePath)
  {
    if RegisterFailureMessageAsWritten(error) == RegisterFailureMessage(error, persistencePath) {
      assert RegisterFailureLead + error + RegisterFailureBody + PersistencePathPlaceholder + "."
          == (RegisterFailureLead + error + RegisterFailureBody) + PersistencePathPlaceholder + ".";
      Text.MiddleDetermines(RegisterFailureLead + error + RegisterFailureBody,
                            PersistencePathPlaceholder, persistencePath, ".");
    }
  }

  /** What `report_job_submission(job_info, register_job)` does: the inherited
      report, then, when asked, the job's registration with its external id;
      a failing registration (the IOError's text in `registerError`) is
      logged and goes no further. */
  function SubmissionEvents(info: JobInfo, registerJob: bool, registerError: Option<string>, persistencePath: string)
    : (r: seq<Event>)
    ensures |r| >= 1 && r[0] == InheritedReport(info)
    ensures RegisterJob(info.job, info.externalJobid) in r <==> registerJob
    ensures (exists i | 0 <= i < |r| :: r[i].LogInfo?) <==> registerJob && registerError.Some?
    ensures registerJob && registerError.Some? ==>
      r[|r| - 1] == LogInfo(RegisterFailureMessage(registerError.value, persistencePath))
  {
    var r := [InheritedReport(info)]
      + (if registerJob then [RegisterJob(info.job, info.externalJobid)] else [])
      + (if registerJob && registerError.Some?
         then [LogInfo(RegisterFailureMessage(registerError.value, persistencePath))] else []);
    assert registerJob ==> r[1] == RegisterJob(info.job, info.externalJobid);
    assert registerJob && registerError.Some? ==> r[2].LogInfo?;
    assert !registerJob ==> r == [InheritedReport(info)];
    assert registerJob && registerError.None? ==> r == [InheritedReport(info), RegisterJob(info.job, info.externalJobid)];
    r
  }
}
