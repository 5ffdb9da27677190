/** The executor base class
    (snakemake_interface_executor_plugins/executors/base.py): the resource
    arguments handed to a spawned Snakemake process, and the default way a
    batch of ready jobs is run. */
module ExecutorBase {
  import opened Wrappers
  import Text
  import Shell
  import opened PyValues
  import CliUtils

  /** What the executors read of a job: its id, the name of its rule (or the
      group id of a group job), the rules it covers, its flags, its attempt,
      its target specs, its resources in dict order and the files to wait for. */
  datatype Job = Job(
    jobid: Value, ruleName: string, rules: seq<string>, isGroup: bool, groupid: string,
    isUpdated: bool, isLocal: bool, attempt: Value,
    targetSpec: seq<CliUtils.TargetSpec>, resources: seq<(string, Value)>, waitForFiles: seq<string>)

  /** `SubmittedJobInfo`: a job and the identifier the backend gave it. */
  datatype JobInfo = JobInfo(job: Job, externalJobid: Option<string>)

  /** The calls an executor makes on its collaborators (the job, the logger,
      the scheduler's callbacks, the backend, the file system), in order. */
  datatype Event =
    | CheckProtectedOutput(job: Job)
    | LogJobInfo(job: Job)
    | Callback(job: Job)
    | InheritedRun(job: Job)
    | InheritedReport(info: JobInfo)
    | RegisterJob(job: Job, externalJobid: Option<string>)
    | LogInfo(message: string)
    | LogDebug(message: string)
    | LogError(message: string)
    | CancelJobs(jobs: seq<JobInfo>)
    | CheckActiveJobs(jobs: seq<JobInfo>)
    | Sleep(seconds: int)
    | JoinWaitThread
    | MakeTmpdir(path: string)
    | RemoveTree(path: string)
    | WriteFile(path: string, lines: seq<string>)
    | RemoveExistingOutput(job: Job)
    | DownloadRemoteInput(job: Job)
    | InheritedHandleJobError(job: Job)
    | PersistenceCleanup(job: Job)
    | JobCleanup(job: Job)

  // ---------------------------------------------------------------------------
  // Resource arguments

  /** The resources never declared: those the resource scopes exclude, and
      `_nodes` and `_cores`. */
  function ExcludedResources(scopeExcluded: set<string>): set<string>
  {
    scopeExcluded + {"_nodes", "_cores"}
  }

  /** `isinstance(v, int)`: a bool is an int too. */
  predicate IsPyInt(v: Value)
  {
    v.Int? || v.Bool?
  }

  /** The inner `isdigit`: the text is all digits after an optional sign. */
  predicate SignedDigits(s: string)
  {
    if s != [] && (s[0] == '-' || s[0] == '+') then Text.IsDigits(s[1..]) else Text.IsDigits(s)
  }

  /** The filter of the comprehension in `get_resource_declarations_dict`. */
  predicate Declarable(e: (string, Value), excluded: set<string>)
  {
    IsPyInt(e.1) && SignedDigits(PyStr(e.1)) && e.0 !in excluded
  }

  /** The digit test is what keeps bools out: of the values `isinstance`
      calls ints, exactly the genuine integers pass it. */
  lemma DigitsExactlyForInts(v: Value)
    ensures IsPyInt(v) && SignedDigits(PyStr(v)) <==> v.Int?
  {
    match v
    case Int(i) =>
      var s := PyStr(v);
      if i < 0 {
        assert s == "-" + Text.NatToString(-i);
        assert s[1..] == Text.NatToString(-i);
      } else {
        assert s == Text.NatToString(i);
        assert Text.IsDigit(s[0]);
      }
    case Bool(b) =>
      var s := PyStr(v);
      assert s == if b then "True" else "False";
      assert !Text.IsDigit(s[0]);
    case _ =>
  }

  /** `get_resource_declarations_dict(job)`: the resources with an integer
      value whose name is not excluded, in the job's order. */
  function ResourceDeclarationsDict(resources: seq<(string, Value)>, scopeExcluded: set<string>)
    : (r: seq<(string, Value)>)
    ensures |r| <= |resources|
    ensures forall e :: e in r ==> e in resources && e.1.Int? && e.0 !in ExcludedResources(scopeExcluded)
    ensures forall e :: e in resources && e.1.Int? && e.0 !in ExcludedResources(scopeExcluded) ==> e in r
  {
    if resources == [] then []
    else
      var rest := ResourceDeclarationsDict(resources[1..], scopeExcluded);
      DigitsExactlyForInts(resources[0].1);
      assert forall e :: e in resources <==> e == resources[0] || e in resources[1..];
      if Declarable(resources[0], ExcludedResources(scopeExcluded)) then [resources[0]] + rest else rest
  }

  /** One `--resources` item: `name=value`. */
  function ResourceToken(e: (string, Value)): string
  {
    e.0 + "=" + PyStr(e.1)
  }

  function ResourceItems(d: seq<(string, Value)>): (r: seq<Value>)
    ensures |r| == |d|
  {
    seq(|d|, i requires 0 <= i < |d| => Str(ResourceToken(d[i])))
  }

  /** `get_resource_declarations(job)`: `--resources` followed by one item per
      declared resource, or nothing when no resource is declared. */
  function ResourceDeclarations(resources: seq<(string, Value)>, scopeExcluded: set<string>): (r: string)
    ensures r == "" <==> ResourceDeclarationsDict(resources, scopeExcluded) == []
    ensures r != "" ==> Text.StartsWith(r, "--resources ")
  {
    var items := ResourceItems(ResourceDeclarationsDict(resources, scopeExcluded));
    var r := CliUtils.FormatCliArg("--resources", List(items), true, false);
    assert r != "" ==> r[..12] == "--resources ";
    r
  }

  /** Each declared resource reaches the spawned process as the single shell
      word `name=value` (its name not starting with a quote). */
  lemma ResourceTokenReadBack(resources: seq<(string, Value)>, scopeExcluded: set<string>, i: int)
    requires var d := ResourceDeclarationsDict(resources, scopeExcluded);
             0 <= i < |d| && (d[i].0 == [] || !IsQuoteChar(d[i].0[0]))
    ensures var d := ResourceDeclarationsDict(resources, scopeExcluded);
            d[i] in resources && d[i].1.Int? &&
            Shell.ReadWord(CliUtils.FormatCliValue(ResourceItems(d)[i])) ==
              Some(d[i].0 + "=" + Text.IntToString(d[i].1.i))
  {
    var d := ResourceDeclarationsDict(resources, scopeExcluded);
    assert d[i] in d;
    var tok := ResourceToken(d[i]);
    if d[i].0 == [] {
      assert tok[0] == '=';
    } else {
      assert tok[0] == d[i].0[0];
    }
    assert !CliUtils.IsQuoted(tok);
  }

  /** The `--set-resources` items: `rule:name=value` per overwritten resource,
      rule by rule, each rule's resources in order. */
  function SetResourceItems(overwrite: seq<(string, seq<(string, Value)>)>): (r: seq<string>)
    ensures r == [] <==> forall i | 0 <= i < |overwrite| :: overwrite[i].1 == []
  {
    if overwrite == [] then []
    else
      var rule := overwrite[0].0;
      var res := overwrite[0].1;
      var rest := SetResourceItems(overwrite[1..]);
      assert forall i | 1 <= i < |overwrite| :: overwrite[i] == overwrite[1..][i - 1];
      seq(|res|, j requires 0 <= j < |res| => rule + ":" + ResourceToken(res[j])) + rest
  }

  /** The items of several overwrite dicts are those of each in turn. */
  lemma {:induction false} SetResourceItemsAppend(a: seq<(string, seq<(string, Value)>)>,
                                                  b: seq<(string, seq<(string, Value)>)>)
    ensures SetResourceItems(a + b) == SetResourceItems(a) + SetResourceItems(b)
  {
    if a != [] {
      assert (a + b)[0] == a[0];
      assert (a + b)[1..] == a[1..] + b;
      SetResourceItemsAppend(a[1..], b);
    } else {
      assert a + b == b;
    }
  }

  /** The items of one rule: its name before every resource. */
  lemma SetResourceItemsOfRule(rule: string, res: seq<(string, Value)>)
    ensures var r := SetResourceItems([(rule, res)]);
            |r| == |res| && forall j | 0 <= j < |res| :: r[j] == rule + ":" + res[j].0 + "=" + PyStr(res[j].1)
  {
    assert [(rule, res)][1..] == [];
  }

  /** `get_set_resources_args()`: nothing without overwrites (and nothing
      when every overwrite dict is empty), otherwise `--set-resources` and the
      items. */
  function SetResourcesArgs(overwrite: seq<(string, seq<(string, Value)>)>): (r: string)
    ensures r == "" <==> SetResourceItems(overwrite) == []
    ensures r != "" ==> Text.StartsWith(r, "--set-resources ")
  {
    var items := SetResourceItems(overwrite);
    var r := CliUtils.FormatCliArg("--set-resources",
                                   List(seq(|items|, i requires 0 <= i < |items| => Str(items[i]))),
                                   true, overwrite == []);
    assert r != "" ==> r[..16] == "--set-resources ";
    r
  }

  /** `get_default_resources_args(default_resources)`: the arguments of the
      given default resources, which replace the workflow's when present. */
  function DefaultResourcesArgs(given: Option<Value>, workflowDefault: Value): (r: string)
    ensures given.Some? ==> r == CliUtils.FormatCliArg("--default-resources", given.value, true, false)
    ensures given.None? ==> r == CliUtils.FormatCliArg("--default-resources", workflowDefault, true, false)
    ensures r == "" <==> !Truthy(given.GetOr(workflowDefault))
  {
    CliUtils.FormatCliArg("--default-resources", given.GetOr(workflowDefault), true, false)
  }

  /** `rule_prefix(job)`. */
  function RulePrefix(job: Job): (r: string)
    ensures r == "local " <==> job.isLocal
    ensures r == "" <==> !job.isLocal
  {
    if job.isLocal then "local " else ""
  }

  // ---------------------------------------------------------------------------
  // Running jobs

  /** What `run(job, callback)` does: `_run` checks the protected output and
      prints the job, then the callback is called with the job. */
  function RunEvents(job: Job): seq<Event>
  {
    [CheckProtectedOutput(job), LogJobInfo(job), Callback(job)]
  }

  /** The events of running a list of jobs one after the other. */
  function RunAllEvents(jobs: seq<Job>): seq<Event>
  {
    if jobs == [] then []
    else RunAllEvents(jobs[..|jobs| - 1]) + RunEvents(jobs[|jobs| - 1])
  }

  /** The jobs passed to the callback, in the order of the calls. */
  function Callbacks(events: seq<Event>): seq<Job>
  {
    if events == [] then []
    else
      var last := events[|events| - 1];
      Callbacks(events[..|events| - 1]) + if last.Callback? then [last.job] else []
  }

  lemma {:induction false} CallbacksAppend(a: seq<Event>, b: seq<Event>)
    ensures Callbacks(a + b) == Callbacks(a) + Callbacks(b)
    decreases |b|
  {
    if b == [] {
      assert a + b == a;
    } else {
      assert (a + b)[..|a + b| - 1] == a + b[..|b| - 1];
      CallbacksAppend(a, b[..|b| - 1]);
    }
  }

  /** `run_jobs` calls the callback exactly once per job, in list order. */
  lemma {:induction false} CallbackPerJob(jobs: seq<Job>)
    ensures Callbacks(RunAllEvents(jobs)) == jobs
  {
    if jobs != [] {
      var init := jobs[..|jobs| - 1];
      var job := jobs[|jobs| - 1];
      CallbackPerJob(init);
      CallbacksAppend(RunAllEvents(init), RunEvents(job));
      assert Callbacks(RunEvents(job)) == [job] by {
        var e := RunEvents(job);
        assert e[..2][..1][..0] == [];
        assert Callbacks(e[..2]) == [] by {
          assert e[..2][..1] == [CheckProtectedOutput(job)];
          assert Callbacks(e[..2][..1]) == [];
        }
      }
      assert init + [job] == jobs;
    }
  }

  /** The executor as a recorder of the calls it makes. */
  class AbstractExecutor {
    var events: seq<Event>

    constructor()
      ensures events == []
    {
      events := [];
    }

    /** `run(job, callback)`. */
    method Run(job: Job)
      modifies this
      ensures events == old(events) + RunEvents(job)
    {
      events := events + [CheckProtectedOutput(job)];
      events := events + [LogJobInfo(job)];
      events := events + [Callback(job)];
    }

    /** `run_jobs(jobs, callback)`: `run` for every job in turn. */
    method RunJobs(jobs: seq<Job>)
      modifies this
      ensures events == old(events) + RunAllEvents(jobs)
    {
      for i := 0 to |jobs|
        invariant events == old(events) + RunAllEvents(jobs[..i])
      {
        Run(jobs[i]);
        assert jobs[..i + 1][..i] == jobs[..i];
      }
      assert jobs[..|jobs|] == jobs;
    }
  }
}
