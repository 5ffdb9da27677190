/** The settings records every executor plugin exposes to the host
    (snakemake_interface_executor_plugins/settings.py, and the identical
    definitions in snakemake_interface_executor_plugins/__init__.py). */
module Settings {
  import opened Wrappers

  /** `CommonSettings`: two required flags and three that default to False. */
  datatype CommonSettings = CommonSettings(
    nonLocalExec: bool,
    impliesNoSharedFs: bool,
    dryrunExec: bool := false,
    touchExec: bool := false,
    useThreads: bool := false)
  {
    /** `local_exec`. */
    predicate LocalExec()
    {
      !nonLocalExec
    }
  }

  /** Why `CommonSettings(**kwargs)` raises TypeError. */
  datatype InitError = UnexpectedKeyword | MissingArguments(names: seq<string>)

  const NonLocalExec := "non_local_exec"
  const ImpliesNoSharedFs := "implies_no_shared_fs"
  const DryrunExec := "dryrun_exec"
  const TouchExec := "touch_exec"
  const UseThreads := "use_threads"

  /** The parameters of the generated `__init__`. */
  const FieldNames: set<string> := {NonLocalExec, ImpliesNoSharedFs, DryrunExec, TouchExec, UseThreads}

  /** A keyword's value, or the field's default False. */
  function Flag(kw: map<string, bool>, name: string): bool
  {
    name in kw && kw[name]
  }

  /** `CommonSettings(**kwargs)`: every keyword must name a field, and the two
      fields without default must be given. */
  function FromKwargs(kw: map<string, bool>): (r: Result<CommonSettings, InitError>)
    ensures r.Ok? <==> kw.Keys <= FieldNames && NonLocalExec in kw && ImpliesNoSharedFs in kw
    ensures r.Ok? ==> r.value.nonLocalExec == kw[NonLocalExec] && r.value.impliesNoSharedFs == kw[ImpliesNoSharedFs]
    ensures r.Ok? ==> r.value.dryrunExec == Flag(kw, DryrunExec) && r.value.touchExec == Flag(kw, TouchExec)
    ensures r.Ok? ==> r.value.useThreads == Flag(kw, UseThreads)
    ensures r.Err? && r.error.MissingArguments? ==> r.error.names != []
  {
    if !(kw.Keys <= FieldNames) then Err(UnexpectedKeyword)
    else if NonLocalExec !in kw || ImpliesNoSharedFs !in kw then
      Err(MissingArguments((if NonLocalExec in kw then [] else [NonLocalExec])
                           + (if ImpliesNoSharedFs in kw then [] else [ImpliesNoSharedFs])))
    else
      Ok(CommonSettings(kw[NonLocalExec], kw[ImpliesNoSharedFs],
                        Flag(kw, DryrunExec), Flag(kw, TouchExec), Flag(kw, UseThreads)))
  }

  /** The record's fields as keywords (`dataclasses.asdict`). */
  function ToKwargs(s: CommonSettings): (kw: map<string, bool>)
    ensures kw.Keys == FieldNames
  {
    map[NonLocalExec := s.nonLocalExec, ImpliesNoSharedFs := s.impliesNoSharedFs,
        DryrunExec := s.dryrunExec, TouchExec := s.touchExec, UseThreads := s.useThreads]
  }

  /** Rebuilding a record from its own fields gives it back. */
  lemma KwargsRoundTrip(s: CommonSettings)
    ensures FromKwargs(ToKwargs(s)) == Ok(s)
  {
    var kw := ToKwargs(s);
    assert kw[NonLocalExec] == s.nonLocalExec;
    assert kw[ImpliesNoSharedFs] == s.impliesNoSharedFs;
    assert kw[DryrunExec] == s.dryrunExec;
    assert kw[TouchExec] == s.touchExec;
    assert kw[UseThreads] == s.useThreads;
  }

  /** Giving only the two required flags leaves the other three False. */
  lemma RequiredOnly(nonLocal: bool, noSharedFs: bool)
    ensures FromKwargs(map[NonLocalExec := nonLocal, ImpliesNoSharedFs := noSharedFs])
         == Ok(CommonSettings(nonLocal, noSharedFs, false, false, false))
  {
    var kw := map[NonLocalExec := nonLocal, ImpliesNoSharedFs := noSharedFs];
    assert DryrunExec !in kw && TouchExec !in kw && UseThreads !in kw;
  }

  /** `local_exec` is the negation of the `non_local_exec` that was given. */
  lemma LocalExecNegates(kw: map<string, bool>)
    requires FromKwargs(kw).Ok?
    ensures FromKwargs(kw).value.LocalExec() <==> !kw[NonLocalExec]
  {
  }

  /** `ExecMode`: DEFAULT = 0, SUBPROCESS = 1, REMOTE = 2. */
  datatype ExecMode = Default | Subprocess | Remote
  {
    function Value(): (v: int)
      ensures 0 <= v <= 2
    {
      match this
      case Default => 0
      case Subprocess => 1
      case Remote => 2
    }
  }

  function ExecModeFromValue(v: int): (r: Option<ExecMode>)
    ensures r.Some? <==> 0 <= v <= 2
    ensures r.Some? ==> r.value.Value() == v
  {
    if v == 0 then Some(Default) else if v == 1 then Some(Subprocess) else if v == 2 then Some(Remote) else None
  }

  /** `DeploymentMethod`: CONDA = 0, APPTAINER = 1, ENV_MODULES = 2. */
  datatype DeploymentMethod = Conda | Apptainer | EnvModules
  {
    function Value(): (v: int)
      ensures 0 <= v <= 2
    {
      match this
      case Conda => 0
      case Apptainer => 1
      case EnvModules => 2
    }
  }

  function DeploymentMethodFromValue(v: int): (r: Option<DeploymentMethod>)
    ensures r.Some? <==> 0 <= v <= 2
    ensures r.Some? ==> r.value.Value() == v
  {
    if v == 0 then Some(Conda) else if v == 1 then Some(Apptainer) else if v == 2 then Some(EnvModules) else None
  }

  /** Values identify members: three members, three distinct values. */
  lemma EnumValuesIdentify(m: ExecMode, d: DeploymentMethod)
    ensures ExecModeFromValue(m.Value()) == Some(m)
    ensures DeploymentMethodFromValue(d.Value()) == Some(d)
  {
  }
}
