/** The executor plugin registry of the current generation
    (snakemake_interface_executor_plugins/registry/__init__.py): the schema a
    plugin module must satisfy, how a validated module becomes a `Plugin`, and
    the collection of the installed plugins followed by the host's built-in
    executors. The shared registry base class (register, validate, collect the
    installed modules) is modelled after its documented behaviour. */
module ExecutorRegistry {
  import opened Wrappers
  import Text
  import opened AttributeTypes
  import opened Dataclasses
  import opened PluginValidation
  import ExecutorPlugin
  import ArgumentArgs

  /** `module_prefix`. */
  const ModulePrefix := ExecutorPlugin.ModulePrefix

  const CommonSettingsClass := ClassRef("snakemake_interface_executor_plugins.settings", "CommonSettings")
  const ExecutorSettingsBaseClass := ClassRef("snakemake_interface_executor_plugins.settings", "ExecutorSettingsBase")
  const AbstractExecutorClass := ClassRef("snakemake_interface_executor_plugins.executors.base", "AbstractExecutor")

  /** `expected_attributes()`, in the dict's order: a required
      `common_settings` object of `CommonSettings`, an optional
      `ExecutorSettings` class derived from `ExecutorSettingsBase`, and a
      required `Executor` class derived from `AbstractExecutor`. */
  function ExpectedAttributes(): seq<(string, AttributeType)>
  {
    Schema(CommonSettingsClass, ExecutorSettingsBaseClass, AbstractExecutorClass)
  }

  /** The schema names three distinct attributes, each with its kind. */
  lemma ExpectedAttributesShape()
    ensures var r := ExpectedAttributes();
            && |r| == 3 && DistinctKeys(r)
            && Lookup(r, "common_settings") == Some(AttributeType(CommonSettingsClass, Required, Object))
            && Lookup(r, "ExecutorSettings") == Some(AttributeType(ExecutorSettingsBaseClass, Optional, Class))
            && Lookup(r, "Executor") == Some(AttributeType(AbstractExecutorClass, Required, Class))
  {
  }

  predicate WellFormed(m: PyModule)
  {
    Satisfies(m, CommonSettingsClass, ExecutorSettingsBaseClass, AbstractExecutorClass)
  }

  /** `load_plugin(name, module)`: the module's `Executor` and
      `common_settings` (an AttributeError when either is missing), and its
      `ExecutorSettings`, or None without one. */
  function LoadPlugin(name: string, m: PyModule): (r: Option<ExecutorPlugin.Plugin>)
    ensures r.Some? <==> "Executor" in m && "common_settings" in m
    ensures r.Some? ==> r.value.name == name
    ensures r.Some? ==> r.value.executor == m["Executor"] && r.value.commonSettings == m["common_settings"]
    ensures r.Some? ==> (r.value.HasExecutorSettings() <==> "ExecutorSettings" in m)
    ensures r.Some? && "ExecutorSettings" in m ==> r.value.executorSettingsCls == Some(m["ExecutorSettings"])
  {
    if "Executor" !in m || "common_settings" !in m then None
    else
      Some(ExecutorPlugin.Plugin(name, m["Executor"], m["common_settings"],
                                 if "ExecutorSettings" in m then Some(m["ExecutorSettings"]) else None))
  }

  /** A module that passed validation can always be loaded. */
  lemma ValidatedLoads(plugin: string, name: string, m: PyModule)
    requires FirstError(plugin, m, ExpectedAttributes()).None?
    ensures LoadPlugin(name, m).Some?
  {
    SchemaAccepts(plugin, m, CommonSettingsClass, ExecutorSettingsBaseClass, AbstractExecutorClass);
  }

  /** The parameters of the generated `Plugin.__init__`, in declaration order. */
  const PluginParameters := ["name", "executor", "common_settings", "_executor_settings_cls"]

  /** The keywords `load_plugin` passes to `Plugin(...)`, in call order. */
  const LoadKeywords := ["_name", "executor", "common_settings", "_executor_settings_cls"]

  /** Why `load_plugin` as written raises: a module attribute it reads is
      missing, or the constructor rejects a keyword. */
  datatype LoadError = AttributeError(attr: string) | RejectedKeyword(keyword: string)

  /** The first keyword that names no parameter, as the generated `__init__`
      reports it. */
  function FirstUnknownKeyword(keywords: seq<string>, params: seq<string>): (r: Option<string>)
    ensures r.None? <==> forall i | 0 <= i < |keywords| :: keywords[i] in params
    ensures r.Some? ==> r.value in keywords && r.value !in params
  {
    if keywords == [] then None
    else if keywords[0] !in params then Some(keywords[0])
    else FirstUnknownKeyword(keywords[1..], params)
  }

  /** `load_plugin(name, module)` as written: the arguments are evaluated
      first (`module.Executor`, then `module.common_settings`), then the
      constructor checks its keywords. */
  function LoadPluginAsWritten(name: string, m: PyModule): (r: Result<ExecutorPlugin.Plugin, LoadError>)
    ensures "Executor" !in m ==> r == Err(AttributeError("Executor"))
    ensures "Executor" in m && "common_settings" !in m ==> r == Err(AttributeError("common_settings"))
  {
    if "Executor" !in m then Err(AttributeError("Executor"))
    else if "common_settings" !in m then Err(AttributeError("common_settings"))
    else
      match FirstUnknownKeyword(LoadKeywords, PluginParameters)
      case Some(k) => Err(RejectedKeyword(k))
      case None =>
        Ok(ExecutorPlugin.Plugin(name, m["Executor"], m["common_settings"],
                                 if "ExecutorSettings" in m then Some(m["ExecutorSettings"]) else None))
  }

  /** The discrepancy: the keyword `_name` is no parameter of `Plugin`, whose
      field is `name`, so even a module that passed validation is not loaded,
      while the intended `LoadPlugin` loads it. */
  lemma LoadPluginRejectsName(plugin: string, name: string, m: PyModule)
    requires FirstError(plugin, m, ExpectedAttributes()).None?
    ensures LoadPluginAsWritten(name, m) == Err(RejectedKeyword("_name"))
    ensures LoadPlugin(name, m).Some?
  {
    ValidatedLoads(plugin, name, m);
    assert LoadKeywords[0] !in PluginParameters;
  }

  /** The registered plugins, by stored name, in registration order. */
  type PluginTable = seq<(string, ExecutorPlugin.Plugin)>

  /** Why registration or collection stops: a module fails validation, or an
      installed plugin module cannot be imported. */
  datatype RegistryError = Invalid(error: ValidationError) | ImportFailed(moduleName: string)

  /** `register_plugin(name, module)`: nothing when `name` is registered
      already; otherwise the module is validated and the loaded plugin is
      stored under the name with the module prefix removed from its front. */
  function Register(plugins: PluginTable, name: string, m: PyModule): (r: Result<PluginTable, RegistryError>)
    ensures HasKey(plugins, name) ==> r == Ok(plugins)
    ensures r.Err? <==> !HasKey(plugins, name) && !WellFormed(m)
    ensures r.Err? ==> r.error == Invalid(FirstError(name, m, ExpectedAttributes()).value)
    ensures r.Ok? && !HasKey(plugins, name) ==>
      var key := Text.RemovePrefix(name, ModulePrefix);
      r.value == Put(plugins, key, LoadPlugin(key, m).value)
  {
    SchemaAccepts(name, m, CommonSettingsClass, ExecutorSettingsBaseClass, AbstractExecutorClass);
    if HasKey(plugins, name) then Ok(plugins)
    else
      match FirstError(name, m, ExpectedAttributes())
      case Some(e) => Err(Invalid(e))
      case None =>
        var key := Text.RemovePrefix(name, ModulePrefix);
        Ok(Put(plugins, key, LoadPlugin(key, m).value))
  }

  /** Registering the same module under the same name a second time changes
      nothing. */
  lemma RegisterIdempotent(plugins: PluginTable, name: string, m: PyModule)
    requires Register(plugins, name, m).Ok?
    ensures var p := Register(plugins, name, m).value;
            Register(p, name, m) == Ok(p)
  {
    var p := Register(plugins, name, m).value;
    if !HasKey(plugins, name) && !HasKey(p, name) {
      var key := Text.RemovePrefix(name, ModulePrefix);
      PutTwice(plugins, key, LoadPlugin(key, m).value);
    }
  }

  /** A registered name stays registered whatever is registered next. */
  lemma RegisterKeepsKeys(plugins: PluginTable, name: string, m: PyModule, k: string)
    requires HasKey(plugins, k) && Register(plugins, name, m).Ok?
    ensures HasKey(Register(plugins, name, m).value, k)
  {
    if !HasKey(plugins, name) {
      var key := Text.RemovePrefix(name, ModulePrefix);
      var i :| 0 <= i < |plugins| && plugins[i].0 == k;
      assert Put(plugins, key, LoadPlugin(key, m).value)[i].0 == k;
    }
  }

  /** The outcome of a loop that registers modules: the table it leaves
      behind, and the error that ended it early. */
  datatype Outcome = Outcome(plugins: PluginTable, error: Option<RegistryError>)

  /** `register_plugin` for each (name, module) in order, stopping at the
      first error. */
  function RegisterEach(plugins: PluginTable, mods: seq<(string, PyModule)>): Outcome
    decreases |mods|
  {
    if mods == [] then Outcome(plugins, None)
    else
      match Register(plugins, mods[0].0, mods[0].1)
      case Err(e) => Outcome(plugins, Some(e))
      case Ok(p) => RegisterEach(p, mods[1..])
  }

  /** Well-formed modules never stop the registration loop. */
  lemma {:induction false} RegisterEachWellFormed(plugins: PluginTable, mods: seq<(string, PyModule)>)
    requires forall i | 0 <= i < |mods| :: WellFormed(mods[i].1)
    ensures RegisterEach(plugins, mods).error.None?
    decreases |mods|
  {
    if mods != [] {
      assert WellFormed(mods[0].1);
      var r := Register(plugins, mods[0].0, mods[0].1);
      assert r.Ok?;
      RegisterEachWellFormed(r.value, mods[1..]);
    }
  }

  /** The base class's collection: every installed module whose name starts
      with the module prefix is imported and registered, in order; an import
      failure or an invalid plugin aborts. Only an installed prefixed module
      that cannot be imported fails the import, and without any prefixed
      module nothing changes. */
  function CollectInstalled(plugins: PluginTable, installed: seq<string>, modules: map<string, PyModule>): (r: Outcome)
    ensures r.error.Some? && r.error.value.ImportFailed? ==>
      var n := r.error.value.moduleName;
      n in installed && Text.StartsWith(n, ModulePrefix) && n !in modules
    ensures (forall n | n in installed :: !Text.StartsWith(n, ModulePrefix)) ==> r == Outcome(plugins, None)
    decreases |installed|
  {
    if installed == [] then Outcome(plugins, None)
    else
      var name := installed[0];
      assert forall n | n in installed[1..] :: n in installed;
      if !Text.StartsWith(name, ModulePrefix) then CollectInstalled(plugins, installed[1..], modules)
      else if name !in modules then Outcome(plugins, Some(ImportFailed(name)))
      else
        match Register(plugins, name, modules[name])
        case Err(e) => Outcome(plugins, Some(e))
        case Ok(p) =>
          assert forall n | n in installed[1..] :: n in installed;
          CollectInstalled(p, installed[1..], modules)
  }

  /** The host's `snakemake.executors.local`, `.dryrun` and `.touch` modules. */
  datatype Builtins = Builtins(local: PyModule, dryrun: PyModule, touch: PyModule)

  const LocalName := "snakemake.executors.local"
  const DryrunName := "snakemake.executors.dryrun"
  const TouchName := "snakemake.executors.touch"

  /** The built-in executors under their `__name__`, in registration order. */
  function BuiltinModules(b: Builtins): seq<(string, PyModule)>
  {
    [(LocalName, b.local), (DryrunName, b.dryrun), (TouchName, b.touch)]
  }

  /** `collect_plugins()`: the base collection, then, when the host can be
      imported (`builtins` is not None), its three built-in executors. A
      failed base collection, or a missing host, ends it there. */
  function Collect(plugins: PluginTable, installed: seq<string>, modules: map<string, PyModule>,
                   builtins: Option<Builtins>): (r: Outcome)
    ensures CollectInstalled(plugins, installed, modules).error.Some? || builtins.None? ==>
      r == CollectInstalled(plugins, installed, modules)
    ensures builtins.Some? && WellFormed(builtins.value.local) && WellFormed(builtins.value.dryrun)
            && WellFormed(builtins.value.touch) ==>
      r.error == CollectInstalled(plugins, installed, modules).error
  {
    var base := CollectInstalled(plugins, installed, modules);
    if base.error.Some? || builtins.None? then base
    else
      var mods := BuiltinModules(builtins.value);
      if WellFormed(builtins.value.local) && WellFormed(builtins.value.dryrun) && WellFormed(builtins.value.touch) then
        RegisterEachWellFormed(base.plugins, mods);
        RegisterEach(base.plugins, mods)
      else
        RegisterEach(base.plugins, mods)
  }

  /** Without the host, collection is the base collection and nothing else. */
  lemma NoHostNoBuiltins(plugins: PluginTable, installed: seq<string>, modules: map<string, PyModule>)
    ensures Collect(plugins, installed, modules, None) == CollectInstalled(plugins, installed, modules)
    ensures forall k | HasKey(Collect(plugins, installed, modules, None).plugins, k) ::
      HasKey(plugins, k) || exists n | n in installed :: Text.StartsWith(n, ModulePrefix) && k == n[|ModulePrefix|..]
  {
    CollectedKeys(plugins, installed, modules);
  }

  /** Every stored name was there before or is an installed prefixed module
      name with the prefix removed. */
  lemma {:induction false} CollectedKeys(plugins: PluginTable, installed: seq<string>, modules: map<string, PyModule>)
    ensures forall k | HasKey(CollectInstalled(plugins, installed, modules).plugins, k) ::
      HasKey(plugins, k) || exists n | n in installed :: Text.StartsWith(n, ModulePrefix) && k == n[|ModulePrefix|..]
    decreases |installed|
  {
    if installed != [] {
      var name := installed[0];
      assert forall n | n in installed[1..] :: n in installed;
      if !Text.StartsWith(name, ModulePrefix) {
        CollectedKeys(plugins, installed[1..], modules);
      } else if name in modules {
        var r := Register(plugins, name, modules[name]);
        if r.Ok? {
          CollectedKeys(r.value, installed[1..], modules);
          forall k | HasKey(r.value, k)
            ensures HasKey(plugins, k) || k == name[|ModulePrefix|..]
          {
            if !HasKey(plugins, name) && !HasKey(plugins, k) {
              var key := Text.RemovePrefix(name, ModulePrefix);
              var p := LoadPlugin(key, modules[name]).value;
              assert r.value == plugins + [(key, p)];
              var i :| 0 <= i < |r.value| && r.value[i].0 == k;
              assert i == |plugins|;
            }
          }
        }
      }
    }
  }

  /** With the host present and none of its executors registered yet, a
      successful collection appends local, dryrun and touch, in that order,
      after the installed plugins. */
  lemma BuiltinsAppendedInOrder(plugins: PluginTable, installed: seq<string>, modules: map<string, PyModule>, b: Builtins)
    requires CollectInstalled(plugins, installed, modules).error.None?
    requires WellFormed(b.local) && WellFormed(b.dryrun) && WellFormed(b.touch)
    requires var base := CollectInstalled(plugins, installed, modules).plugins;
             !HasKey(base, LocalName) && !HasKey(base, DryrunName) && !HasKey(base, TouchName)
    ensures var base := CollectInstalled(plugins, installed, modules).plugins;
            Collect(plugins, installed, modules, Some(b))
            == Outcome(base + [(LocalName, LoadPlugin(LocalName, b.local).value),
                               (DryrunName, LoadPlugin(DryrunName, b.dryrun).value),
                               (TouchName, LoadPlugin(TouchName, b.touch).value)], None)
  {
    RegisterBuiltins(CollectInstalled(plugins, installed, modules).plugins, b);
  }

  /** The built-in executors' module names do not start with the plugin
      module prefix, so they are stored under their full names. */
  lemma BuiltinNamesUnprefixed()
    ensures !Text.StartsWith(LocalName, ModulePrefix)
    ensures !Text.StartsWith(DryrunName, ModulePrefix)
    ensures !Text.StartsWith(TouchName, ModulePrefix)
  {
    ArgumentArgs.ModulePrefixValue();
    assert LocalName[9] != ModulePrefix[9];
    assert DryrunName[9] != ModulePrefix[9];
    assert TouchName[9] != ModulePrefix[9];
  }

  /** A well-formed module under a new, unprefixed name is appended. */
  lemma RegisterAppends(plugins: PluginTable, name: string, m: PyModule)
    requires WellFormed(m) && !HasKey(plugins, name) && !Text.StartsWith(name, ModulePrefix)
    ensures Register(plugins, name, m) == Ok(plugins + [(name, LoadPlugin(name, m).value)])
  {
  }

  /** The first step of the registration loop over such a module. */
  lemma RegisterEachHead(plugins: PluginTable, mods: seq<(string, PyModule)>)
    requires mods != [] && WellFormed(mods[0].1)
    requires !HasKey(plugins, mods[0].0) && !Text.StartsWith(mods[0].0, ModulePrefix)
    ensures LoadPlugin(mods[0].0, mods[0].1).Some?
    ensures RegisterEach(plugins, mods)
            == RegisterEach(plugins + [(mods[0].0, LoadPlugin(mods[0].0, mods[0].1).value)], mods[1..])
  {
    RegisterAppends(plugins, mods[0].0, mods[0].1);
  }

  /** Appending an entry under another key adds none of the given keys. */
  lemma HasNoneAppend(plugins: PluginTable, e: (string, ExecutorPlugin.Plugin), mods: seq<(string, PyModule)>)
    requires forall i | 0 <= i < |mods| :: !HasKey(plugins, mods[i].0) && mods[i].0 != e.0
    ensures forall i | 0 <= i < |mods| :: !HasKey(plugins + [e], mods[i].0)
  {
    forall i | 0 <= i < |mods|
      ensures !HasKey(plugins + [e], mods[i].0)
    {
      HasKeyAppend(plugins, mods[i].0, e);
    }
  }

  /** The plugins that well-formed modules load to, under their own names. */
  function Loaded(mods: seq<(string, PyModule)>): (r: PluginTable)
    requires forall i | 0 <= i < |mods| :: WellFormed(mods[i].1)
    ensures |r| == |mods|
    decreases |mods|
  {
    if mods == [] then []
    else
      ValidLoads(mods[0].0, mods[0].1);
      [(mods[0].0, LoadPlugin(mods[0].0, mods[0].1).value)] + Loaded(mods[1..])
  }

  lemma ValidLoads(name: string, m: PyModule)
    requires WellFormed(m)
    ensures LoadPlugin(name, m).Some?
  {
    assert Register([], name, m).Ok?;
  }

  /** Well-formed modules under new, distinct, unprefixed names are
      registered by appending them in order. */
  lemma {:induction false} RegisterEachAppends(plugins: PluginTable, mods: seq<(string, PyModule)>)
    requires forall i | 0 <= i < |mods| :: WellFormed(mods[i].1)
    requires forall i | 0 <= i < |mods| :: !HasKey(plugins, mods[i].0) && !Text.StartsWith(mods[i].0, ModulePrefix)
    requires forall i, j | 0 <= i < j < |mods| :: mods[i].0 != mods[j].0
    ensures RegisterEach(plugins, mods) == Outcome(plugins + Loaded(mods), None)
    decreases |mods|
  {
    if mods != [] {
      RegisterEachHead(plugins, mods);
      var e := (mods[0].0, LoadPlugin(mods[0].0, mods[0].1).value);
      HasNoneAppend(plugins, e, mods[1..]);
      RegisterEachAppends(plugins + [e], mods[1..]);
      assert Loaded(mods) == [e] + Loaded(mods[1..]);
    }
  }

  /** The three registrations of `collect_plugins`, one after the other. */
  lemma RegisterBuiltins(base: PluginTable, b: Builtins)
    requires WellFormed(b.local) && WellFormed(b.dryrun) && WellFormed(b.touch)
    requires !HasKey(base, LocalName) && !HasKey(base, DryrunName) && !HasKey(base, TouchName)
    ensures RegisterEach(base, BuiltinModules(b))
            == Outcome(base + [(LocalName, LoadPlugin(LocalName, b.local).value),
                               (DryrunName, LoadPlugin(DryrunName, b.dryrun).value),
                               (TouchName, LoadPlugin(TouchName, b.touch).value)], None)
  {
    var mods := BuiltinModules(b);
    BuiltinNamesUnprefixed();
    RegisterEachAppends(base, mods);
    assert Loaded(mods[2..]) == [(TouchName, LoadPlugin(TouchName, b.touch).value)];
    assert Loaded(mods[1..]) == [(DryrunName, LoadPlugin(DryrunName, b.dryrun).value)] + Loaded(mods[2..]);
  }

  /** The registry object. */
  class Registry {
    var plugins: PluginTable

    constructor()
      ensures plugins == []
    {
      plugins := [];
    }

    /** `register_plugin(name, module)`; a rejected module leaves the table as it was. */
    method RegisterPlugin(name: string, m: PyModule) returns (err: Option<RegistryError>)
      modifies this
      ensures err.None? <==> Register(old(plugins), name, m).Ok?
      ensures err.None? ==> plugins == Register(old(plugins), name, m).value
      ensures err.Some? ==> plugins == old(plugins) && Register(old(plugins), name, m) == Err(err.value)
    {
      if Lookup(plugins, name).Some? {
        return None;
      }
      var e := ValidatePlugin(name, m, ExpectedAttributes());
      if e.Some? {
        return Some(Invalid(e.value));
      }
      var key := Text.RemovePrefix(name, ModulePrefix);
      ValidatedLoads(name, key, m);
      var p := LoadPlugin(key, m);
      plugins := Put(plugins, key, p.value);
      return None;
    }

    /** `collect_plugins()`. */
    method CollectPlugins(installed: seq<string>, modules: map<string, PyModule>, builtins: Option<Builtins>)
      returns (err: Option<RegistryError>)
      modifies this
      ensures Outcome(plugins, err) == Collect(old(plugins), installed, modules, builtins)
    {
      err := CollectInstalledPlugins(installed, modules);
      if err.Some? || builtins.None? {
        return;
      }
      var mods := BuiltinModules(builtins.value);
      ghost var start := plugins;
      for i := 0 to |mods|
        invariant RegisterEach(start, mods) == RegisterEach(plugins, mods[i..])
        invariant err.None?
      {
        assert mods[i..][1..] == mods[i + 1..];
        err := RegisterPlugin(mods[i].0, mods[i].1);
        if err.Some? {
          return;
        }
      }
      assert mods[|mods|..] == [];
    }

    /** The base class's loop over the installed modules. */
    method CollectInstalledPlugins(installed: seq<string>, modules: map<string, PyModule>)
      returns (err: Option<RegistryError>)
      modifies this
      ensures Outcome(plugins, err) == CollectInstalled(old(plugins), installed, modules)
    {
      for i := 0 to |installed|
        invariant CollectInstalled(old(plugins), installed, modules) == CollectInstalled(plugins, installed[i..], modules)
      {
        assert installed[i..][1..] == installed[i + 1..];
        var name := installed[i];
        if !Text.StartsWith(name, ModulePrefix) {
          continue;
        }
        if name !in modules {
          return Some(ImportFailed(name));
        }
        err := RegisterPlugin(name, modules[name]);
        if err.Some? {
          return;
        }
      }
      return None;
    }
  }
}
