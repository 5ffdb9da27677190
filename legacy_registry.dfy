/** The singleton plugin registry of the older package generation, in its
    combined layout (snakemake_executor_plugin_interface/__init__.py) and its
    split layout (snakemake_executor_plugin_interface/registry/__init__.py).
    Both collect the installed modules whose name starts with the module
    prefix, validate each and store it; they differ in how the stored name is
    derived. */
module LegacyRegistry {
  import opened Wrappers
  import Text
  import opened AttributeTypes
  import opened Dataclasses
  import opened PluginValidation
  import opened LegacyPlugin
  import ArgumentArgs

  const AbstractExecutorClass := ClassRef("snakemake.executors", "AbstractExecutor")

  /** The interface package itself, which also starts with the prefix. */
  const InterfacePackage := "snakemake_executor_plugin_interface"

  /** `expected_attributes` of `_validate_plugin`: `CommonSettings`,
      `Optional[type[ExecutorSettingsBase]]`, `type[AbstractExecutor]`. */
  function ExpectedAttributes(): seq<(string, AttributeType)>
  {
    Schema(CommonSettingsClass, ExecutorSettingsBaseClass, AbstractExecutorClass)
  }

  /** The schema names three distinct attributes, each with its kind. */
  lemma ExpectedAttributesShape()
    ensures var r := ExpectedAttributes();
            && |r| == 3 && DistinctKeys(r)
            && Lookup(r, "common_settings") == Some(AttributeType(CommonSettingsClass, Required, Object))
            && Lookup(r, "ExecutorSettings") == Some(AttributeType(ExecutorSettingsBaseClass, Optional, Class))
            && Lookup(r, "Executor") == Some(AttributeType(AbstractExecutorClass, Required, Class))
  {
  }

  predicate WellFormed(m: PyModule)
  {
    Satisfies(m, CommonSettingsClass, ExecutorSettingsBaseClass, AbstractExecutorClass)
  }

  /** The name a module is stored under: every occurrence of the prefix
      removed (`str.replace`) in the combined layout, a leading prefix removed
      once (`str.removeprefix`) in the split one. */
  function StoredName(layout: Layout, name: string): (r: string)
    ensures layout == Split ==> r == Text.RemovePrefix(name, ModulePrefix)
    ensures !Text.Occurs(name, ModulePrefix) ==> r == name
  {
    ArgumentArgs.ModulePrefixValue();
    if !Text.Occurs(name, ModulePrefix) then
      Text.ReplaceAllAbsent(name, ModulePrefix, "");
      Text.StartsWithOccurs(name, ModulePrefix);
      match layout
      case Combined => Text.ReplaceAll(name, ModulePrefix, "")
      case Split => Text.RemovePrefix(name, ModulePrefix)
    else
      match layout
      case Combined => Text.ReplaceAll(name, ModulePrefix, "")
      case Split => Text.RemovePrefix(name, ModulePrefix)
  }

  /** For a module name made of the prefix and a rest that does not contain
      it again, both layouts store the rest. */
  lemma StoredNamesAgree(rest: string)
    requires !Text.Occurs(rest, ModulePrefix)
    ensures StoredName(Combined, ModulePrefix + rest) == rest
    ensures StoredName(Split, ModulePrefix + rest) == rest
  {
    ArgumentArgs.ModulePrefixValue();
    var name := ModulePrefix + rest;
    assert name[..|ModulePrefix|] == ModulePrefix;
    assert name[|ModulePrefix|..] == rest;
    Text.ReplaceAllAbsent(rest, ModulePrefix, "");
  }

  /** A rest that repeats the prefix: the combined layout removes both
      occurrences, the split layout only the leading one. */
  lemma StoredNamesDiffer()
    ensures StoredName(Combined, ModulePrefix + ModulePrefix + "x") == "x"
    ensures StoredName(Split, ModulePrefix + ModulePrefix + "x") == ModulePrefix + "x"
  {
    ArgumentArgs.ModulePrefixValue();
    var p := ModulePrefix;
    var name := p + p + "x";
    assert name[..|p|] == p;
    assert name[|p|..] == p + "x";
    var tail := p + "x";
    assert tail[..|p|] == p;
    assert tail[|p|..] == "x";
    assert Text.ReplaceAll("x", p, "") == "x";
    assert Text.ReplaceAll(tail, p, "") == "" + Text.ReplaceAll("x", p, "");
    assert Text.ReplaceAll(name, p, "") == "" + Text.ReplaceAll(tail, p, "");
  }

  /** The plugins by stored name, in registration order. */
  type PluginTable = seq<(string, LegacyPlugin.Plugin)>

  /** Why collection stops: a module is invalid, or cannot be imported. */
  datatype RegistryError = Invalid(error: ValidationError) | ImportFailed(moduleName: string)

  /** `_register_plugin(name, module)`: validation first; then the plugin,
      named by its stored name, goes under that name, replacing an earlier
      entry in place. */
  function Register(layout: Layout, plugins: PluginTable, name: string, m: PyModule): (r: Result<PluginTable, RegistryError>)
    ensures r.Err? <==> !WellFormed(m)
    ensures r.Err? ==> r.error == Invalid(FirstError(name, m, ExpectedAttributes()).value)
    ensures r.Ok? ==>
      var key := StoredName(layout, name);
      && HasKey(r.value, key)
      && Lookup(r.value, key) == Some(LegacyPlugin.Plugin(layout, key, m["Executor"],
           if "common_settings" in m then Some(m["common_settings"]) else None,
           if "ExecutorSettings" in m then Some(m["ExecutorSettings"]) else None))
      && forall k | k != key :: Lookup(r.value, k) == Lookup(plugins, k)
  {
    SchemaAccepts(name, m, CommonSettingsClass, ExecutorSettingsBaseClass, AbstractExecutorClass);
    match FirstError(name, m, ExpectedAttributes())
    case Some(e) => Err(Invalid(e))
    case None =>
      var key := StoredName(layout, name);
      var p := LegacyPlugin.Plugin(layout, key, m["Executor"],
                                   if "common_settings" in m then Some(m["common_settings"]) else None,
                                   if "ExecutorSettings" in m then Some(m["ExecutorSettings"]) else None);
      PutLookup(plugins, key, p);
      Ok(Put(plugins, key, p))
  }

  /** Registering the same module under the same name again stores an equal
      plugin: the table does not change. */
  lemma ReRegisterEqual(layout: Layout, plugins: PluginTable, name: string, m: PyModule)
    requires Register(layout, plugins, name, m).Ok?
    ensures var p := Register(layout, plugins, name, m).value;
            Register(layout, p, name, m) == Ok(p)
  {
    var key := StoredName(layout, name);
    var pl := LegacyPlugin.Plugin(layout, key, m["Executor"],
                                  if "common_settings" in m then Some(m["common_settings"]) else None,
                                  if "ExecutorSettings" in m then Some(m["ExecutorSettings"]) else None);
    PutTwice(plugins, key, pl);
  }

  /** The outcome of the collection loop: the table it leaves behind and the
      error that ended it early. */
  datatype Outcome = Outcome(plugins: PluginTable, error: Option<RegistryError>)

  /** The modules the loop registers: those whose name starts with the
      prefix, other than the interface package. */
  predicate Candidate(name: string)
  {
    Text.StartsWith(name, ModulePrefix) && name != InterfacePackage
  }

  /** The loop of `_collect_plugins` over the installed module names, from a
      given table: each candidate is imported and registered, in order; an
      import failure or an invalid plugin ends it. Only a candidate that cannot
      be imported fails the import, and without any candidate nothing
      changes. */
  function CollectFrom(layout: Layout, plugins: PluginTable, installed: seq<string>, modules: map<string, PyModule>): (r: Outcome)
    ensures r.error.Some? && r.error.value.ImportFailed? ==>
      var n := r.error.value.moduleName;
      n in installed && Candidate(n) && n !in modules
    ensures (forall n | n in installed :: !Candidate(n)) ==> r == Outcome(plugins, None)
    decreases |installed|
  {
    if installed == [] then Outcome(plugins, None)
    else
      var name := installed[0];
      assert forall n | n in installed[1..] :: n in installed;
      if !Candidate(name) then CollectFrom(layout, plugins, installed[1..], modules)
      else if name !in modules then Outcome(plugins, Some(ImportFailed(name)))
      else
        match Register(layout, plugins, name, modules[name])
        case Err(e) => Outcome(plugins, Some(e))
        case Ok(p) => CollectFrom(layout, p, installed[1..], modules)
  }

  /** `_collect_plugins()`: the table starts empty, so every stored name is
      the stored name of an installed candidate. */
  function Collect(layout: Layout, installed: seq<string>, modules: map<string, PyModule>): (r: Outcome)
    ensures forall k | HasKey(r.plugins, k) :: exists n | n in installed :: Candidate(n) && k == StoredName(layout, n)
    ensures (forall n | n in installed :: !Candidate(n)) ==> r == Outcome([], None)
  {
    CollectedFromCandidates(layout, [], installed, modules);
    CollectFrom(layout, [], installed, modules)
  }

  /** Every stored name comes from a candidate module name; in particular
      the interface package is never registered. */
  lemma {:induction false} CollectedFromCandidates(layout: Layout, plugins: PluginTable, installed: seq<string>, modules: map<string, PyModule>)
    ensures forall k | HasKey(CollectFrom(layout, plugins, installed, modules).plugins, k) ::
      HasKey(plugins, k) || exists n | n in installed :: Candidate(n) && k == StoredName(layout, n)
    decreases |installed|
  {
    if installed != [] {
      var name := installed[0];
      assert forall n | n in installed[1..] :: n in installed;
      if !Candidate(name) {
        CollectedFromCandidates(layout, plugins, installed[1..], modules);
      } else if name in modules {
        var r := Register(layout, plugins, name, modules[name]);
        if r.Ok? {
          CollectedFromCandidates(layout, r.value, installed[1..], modules);
          forall k | HasKey(r.value, k)
            ensures HasKey(plugins, k) || k == StoredName(layout, name)
          {
            if k != StoredName(layout, name) {
              assert Lookup(r.value, k) == Lookup(plugins, k);
            }
          }
        }
      }
    }
  }

  /** A collection that stops at an invalid module reports it, and leaves
      exactly what was registered before it. */
  lemma FirstInvalidStops(layout: Layout, plugins: PluginTable, name: string, rest: seq<string>, modules: map<string, PyModule>)
    requires Candidate(name) && name in modules && !WellFormed(modules[name])
    ensures CollectFrom(layout, plugins, [name] + rest, modules)
            == Outcome(plugins, Some(Invalid(FirstError(name, modules[name], ExpectedAttributes()).value)))
  {
    assert ([name] + rest)[0] == name;
  }

  /** The registry object: `executor_base_cls` is set once `__init__` ran. */
  class Registry {
    const layout: Layout
    var plugins: PluginTable
    var initialized: bool

    constructor(layout: Layout)
      ensures this.layout == layout && plugins == [] && !initialized
    {
      this.layout := layout;
      plugins := [];
      initialized := false;
    }

    /** `__init__()`: a second call returns at once; the first marks the
        registry initialized before collecting, so a failed collection is not
        retried either. */
    method Init(installed: seq<string>, modules: map<string, PyModule>) returns (err: Option<RegistryError>)
      modifies this
      ensures old(initialized) ==> plugins == old(plugins) && initialized && err.None?
      ensures !old(initialized) ==> initialized && Outcome(plugins, err) == Collect(layout, installed, modules)
    {
      if initialized {
        return None;
      }
      initialized := true;
      err := CollectPlugins(installed, modules);
    }

    /** `_register_plugin(name, module)`; a rejected module leaves the table as it was. */
    method RegisterPlugin(name: string, m: PyModule) returns (err: Option<RegistryError>)
      modifies this
      ensures initialized == old(initialized)
      ensures err.None? <==> Register(layout, old(plugins), name, m).Ok?
      ensures err.None? ==> plugins == Register(layout, old(plugins), name, m).value
      ensures err.Some? ==> plugins == old(plugins) && Register(layout, old(plugins), name, m) == Err(err.value)
    {
      var e := ValidatePlugin(name, m, ExpectedAttributes());
      if e.Some? {
        return Some(Invalid(e.value));
      }
      SchemaAccepts(name, m, CommonSettingsClass, ExecutorSettingsBaseClass, AbstractExecutorClass);
      var key := StoredName(layout, name);
      var common := if "common_settings" in m then Some(m["common_settings"]) else None;
      var settings := if "ExecutorSettings" in m then Some(m["ExecutorSettings"]) else None;
      plugins := Put(plugins, key, LegacyPlugin.Plugin(layout, key, m["Executor"], common, settings));
      return None;
    }

    /** `_collect_plugins()`. */
    method CollectPlugins(installed: seq<string>, modules: map<string, PyModule>) returns (err: Option<RegistryError>)
      modifies this
      ensures initialized == old(initialized)
      ensures Outcome(plugins, err) == Collect(layout, installed, modules)
    {
      plugins := [];
      for i := 0 to |installed|
        invariant initialized == old(initialized)
        invariant Collect(layout, installed, modules) == CollectFrom(layout, plugins, installed[i..], modules)
      {
        assert installed[i..][1..] == installed[i + 1..];
        var name := installed[i];
        if !Text.StartsWith(name, ModulePrefix) || name == InterfacePackage {
          continue;
        }
        if name !in modules {
          return Some(ImportFailed(name));
        }
        err := RegisterPlugin(name, modules[name]);
        if err.Some? {
          return;
        }
      }
      return None;
    }
  }

  /** The class attribute `_instance` behind `__new__`. */
  class RegistryClass {
    const layout: Layout
    var instance: Registry?

    constructor(layout: Layout)
      ensures this.layout == layout && instance == null
    {
      this.layout := layout;
      instance := null;
    }

    /** `__new__`: the first call creates the instance, every later call
        returns that same object. */
    method New() returns (r: Registry)
      modifies this
      ensures old(instance) != null ==> r == old(instance)
      ensures old(instance) == null ==> fresh(r) && r.layout == layout && r.plugins == [] && !r.initialized
      ensures instance == r
    {
      if instance == null {
        instance := new Registry(layout);
      }
      r := instance;
    }
  }

  /** `ExecutorPluginRegistry()` twice: the same object, collected once. */
  method ConstructTwice(rc: RegistryClass, installed: seq<string>, modules: map<string, PyModule>)
    returns (first: Registry, second: Registry)
    requires rc.instance == null
    modifies rc
    ensures first == second
    ensures first.initialized && first.plugins == Collect(rc.layout, installed, modules).plugins
  {
    first := rc.New();
    var err1 := first.Init(installed, modules);
    second := rc.New();
    var err2 := second.Init(installed, modules);
  }
}
