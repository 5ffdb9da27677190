/** The `Plugin` record of the older package generation, which exists twice:
    in snakemake_executor_plugin_interface/__init__.py (the combined layout)
    and in snakemake_executor_plugin_interface/registry/plugin.py (the split
    layout). The two are the same code except for the value kinds they accept
    back from the command line. */
module LegacyPlugin {
  import opened Wrappers
  import Text
  import opened PyValues
  import opened AttributeTypes
  import opened Dataclasses
  import opened SettingsMapping
  import opened PluginValidation
  import ExecutorPlugin
  import ArgumentArgs

  /** Which of the two copies of the older generation. */
  datatype Layout = Combined | Split
  {
    /** `ArgTypes` includes `list` only in registry/plugin.py. */
    predicate AcceptsLists()
    {
      this == Split
    }
  }

  /** The module prefix of the older generation, the same text as the
      current one's. */
  const ModulePrefix := ArgumentArgs.ExecutorPluginModulePrefix

  const CommonSettingsClass := ClassRef("snakemake_executor_plugin_interface", "CommonSettings")
  const ExecutorSettingsBaseClass := ClassRef("snakemake_executor_plugin_interface", "ExecutorSettingsBase")

  /** What `_add_dataclass_options(dc, argparser)` adds: one argument per
      field of the renamed table, on the parser itself, without an environment
      variable. */
  function DataclassOptions(fs: FieldTable): (r: seq<ExecutorPlugin.Argument>)
    ensures |r| == |fs|
    ensures forall i | 0 <= i < |fs| :: r[i] == ExecutorPlugin.Argument(None, fs[i].0, None)
  {
    seq(|fs|, i requires 0 <= i < |fs| => ExecutorPlugin.Argument(None, fs[i].0, None))
  }

  /** Both generations declare one argument per renamed field, in the same
      order; only the group and the environment variable differ. */
  lemma SameArgumentsAsCurrent(title: string, fs: FieldTable)
    ensures var older := DataclassOptions(fs);
            var cur := ExecutorPlugin.GroupArguments(title, fs);
            |older| == |cur| && forall i | 0 <= i < |fs| :: older[i].field == cur[i].field && older[i].group == None && older[i].envVar == None
  {
  }

  method AddDataclassOptions(parser: ExecutorPlugin.ArgumentParser, fs: FieldTable)
    modifies parser
    ensures parser.arguments == old(parser.arguments) + DataclassOptions(fs)
  {
    for i := 0 to |fs|
      invariant parser.arguments == old(parser.arguments) + DataclassOptions(fs[..i])
    {
      parser.arguments := parser.arguments + [ExecutorPlugin.Argument(None, fs[i].0, None)];
      assert DataclassOptions(fs[..i + 1]) == DataclassOptions(fs[..i]) + [ExecutorPlugin.Argument(None, fs[i].0, None)];
    }
    assert fs[..|fs|] == fs;
  }

  /** A plugin of the older generation: `common_settings` and
      `ExecutorSettings` are read with `getattr(..., None)`. */
  datatype Plugin = Plugin(layout: Layout, name: string, executor: AttrValue,
                           commonSettings: Option<AttrValue>, executorSettingsCls: Option<AttrValue>)
  {
    /** `prefix`: the name with every occurrence of the module prefix removed. */
    function Prefix(): (r: string)
      ensures !Text.Occurs(name, ModulePrefix) ==> r == name
    {
      ArgumentArgs.ModulePrefixValue();
      if !Text.Occurs(name, ModulePrefix) then
        Text.ReplaceAllAbsent(name, ModulePrefix, "");
        Text.ReplaceAll(name, ModulePrefix, "")
      else
        Text.ReplaceAll(name, ModulePrefix, "")
    }

    /** `has_executor_settings()`: a settings value that is not None and not
        itself an `ExecutorSettingsBase` object. */
    predicate HasExecutorSettings()
    {
      executorSettingsCls.Some? && !IsInstance(executorSettingsCls.value, ExecutorSettingsBaseClass)
    }

    /** The field table of the settings class, when it is a dataclass. */
    function Table(): (r: Option<SettingsClass>)
      ensures r.Some? ==> HasExecutorSettings()
    {
      match executorSettingsCls
      case Some(ClassValue(_, t)) => t
      case _ => None
    }

    function Tables(): set<SettingsClass>
    {
      if Table().Some? then {Table().value} else {}
    }

    /** `register_cli_args(argparser)`: nothing without settings; otherwise the
        class's own fields are renamed to `<prefix>_<field>` and handed to
        `_add_dataclass_options`. False when the settings are no dataclass. */
    method RegisterCliArgs(parser: ExecutorPlugin.ArgumentParser) returns (ok: bool)
      requires Table().Some? ==> DistinctKeys(Table().value.fields)
      modifies parser, Tables()
      ensures ok <==> !HasExecutorSettings() || Table().Some?
      ensures Table().None? ==> parser.arguments == old(parser.arguments)
      ensures Table().Some? ==>
        var c := Table().value;
        c.fields == Renamed(old(c.fields), old(c.fields), Prefix())
        && DistinctKeys(c.fields)
        && parser.arguments == old(parser.arguments) + DataclassOptions(c.fields)
    {
      if !HasExecutorSettings() {
        return true;
      }
      if Table().None? {
        return false;
      }
      var c := Table().value;
      RenameFields(c, Prefix());
      AddDataclassOptions(parser, c.fields);
      return true;
    }

    /** `get_executor_settings(args)`: `ExecutorSettingsBase()` without
        settings; otherwise the class called with the accepted values read
        from the prefixed attributes, under the field names with the first
        `<name>_` removed. */
    method GetExecutorSettings(args: map<string, Value>)
      returns (r: Result<ExecutorPlugin.SettingsValue, ExecutorPlugin.SettingsError>)
      ensures !HasExecutorSettings() ==> r == Ok(ExecutorPlugin.BaseSettings)
      ensures HasExecutorSettings() && Table().None? ==> r == Err(ExecutorPlugin.NotADataclass)
      ensures Table().Some? ==>
        r == ExecutorPlugin.Construct(Table().value.params,
                                      Kwargs(Table().value.fields, name, args, layout.AcceptsLists()))
    {
      if !HasExecutorSettings() {
        return Ok(ExecutorPlugin.BaseSettings);
      }
      if Table().None? {
        return Err(ExecutorPlugin.NotADataclass);
      }
      var c := Table().value;
      var kwargs := CollectKwargs(c.fields, name, args, layout.AcceptsLists());
      return ExecutorPlugin.Construct(c.params, kwargs);
    }
  }

  /** An `ExecutorSettingsBase` object given as `ExecutorSettings` counts as no
      settings: nothing is registered and the base settings come back. */
  lemma BaseInstanceIsNoSettings(p: Plugin, mro: seq<ClassRef>)
    requires p.executorSettingsCls == Some(Instance(mro)) && ExecutorSettingsBaseClass in mro
    ensures !p.HasExecutorSettings() && p.Table().None?
  {
  }

  /** A list given for a field with a default: the split layout passes it on,
      the combined one drops it and the field keeps its default. */
  lemma CombinedDropsLists(t: FieldTable, name: string, args: map<string, Value>, i: int)
    requires DistinctKeys(t) && CollisionFree(t, name) && 0 <= i < |t|
    requires t[i].1.default.Some? && ArgValue(args, Prefixed(name, t[i].0)).List?
    ensures var combined := Init(t, Kwargs(Renamed(t, t, name), name, args, false));
            combined.Ok? ==> combined.value[i] == (t[i].0, t[i].1.default.value)
    ensures var split := Init(t, Kwargs(Renamed(t, t, name), name, args, true));
            split.Ok? ==> split.value[i] == (t[i].0, ArgValue(args, Prefixed(name, t[i].0)))
  {
    SettingsRoundTrip(t, name, args, false);
    SettingsRoundTrip(t, name, args, true);
  }
}
