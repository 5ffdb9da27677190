/** A registered executor plugin and the mapping between its settings class
    and the host's command line
    (snakemake_interface_executor_plugins/registry/plugin.py). */
module ExecutorPlugin {
  import opened Wrappers
  import Text
  import opened PyValues
  import opened Dataclasses
  import opened SettingsMapping
  import opened PluginValidation
  import ArgumentArgs

  /** One `add_argument` call: the argument group it went into (None for the
      parser itself), the field it was derived from, and its `env_var`. */
  datatype Argument = Argument(group: Option<string>, field: string, envVar: Option<string>)

  /** The host's argument parser, reduced to the arguments added to it. */
  class ArgumentParser {
    var arguments: seq<Argument>

    constructor()
      ensures arguments == []
    {
      arguments := [];
    }
  }

  /** What `get_executor_settings` builds: a plain `ExecutorSettingsBase()`, or
      an instance of the plugin's settings class with a value per parameter. */
  datatype SettingsValue = BaseSettings | SettingsInstance(values: seq<(string, Value)>)

  /** Why `get_executor_settings` or `register_cli_args` raises: `fields()` on
      a class that is no dataclass, or the settings class's `__init__`. */
  datatype SettingsError = NotADataclass | InitFailed(error: InitError)

  /** `cls(**kwargs)` as seen from the plugin. */
  function Construct(params: FieldTable, kwargs: seq<(string, Value)>): (r: Result<SettingsValue, SettingsError>)
    ensures r.Ok? <==> Init(params, kwargs).Ok?
    ensures r.Ok? ==> r.value == SettingsInstance(Init(params, kwargs).value)
  {
    match Init(params, kwargs)
    case Ok(values) => Ok(SettingsInstance(values))
    case Err(e) => Err(InitFailed(e))
  }

  const ModulePrefix := ArgumentArgs.ExecutorPluginModulePrefix

  lemma ModulePrefixNonEmpty()
    ensures |ModulePrefix| == 26
  {
  }

  /** The environment variable an argument reads: `SNAKEMAKE_` and the
      upper-cased prefixed field name. */
  function EnvVarName(prefixedName: string): (r: string)
    ensures |r| == 10 + |prefixedName|
    ensures r[10..] == Text.Upper(prefixedName)
  {
    "SNAKEMAKE_" + Text.Upper(prefixedName)
  }

  /** The arguments of the settings group: one per field of the (renamed)
      table, in table order; a field whose metadata sets "env_var" reads the
      variable named after itself. */
  function GroupArguments(title: string, fs: FieldTable): (r: seq<Argument>)
    ensures |r| == |fs|
    ensures forall i | 0 <= i < |fs| :: r[i].group == Some(title) && r[i].field == fs[i].0
    ensures forall i | 0 <= i < |fs| :: r[i].envVar.Some? <==> fs[i].1.envVar
    ensures forall i | 0 <= i < |fs| && fs[i].1.envVar :: r[i].envVar == Some(EnvVarName(fs[i].0))
  {
    seq(|fs|, i requires 0 <= i < |fs| =>
      Argument(Some(title), fs[i].0, if fs[i].1.envVar then Some(EnvVarName(fs[i].0)) else None))
  }

  /** The group as `register_cli_args` writes it for the settings class's
      own table `params`: the second loop runs over the renamed table, but
      every `env_var` is named after `prefixed_name`, the variable the
      renaming loop left behind, which holds the prefixed name of the last
      field of `params`. An empty table adds no argument. */
  function GroupArgumentsAsWritten(title: string, params: FieldTable, prefix: string): (r: seq<Argument>)
    ensures |r| == |Renamed(params, params, prefix)|
    ensures params == [] ==> r == []
    ensures forall i | 0 <= i < |r| ::
      r[i].group == Some(title) && r[i].field == Renamed(params, params, prefix)[i].0
      && (r[i].envVar.Some? <==> Renamed(params, params, prefix)[i].1.envVar)
    ensures params != [] ==> forall i | 0 <= i < |r| && r[i].envVar.Some? ::
      r[i].envVar == Some(EnvVarName(Prefixed(prefix, params[|params| - 1].0)))
  {
    var fs := Renamed(params, params, prefix);
    if params == [] then []
    else
      var last := Prefixed(prefix, params[|params| - 1].0);
      seq(|fs|, i requires 0 <= i < |fs| =>
        Argument(Some(title), fs[i].0, if fs[i].1.envVar then Some(EnvVarName(last)) else None))
  }

  /** Two names read the same environment variable exactly when they agree
      after upper-casing. */
  lemma EnvVarNameEqual(a: string, b: string)
    ensures EnvVarName(a) == EnvVarName(b) <==> Text.Upper(a) == Text.Upper(b)
  {
    if EnvVarName(a) == EnvVarName(b) {
      assert Text.Upper(a) == EnvVarName(a)[10..];
    }
  }

  /** Without renaming collisions, an argument of the group as written agrees
      with the intended one exactly when its field's prefixed name and the
      last field's upper-case alike; in particular the last field always gets
      its own variable. */
  lemma AsWrittenAgreesWhenUpperEqual(title: string, params: FieldTable, prefix: string)
    requires DistinctKeys(params) && CollisionFree(params, prefix)
    ensures var w := GroupArgumentsAsWritten(title, params, prefix);
      var c := GroupArguments(title, Renamed(params, params, prefix));
      |w| == |c| == |params|
      && forall i | 0 <= i < |params| && params[i].1.envVar ::
        (w[i] == c[i] <==>
          Text.Upper(Prefixed(prefix, params[i].0)) == Text.Upper(Prefixed(prefix, params[|params| - 1].0)))
  {
    RenamedInOrder(params, prefix);
    var w := GroupArgumentsAsWritten(title, params, prefix);
    var c := GroupArguments(title, Renamed(params, params, prefix));
    forall i | 0 <= i < |params| && params[i].1.envVar
      ensures w[i] == c[i] <==>
        Text.Upper(Prefixed(prefix, params[i].0)) == Text.Upper(Prefixed(prefix, params[|params| - 1].0))
    {
      EnvVarNameEqual(Prefixed(prefix, params[i].0), Prefixed(prefix, params[|params| - 1].0));
    }
  }

  /** Two fields `a` and `b` that both ask for an environment variable, under
      the prefix `p`: as written, the first one reads `SNAKEMAKE_P_B`, the
      variable of the second, instead of its own `SNAKEMAKE_P_A`. */
  lemma EnvVarOfLastField(title: string)
    ensures var params := [("a", FieldInfo(None, true)), ("b", FieldInfo(None, true))];
            GroupArgumentsAsWritten(title, params, "p")[0].envVar == Some(EnvVarName("p_b"))
            && GroupArguments(title, Renamed(params, params, "p"))[0].envVar == Some(EnvVarName("p_a"))
            && EnvVarName("p_a") != EnvVarName("p_b")
  {
    var params := [("a", FieldInfo(None, true)), ("b", FieldInfo(None, true))];
    assert Prefixed("p", "a") == "p_a" && Prefixed("p", "b") == "p_b";
    assert DistinctKeys(params);
    assert CollisionFree(params, "p");
    RenamedInOrder(params, "p");
    var a := Text.Upper("p_a");
    var b := Text.Upper("p_b");
    assert a[2] == 'A' && b[2] == 'B';
    EnvVarNameEqual("p_a", "p_b");
  }

  /** `for field in fields(dc): settings.add_argument(...)`. */
  method AddGroupArguments(parser: ArgumentParser, title: string, fs: FieldTable)
    modifies parser
    ensures parser.arguments == old(parser.arguments) + GroupArguments(title, fs)
  {
    for i := 0 to |fs|
      invariant parser.arguments == old(parser.arguments) + GroupArguments(title, fs[..i])
    {
      var envVar := if fs[i].1.envVar then Some(EnvVarName(fs[i].0)) else None;
      parser.arguments := parser.arguments + [Argument(Some(title), fs[i].0, envVar)];
      assert GroupArguments(title, fs[..i + 1]) == GroupArguments(title, fs[..i]) + [Argument(Some(title), fs[i].0, envVar)];
    }
    assert fs[..|fs|] == fs;
  }

  /** A plugin as the registry stores it. */
  datatype Plugin = Plugin(name: string, executor: AttrValue, commonSettings: AttrValue, executorSettingsCls: Option<AttrValue>)
  {
    /** `prefix`: the name with every occurrence of the module prefix removed. */
    function Prefix(): (r: string)
      ensures !Text.Occurs(name, ModulePrefix) ==> r == name
    {
      ModulePrefixNonEmpty();
      if !Text.Occurs(name, ModulePrefix) then
        Text.ReplaceAllAbsent(name, ModulePrefix, "");
        Text.ReplaceAll(name, ModulePrefix, "")
      else
        Text.ReplaceAll(name, ModulePrefix, "")
    }

    /** `has_executor_settings()`. */
    predicate HasExecutorSettings()
    {
      executorSettingsCls.Some?
    }

    /** The field table of the settings class, when it is a dataclass. */
    function Table(): (r: Option<SettingsClass>)
      ensures r.Some? ==> HasExecutorSettings()
    {
      match executorSettingsCls
      case Some(ClassValue(_, t)) => t
      case _ => None
    }

    function Tables(): set<SettingsClass>
    {
      if Table().Some? then {Table().value} else {}
    }

    /** `register_cli_args(argparser)`: nothing without a settings class;
        otherwise the class's own fields are renamed to `<prefix>_<field>` and
        one argument per field goes into the group `<name> executor settings`.
        False when the settings class is no dataclass (`fields()` raises). */
    method RegisterCliArgs(parser: ArgumentParser) returns (ok: bool)
      requires Table().Some? ==> DistinctKeys(Table().value.fields)
      modifies parser, Tables()
      ensures ok <==> !HasExecutorSettings() || Table().Some?
      ensures Table().None? ==> parser.arguments == old(parser.arguments)
      ensures Table().Some? ==>
        var c := Table().value;
        c.fields == Renamed(old(c.fields), old(c.fields), Prefix())
        && DistinctKeys(c.fields)
        && parser.arguments == old(parser.arguments) + GroupArguments(name + " executor settings", c.fields)
    {
      if !HasExecutorSettings() {
        return true;
      }
      if Table().None? {
        return false;
      }
      var c := Table().value;
      RenameFields(c, Prefix());
      AddGroupArguments(parser, name + " executor settings", c.fields);
      return true;
    }

    /** `get_executor_settings(args)`: `ExecutorSettingsBase()` without a
        settings class; otherwise the class called with the accepted values
        (str, int, bool or list) read from the prefixed attributes, each under
        its field name with the first `<name>_` removed. */
    method GetExecutorSettings(args: map<string, Value>) returns (r: Result<SettingsValue, SettingsError>)
      ensures !HasExecutorSettings() ==> r == Ok(BaseSettings)
      ensures HasExecutorSettings() && Table().None? ==> r == Err(NotADataclass)
      ensures Table().Some? ==> r == Construct(Table().value.params, Kwargs(Table().value.fields, name, args, true))
    {
      if !HasExecutorSettings() {
        return Ok(BaseSettings);
      }
      if Table().None? {
        return Err(NotADataclass);
      }
      var c := Table().value;
      var kwargs := CollectKwargs(c.fields, name, args, true);
      return Construct(c.params, kwargs);
    }
  }

  /** Reading back a settings class whose fields were renamed under the
      plugin's own name: the rebuilt settings hold exactly the accepted values
      given under the prefixed names, and every other field its default; the
      call fails only when a field without default has no accepted value. */
  lemma ReadBackRenamed(t: FieldTable, fs: FieldTable, name: string, args: map<string, Value>)
    requires DistinctKeys(t) && CollisionFree(t, name) && fs == Renamed(t, t, name)
    ensures var r := Construct(t, Kwargs(fs, name, args, true));
      (r.Ok? <==> forall i | 0 <= i < |t| ::
         t[i].1.default.Some? || Accepted(ArgValue(args, Prefixed(name, t[i].0)), true))
      && (r.Ok? ==> r.value.SettingsInstance? && |r.value.values| == |t|)
      && (r.Ok? ==> forall i | 0 <= i < |t| ::
           var v := ArgValue(args, Prefixed(name, t[i].0));
           r.value.values[i] == (t[i].0, if Accepted(v, true) then v else t[i].1.default.value))
  {
    SettingsRoundTrip(t, name, args, true);
  }

  /** The round trip through the command line for a settings class whose
      fields have not been renamed yet, on a plugin whose name contains no
      module prefix: `register_cli_args` followed by `get_executor_settings`. */
  method CliRoundTrip(p: Plugin, parser: ArgumentParser, args: map<string, Value>)
    returns (r: Result<SettingsValue, SettingsError>)
    requires p.Table().Some? && p.Table().value.fields == p.Table().value.params
    requires DistinctKeys(p.Table().value.params) && !Text.Occurs(p.name, ModulePrefix)
    requires CollisionFree(p.Table().value.params, p.name)
    modifies parser, p.Tables()
    ensures p.Table().value.fields == Renamed(p.Table().value.params, p.Table().value.params, p.name)
    ensures r == Construct(p.Table().value.params, Kwargs(p.Table().value.fields, p.name, args, true))
  {
    var ok := p.RegisterCliArgs(parser);
    r := p.GetExecutorSettings(args);
  }
}
