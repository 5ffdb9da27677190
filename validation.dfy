/** Plugin modules as the registry sees them, and the schema check a module
    must pass before it is registered: `_validate_plugin` of
    snakemake_executor_plugin_interface/registry/__init__.py and of
    snakemake_executor_plugin_interface/__init__.py (the two are the same). */
module PluginValidation {
  import opened Wrappers
  import opened AttributeTypes
  import Dataclasses

  /** A module attribute: an object, with the method resolution order of its
      class, or a class, with its own method resolution order and, when it is
      a dataclass, its field table. */
  datatype AttrValue =
    | Instance(mro: seq<ClassRef>)
    | ClassValue(mro: seq<ClassRef>, table: Option<Dataclasses.SettingsClass>)

  /** An imported module: attribute name to value (`hasattr` / `getattr`). */
  type PyModule = map<string, AttrValue>

  /** Why a module is rejected. All but the last are InvalidPluginException;
      the last is the TypeError `issubclass` raises on a non-class. */
  datatype ValidationError =
    | MissingAttribute(plugin: string, attr: string)
    | NotSubclass(plugin: string, attr: string, cls: ClassRef)
    | NotInstance(plugin: string, attr: string, cls: ClassRef)
    | NotAClass(attr: string)

  /** `str(cls)` for a class. */
  function ClassStr(c: ClassRef): string
  {
    "<class '" + c.moduleName + "." + c.name + "'>"
  }

  /** The exception's text: `Snakemake executor plugin <name> is invalid: <message>`. */
  function Message(e: ValidationError): string
  {
    match e
    case MissingAttribute(p, a) => InvalidPlugin(p, "plugin does not define " + a + ".")
    case NotSubclass(p, a, c) => InvalidPlugin(p, a + " must be a subclass of " + c.moduleName + "." + c.name + ".")
    case NotInstance(p, a, c) => InvalidPlugin(p, a + " must be of type " + ClassStr(c) + ".")
    case NotAClass(_) => "issubclass() arg 1 must be a class"
  }

  function InvalidPlugin(plugin: string, message: string): string
  {
    "Snakemake executor plugin " + plugin + " is invalid: " + message
  }

  /** `isinstance(v, c)`. */
  predicate IsInstance(v: AttrValue, c: ClassRef)
  {
    v.Instance? && c in v.mro
  }

  /** The check of one schema entry: a missing attribute fails only when it
      is required; a class entry is checked with `issubclass`, an object entry
      with `isinstance`. */
  function CheckAttr(plugin: string, m: PyModule, attr: string, t: AttributeType): (r: Option<ValidationError>)
    ensures attr !in m ==> (r.None? <==> t.IsOptional())
    ensures attr in m && t.IsClass() ==> (r.None? <==> m[attr].ClassValue? && t.cls in m[attr].mro)
    ensures attr in m && !t.IsClass() ==> (r.None? <==> IsInstance(m[attr], t.cls))
    ensures r.Some? && r.value.NotAClass? ==> attr in m && t.IsClass() && m[attr].Instance?
  {
    if attr !in m then
      if t.IsOptional() then None else Some(MissingAttribute(plugin, attr))
    else if t.IsClass() then
      if m[attr].Instance? then Some(NotAClass(attr))
      else if t.cls in m[attr].mro then None
      else Some(NotSubclass(plugin, attr, t.cls))
    else if IsInstance(m[attr], t.cls) then None
    else Some(NotInstance(plugin, attr, t.cls))
  }

  /** The outcome of checking the schema entries in order: the first failure. */
  function FirstError(plugin: string, m: PyModule, schema: seq<(string, AttributeType)>): (r: Option<ValidationError>)
    ensures r.None? <==> forall i | 0 <= i < |schema| :: CheckAttr(plugin, m, schema[i].0, schema[i].1).None?
    ensures r.Some? ==> exists i | 0 <= i < |schema| ::
      r == CheckAttr(plugin, m, schema[i].0, schema[i].1)
      && forall j | 0 <= j < i :: CheckAttr(plugin, m, schema[j].0, schema[j].1).None?
    decreases |schema|
  {
    if schema == [] then None
    else
      var e := CheckAttr(plugin, m, schema[0].0, schema[0].1);
      if e.Some? then e
      else
        var rest := FirstError(plugin, m, schema[1..]);
        assert forall i | 1 <= i < |schema| :: schema[i] == schema[1..][i - 1];
        if rest.Some? then
          var k :| 0 <= k < |schema[1..]| && rest == CheckAttr(plugin, m, schema[1..][k].0, schema[1..][k].1)
                   && forall j | 0 <= j < k :: CheckAttr(plugin, m, schema[1..][j].0, schema[1..][j].1).None?;
          assert rest == CheckAttr(plugin, m, schema[k + 1].0, schema[k + 1].1);
          rest
        else rest
  }

  /** `_validate_plugin(name, module)`: the loop over the schema, raising at
      the first entry that fails. */
  method ValidatePlugin(plugin: string, m: PyModule, schema: seq<(string, AttributeType)>)
    returns (err: Option<ValidationError>)
    ensures err == FirstError(plugin, m, schema)
  {
    for i := 0 to |schema|
      invariant forall j | 0 <= j < i :: CheckAttr(plugin, m, schema[j].0, schema[j].1).None?
      invariant FirstError(plugin, m, schema) == FirstError(plugin, m, schema[i..])
    {
      var (attr, t) := schema[i];
      assert schema[i..][1..] == schema[i + 1..];
      if attr !in m {
        if t.IsOptional() {
          continue;
        }
        return Some(MissingAttribute(plugin, attr));
      }
      var value := m[attr];
      if t.IsClass() {
        if value.Instance? {
          return Some(NotAClass(attr));
        }
        if t.cls !in value.mro {
          return Some(NotSubclass(plugin, attr, t.cls));
        }
      } else if !IsInstance(value, t.cls) {
        return Some(NotInstance(plugin, attr, t.cls));
      }
    }
    return None;
  }

  /** A required attribute that is missing is always reported, unless an
      earlier entry fails first. */
  lemma MissingRequiredRejected(plugin: string, m: PyModule, schema: seq<(string, AttributeType)>, i: int)
    requires 0 <= i < |schema| && schema[i].0 !in m && !schema[i].1.IsOptional()
    ensures FirstError(plugin, m, schema).Some?
  {
    assert CheckAttr(plugin, m, schema[i].0, schema[i].1).Some?;
  }

  /** The schema both registry generations check, in this order: a
      `common_settings` object of the common settings class, an optional
      `ExecutorSettings` class derived from the settings base class, and a
      required `Executor` class derived from the executor base class. */
  function Schema(common: ClassRef, settingsBase: ClassRef, executorBase: ClassRef): seq<(string, AttributeType)>
  {
    [("common_settings", AttributeType(common, Required, Object)),
     ("ExecutorSettings", AttributeType(settingsBase, Optional, Class)),
     ("Executor", AttributeType(executorBase, Required, Class))]
  }

  /** What the schema asks of a plugin module, attribute by attribute. */
  predicate Satisfies(m: PyModule, common: ClassRef, settingsBase: ClassRef, executorBase: ClassRef)
  {
    && "common_settings" in m && IsInstance(m["common_settings"], common)
    && ("ExecutorSettings" in m ==> m["ExecutorSettings"].ClassValue? && settingsBase in m["ExecutorSettings"].mro)
    && "Executor" in m && m["Executor"].ClassValue? && executorBase in m["Executor"].mro
  }

  /** A module passes validation exactly when `common_settings` is an object
      of the common settings class, `Executor` a subclass of the executor base
      class, and `ExecutorSettings`, when present, a subclass of the settings
      base class. */
  lemma SchemaAccepts(plugin: string, m: PyModule, common: ClassRef, settingsBase: ClassRef, executorBase: ClassRef)
    ensures FirstError(plugin, m, Schema(common, settingsBase, executorBase)).None?
            <==> Satisfies(m, common, settingsBase, executorBase)
  {
    var s := Schema(common, settingsBase, executorBase);
    var c0 := CheckAttr(plugin, m, s[0].0, s[0].1);
    var c1 := CheckAttr(plugin, m, s[1].0, s[1].1);
    var c2 := CheckAttr(plugin, m, s[2].0, s[2].1);
    assert c0.None? <==> "common_settings" in m && IsInstance(m["common_settings"], common);
    assert c1.None? <==> ("ExecutorSettings" in m ==>
      m["ExecutorSettings"].ClassValue? && settingsBase in m["ExecutorSettings"].mro);
    assert c2.None? <==> "Executor" in m && m["Executor"].ClassValue? && executorBase in m["Executor"].mro;
    assert FirstError(plugin, m, s).None? <==> c0.None? && c1.None? && c2.None?;
  }

  /** `common_settings` is checked first: a module without it is reported for
      that attribute, whatever else it lacks. */
  lemma CommonSettingsCheckedFirst(plugin: string, m: PyModule, common: ClassRef, settingsBase: ClassRef, executorBase: ClassRef)
    requires "common_settings" !in m
    ensures FirstError(plugin, m, Schema(common, settingsBase, executorBase))
            == Some(MissingAttribute(plugin, "common_settings"))
  {
    var s := Schema(common, settingsBase, executorBase);
    var r := FirstError(plugin, m, s);
    assert CheckAttr(plugin, m, s[0].0, s[0].1) == Some(MissingAttribute(plugin, "common_settings"));
    assert r.Some?;
    var i :| 0 <= i < |s| && r == CheckAttr(plugin, m, s[i].0, s[i].1)
             && forall j | 0 <= j < i :: CheckAttr(plugin, m, s[j].0, s[j].1).None?;
    assert i == 0;
  }
}
