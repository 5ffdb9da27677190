/** The capability schema of a plugin registry: what a plugin module must or may
    define, and whether the definition is an object or a class
    (snakemake_interface_executor_plugins/registry/attribute_types.py). */
module AttributeTypes {
  import opened Wrappers

  /** A Python class, identified by its defining module and its name. */
  datatype ClassRef = ClassRef(moduleName: string, name: string)

  /** `AttributeMode`: OPTIONAL = 1, REQUIRED = 2. */
  datatype AttributeMode = Optional | Required
  {
    function Value(): (v: int)
      ensures v == 1 || v == 2
    {
      match this
      case Optional => 1
      case Required => 2
    }
  }

  /** `AttributeKind`: OBJECT = 1, CLASS = 2. */
  datatype AttributeKind = Object | Class
  {
    function Value(): (v: int)
      ensures v == 1 || v == 2
    {
      match this
      case Object => 1
      case Class => 2
    }
  }

  /** `AttributeMode(v)`: the member with value `v`, if any. */
  function ModeFromValue(v: int): (r: Option<AttributeMode>)
    ensures r.Some? <==> v == 1 || v == 2
    ensures r.Some? ==> r.value.Value() == v
  {
    if v == 1 then Some(Optional) else if v == 2 then Some(Required) else None
  }

  /** `AttributeKind(v)`: the member with value `v`, if any. */
  function KindFromValue(v: int): (r: Option<AttributeKind>)
    ensures r.Some? <==> v == 1 || v == 2
    ensures r.Some? ==> r.value.Value() == v
  {
    if v == 1 then Some(Object) else if v == 2 then Some(Class) else None
  }

  /** Each enumeration is exactly its two members: values identify members. */
  lemma ModeValueRoundTrip(m: AttributeMode)
    ensures ModeFromValue(m.Value()) == Some(m)
  {
  }

  lemma KindValueRoundTrip(k: AttributeKind)
    ensures KindFromValue(k.Value()) == Some(k)
  {
  }

  /** `AttributeType(cls, mode=REQUIRED, kind=OBJECT)`. */
  datatype AttributeType = AttributeType(cls: ClassRef, mode: AttributeMode := Required, kind: AttributeKind := Object)
  {
    /** `is_optional`. */
    predicate IsOptional()
    {
      mode == Optional
    }

    /** `is_class`. */
    predicate IsClass()
    {
      kind == Class
    }

    /** `into_required()`: the same class and kind, with mode REQUIRED. */
    function IntoRequired(): (r: AttributeType)
      ensures r.cls == cls && r.kind == kind
      ensures !r.IsOptional()
      ensures r.IsClass() <==> IsClass()
    {
      AttributeType(cls, Required, kind)
    }
  }

  /** A schema entry built from the class alone is a required object. */
  lemma Defaults(c: ClassRef)
    ensures !AttributeType(c).IsOptional() && !AttributeType(c).IsClass()
    ensures AttributeType(c).mode.Value() == 2 && AttributeType(c).kind.Value() == 1
  {
  }

  /** `into_required` is idempotent, and leaves a required entry as it is. */
  lemma IntoRequiredIdempotent(t: AttributeType)
    ensures t.IntoRequired().IntoRequired() == t.IntoRequired()
    ensures !t.IsOptional() ==> t.IntoRequired() == t
  {
  }
}
