/** The module-name prefix of executor plugins and the translation of one
    settings-record field into the arguments of `ArgumentParser.add_argument`
    (snakemake_interface_executor_plugins/_common.py). */
module ArgumentArgs {
  import opened Wrappers
  import Text
  import opened PyValues

  const ExecutorPluginPrefix := "snakemake-executor-plugin-"

  /** `executor_plugin_module_prefix`: the distribution prefix with every `-` replaced by `_`. */
  const ExecutorPluginModulePrefix := Text.ReplaceChar(ExecutorPluginPrefix, '-', '_')

  lemma ModulePrefixValue()
    ensures ExecutorPluginModulePrefix == "snakemake_executor_plugin_"
  {
    var p := ExecutorPluginPrefix;
    var r := ExecutorPluginModulePrefix;
    assert |r| == 26;
    forall i | 0 <= i < 26
      ensures r[i] == "snakemake_executor_plugin_"[i]
    {
      assert r[i] == if p[i] == '-' then '_' else p[i];
    }
  }

  // ---------------------------------------------------------------------------
  // Field descriptors

  /** A field's type annotation, as far as the translation inspects it. */
  datatype TypeExpr =
    | Plain(name: string)
    | BoolT
    | NoneT
    | Literal(lits: seq<Value>)
    | Union(members: seq<TypeExpr>)
    | Generic(origin: string, params: seq<TypeExpr>)

  /** What `typing` can build: a `Literal` has at least one value, and a `Union`
      has at least two members with no repetition (typing collapses the rest). */
  predicate WellFormedType(t: TypeExpr)
  {
    match t
    case Literal(lits) => lits != []
    case Union(ms) => |ms| >= 2 && forall i, j | 0 <= i < j < |ms| :: ms[i] != ms[j]
    case _ => true
  }

  /** One element of `get_args(t)`: a type parameter or a literal value. */
  datatype TypeArg = TypeParam(t: TypeExpr) | LiteralParam(v: Value)

  /** `typing.get_args(t)`. */
  function GetArgs(t: TypeExpr): (r: seq<TypeArg>)
    ensures t.Literal? ==> |r| == |t.lits| && forall i | 0 <= i < |r| :: r[i] == LiteralParam(t.lits[i])
    ensures (t.Plain? || t.BoolT? || t.NoneT?) ==> r == []
  {
    match t
    case Literal(lits) => seq(|lits|, i requires 0 <= i < |lits| => LiteralParam(lits[i]))
    case Union(ms) => seq(|ms|, i requires 0 <= i < |ms| => TypeParam(ms[i]))
    case Generic(_, ps) => seq(|ps|, i requires 0 <= i < |ps| => TypeParam(ps[i]))
    case _ => []
  }

  /** `type(v)` of a literal value. */
  function PyTypeOf(v: Value): TypeExpr
  {
    match v
    case Bool(_) => BoolT
    case Int(_) => Plain("int")
    case Str(_) => Plain("str")
    case Path(_) => Plain("PosixPath")
    case EnumMember(cls, _, _, _) => Plain(cls)
    case NoneValue => NoneT
    case List(_) => Plain("list")
    case Dict(_) => Plain("dict")
  }

  /** The entries of a field's `metadata` mapping that the translation reads; a
      `None` here means the key is absent or maps to None. */
  datatype Metadata = Metadata(
    args: Option<seq<string>>,
    typ: Option<TypeExpr>,
    help: Option<string>,
    choices: Option<seq<Value>>,
    metavar: Option<string>,
    nargs: Option<Value>)

  /** A dataclass field: name, annotation, whether it has a default or a
      default factory, and its metadata. */
  datatype Field = Field(name: string, typ: TypeExpr, hasDefault: bool, hasDefaultFactory: bool, metadata: Metadata)

  /** The value of the `type` keyword: a type, or (the source's quirk under
      `nargs`) the first literal value of a Literal annotation. */
  datatype KwType = KType(t: TypeExpr) | KLiteralValue(v: Value)

  /** The keyword-argument dict handed to `add_argument`, one field per key the
      source can set: `None` for an absent key, and `required` / `defaultMissing`
      for the keys `required=True` and `default=MISSING`. */
  datatype Kwargs = Kwargs(
    typ: KwType,
    help: Option<string>,
    dest: Option<string>,
    choices: Option<seq<Value>>,
    metavar: Option<string>,
    nargs: Option<Value>,
    required: bool,
    defaultMissing: bool)

  /** The pair `(args, kwargs)`; `boolHandling` marks that the source goes on to
      hand both to `argparse_dataclass._handle_bool_type`. */
  datatype ArgumentSpec = ArgumentSpec(args: seq<string>, kwargs: Kwargs, boolHandling: bool)

  /** The exceptions the translation raises: `IndexError` for an empty `args`,
      `ValueError` for the three Literal and `nargs` problems, `TypeError` for a
      Union other than Optional. */
  datatype ArgError =
    | IndexError
    | LiteralChoicesError(field: string)
    | MixedLiteralError(field: string, typeCount: nat)
    | NargsTypeError(field: string)
    | UnionTypeError

  /** The Python exception class of an error. */
  function ExceptionClass(e: ArgError): string
  {
    match e
    case IndexError => "IndexError"
    case UnionTypeError => "TypeError"
    case _ => "ValueError"
  }

  /** The exception's message (for mixed Literal types, up to the list of type
      names, whose order follows a set of type objects). */
  function Message(e: ArgError): string
  {
    match e
    case IndexError => "list index out of range"
    case LiteralChoicesError(name) =>
      "Cannot infer type of items in field: " + name + ". " +
      "Literal type arguments should not be combined with choices in the metadata. " +
      "Remove the redundant choices field from the metadata."
    case MixedLiteralError(name, count) =>
      "Cannot infer type of items in field: " + name + ". " +
      "Literal type arguments should contain choices of a single type. " +
      "Instead, " + Text.NatToString(count) + " types where found: "
    case NargsTypeError(name) =>
      "Cannot infer type of items in field: " + name + ". " +
      "Try using a parameterized type hint, or specifying the type explicitly using metadata['type']"
    case UnionTypeError =>
      "For Union types other than 'Optional', a custom 'type' must be specified using 'metadata'."
  }

  // ---------------------------------------------------------------------------
  // The specification, condition by condition

  /** The single default flag: `--` and the field name with `_` turned into `-`. */
  function DefaultFlag(name: string): (r: string)
    ensures Text.StartsWith(r, "--")
  {
    "--" + Text.ReplaceChar(name, '_', '-')
  }

  function FlagsOf(f: Field): seq<string>
  {
    if f.metadata.args.Some? then f.metadata.args.value else [DefaultFlag(f.name)]
  }

  /** `not args[0].startswith("-")`. */
  predicate Positional(f: Field)
    requires FlagsOf(f) != []
  {
    var first := FlagsOf(f)[0];
    !(|first| >= 1 && first[0] == '-')
  }

  /** Some literal value has a different Python type from the first. */
  predicate MixedLiteral(f: Field)
  {
    f.typ.Literal? && exists i | 0 <= i < |f.typ.lits| :: PyTypeOf(f.typ.lits[i]) != PyTypeOf(f.typ.lits[0])
  }

  predicate IsOptionalUnion(ms: seq<TypeExpr>)
  {
    |ms| == 2 && NoneT in ms
  }

  /** The distinct Python types among the literal values. */
  function LiteralTypes(lits: seq<Value>): set<TypeExpr>
  {
    set i | 0 <= i < |lits| :: PyTypeOf(lits[i])
  }

  /** The error the translation raises, if any, checking in source order: an
      empty `args`, a Literal with choices, a Literal of mixed types, `nargs`
      with nothing to infer the item type from, a Union other than Optional. */
  function ExpectedError(f: Field): Option<ArgError>
  {
    var md := f.metadata;
    if FlagsOf(f) == [] then Some(IndexError)
    else if f.typ.Literal? && md.choices.Some? then Some(LiteralChoicesError(f.name))
    else if MixedLiteral(f) then Some(MixedLiteralError(f.name, |LiteralTypes(f.typ.lits)|))
    else if md.nargs.Some? && md.typ.None? && GetArgs(f.typ) == [] then Some(NargsTypeError(f.name))
    else if f.typ.Union? && md.typ.None? && !IsOptionalUnion(f.typ.members) then Some(UnionTypeError)
    else None
  }

  /** The member of an Optional that is not None. */
  function NonNoneMember(ms: seq<TypeExpr>): TypeExpr
    requires |ms| == 2
  {
    if ms[0] != NoneT then ms[0] else ms[1]
  }

  function TypeArgToKw(a: TypeArg): KwType
  {
    match a
    case TypeParam(t) => KType(t)
    case LiteralParam(v) => KLiteralValue(v)
  }

  /** The final `type` keyword, as a decision table: a Literal decides it (its
      first value when `nargs` asks for item inference, else that value's type),
      then an Optional without metadata type (its non-None member), then `nargs`
      item inference (the first type argument), then the metadata type, else the
      annotation itself. */
  function ExpectedType(f: Field): KwType
    requires WellFormedType(f.typ) && ExpectedError(f).None?
  {
    var md := f.metadata;
    if f.typ.Literal? && md.nargs.Some? && md.typ.None? then KLiteralValue(f.typ.lits[0])
    else if f.typ.Literal? then KType(PyTypeOf(f.typ.lits[0]))
    else if f.typ.Union? && md.typ.None? then KType(NonNoneMember(f.typ.members))
    else if md.nargs.Some? && md.typ.None? then TypeArgToKw(GetArgs(f.typ)[0])
    else if md.typ.Some? then KType(md.typ.value)
    else KType(f.typ)
  }

  /** The argument is mandatory: no default, no default factory, and not positional. */
  predicate Required(f: Field)
    requires FlagsOf(f) != []
  {
    !f.hasDefault && !f.hasDefaultFactory && !Positional(f)
  }

  lemma LiteralTypesCount(lits: seq<Value>)
    requires lits != []
    ensures |LiteralTypes(lits)| > 1 <==> exists i | 0 <= i < |lits| :: PyTypeOf(lits[i]) != PyTypeOf(lits[0])
  {
    var s := LiteralTypes(lits);
    var t0 := PyTypeOf(lits[0]);
    assert t0 in s;
    if exists i | 0 <= i < |lits| :: PyTypeOf(lits[i]) != t0 {
      var i :| 0 <= i < |lits| && PyTypeOf(lits[i]) != t0;
      assert {t0, PyTypeOf(lits[i])} <= s;
      assert |{t0, PyTypeOf(lits[i])}| == 2;
      SubsetCard({t0, PyTypeOf(lits[i])}, s);
    } else {
      assert s == {t0};
    }
  }

  lemma SubsetCard<T>(a: set<T>, b: set<T>)
    requires a <= b
    ensures |a| <= |b|
  {
    assert b == a + (b - a);
  }

  // ---------------------------------------------------------------------------
  // dataclass_field_to_argument_args

  /** The opening of the translation: `type` from the metadata or the
      annotation, `help`, `dest` for an option named by metadata `args`, and the
      metadata `choices`. */
  method InitialKwargs(f: Field, positional: bool) returns (kwargs: Kwargs)
    ensures kwargs == Kwargs(if f.metadata.typ.Some? then KType(f.metadata.typ.value) else KType(f.typ),
                             f.metadata.help,
                             if f.metadata.args.Some? && f.metadata.args.value != [] && !positional then Some(f.name) else None,
                             f.metadata.choices, None, None, false, false)
  {
    var md := f.metadata;
    kwargs := Kwargs(if md.typ.Some? then KType(md.typ.value) else KType(f.typ), md.help,
                     None, None, None, None, false, false);
    if md.args.Some? && md.args.value != [] && !positional {
      kwargs := kwargs.(dest := Some(f.name));
    }
    if md.choices.Some? {
      kwargs := kwargs.(choices := md.choices);
    }
  }

  /** `required=True` for an option with neither default nor factory, else `default=MISSING`. */
  method ApplyRequired(f: Field, positional: bool, kwargs: Kwargs) returns (k: Kwargs)
    ensures var req := !f.hasDefault && !f.hasDefaultFactory && !positional;
            k == if req then kwargs.(required := true) else kwargs.(defaultMissing := true)
  {
    if !f.hasDefault && !f.hasDefaultFactory && !positional {
      k := kwargs.(required := true);
    } else {
      k := kwargs.(defaultMissing := true);
    }
  }

  /** The Literal block: refuse metadata choices, refuse mixed value types, then
      take the values' type as `type` and the values themselves as `choices`. */
  method ApplyLiteral(f: Field, kwargs: Kwargs) returns (r: Result<Kwargs, ArgError>)
    requires f.typ.Literal? && f.typ.lits != []
    ensures r.Err? <==> f.metadata.choices.Some? || MixedLiteral(f)
    ensures r.Err? ==> r.error == if f.metadata.choices.Some? then LiteralChoicesError(f.name)
                                  else MixedLiteralError(f.name, |LiteralTypes(f.typ.lits)|)
    ensures r.Ok? ==> r.value == kwargs.(typ := KType(PyTypeOf(f.typ.lits[0])), choices := Some(f.typ.lits))
  {
    if f.metadata.choices.Some? {
      return Err(LiteralChoicesError(f.name));
    }
    var lits := f.typ.lits;
    var types := LiteralTypes(lits);
    LiteralTypesCount(lits);
    if |types| > 1 {
      return Err(MixedLiteralError(f.name, |types|));
    }
    var k := kwargs.(typ := KType(PyTypeOf(lits[0])));
    k := k.(choices := Some(lits));
    return Ok(k);
  }

  /** The `nargs` block: record it and, without a metadata type, infer the item
      type from the annotation's first type argument. */
  method ApplyNargs(f: Field, kwargs: Kwargs) returns (r: Result<Kwargs, ArgError>)
    requires f.metadata.nargs.Some?
    ensures r.Err? <==> f.metadata.typ.None? && GetArgs(f.typ) == []
    ensures r.Err? ==> r.error == NargsTypeError(f.name)
    ensures r.Ok? ==> r.value == kwargs.(nargs := f.metadata.nargs,
                                         typ := if f.metadata.typ.None? then TypeArgToKw(GetArgs(f.typ)[0]) else kwargs.typ)
  {
    var k := kwargs.(nargs := f.metadata.nargs);
    if f.metadata.typ.None? {
      var typeArgs := GetArgs(f.typ);
      if typeArgs == [] {
        return Err(NargsTypeError(f.name));
      }
      k := k.(typ := TypeArgToKw(typeArgs[0]));
    }
    return Ok(k);
  }

  /** The Union block, without a metadata type: an Optional unwraps to its
      non-None member, any other Union is refused. */
  method ApplyUnion(f: Field, kwargs: Kwargs) returns (r: Result<Kwargs, ArgError>)
    requires f.typ.Union? && f.metadata.typ.None?
    ensures r.Err? <==> !IsOptionalUnion(f.typ.members)
    ensures r.Err? ==> r.error == UnionTypeError
    ensures r.Ok? ==> r.value == kwargs.(typ := KType(NonNoneMember(f.typ.members)))
  {
    var members := f.typ.members;
    if |members| == 2 && NoneT in members {
      return Ok(kwargs.(typ := KType(NonNoneMember(members))));
    }
    return Err(UnionTypeError);
  }

  /** The translation up to and including `metavar`: the flags, whether the
      argument is positional, and the keywords set so far, or the error raised
      on the way. */
  method OpeningSteps(f: Field) returns (r: Result<(seq<string>, bool, Kwargs), ArgError>)
    requires WellFormedType(f.typ)
    ensures r.Err? <==> FlagsOf(f) == [] || (f.typ.Literal? && f.metadata.choices.Some?) || MixedLiteral(f)
    ensures r.Err? ==> ExpectedError(f) == Some(r.error)
    ensures r.Ok? ==> r.value.0 == FlagsOf(f) && r.value.1 == Positional(f)
    ensures r.Ok? ==> var md := f.metadata; r.value.2 == Kwargs(
      if f.typ.Literal? then KType(PyTypeOf(f.typ.lits[0]))
      else if md.typ.Some? then KType(md.typ.value) else KType(f.typ),
      md.help,
      if md.args.Some? && md.args.value != [] && !Positional(f) then Some(f.name) else None,
      if f.typ.Literal? then Some(f.typ.lits) else md.choices,
      md.metavar, None, false, false)
  {
    var md := f.metadata;
    var args := if md.args.Some? then md.args.value else [DefaultFlag(f.name)];
    assert args == FlagsOf(f);
    if |args| == 0 {
      return Err(IndexError);
    }
    var positional := !(|args[0]| >= 1 && args[0][0] == '-');
    var kwargs := InitialKwargs(f, positional);

    if f.typ.Literal? {
      var lit := ApplyLiteral(f, kwargs);
      if lit.Err? {
        return Err(lit.error);
      }
      kwargs := lit.value;
    }

    if md.metavar.Some? {
      kwargs := kwargs.(metavar := md.metavar);
    }
    return Ok((args, positional, kwargs));
  }

  /** `dataclass_field_to_argument_args(field)`: builds the keyword dict one
      condition at a time and raises on the first illegal combination. */
  method DataclassFieldToArgumentArgs(f: Field) returns (r: Result<ArgumentSpec, ArgError>)
    requires WellFormedType(f.typ)
    ensures r.Err? <==> ExpectedError(f).Some?
    ensures r.Err? ==> r.error == ExpectedError(f).value
    ensures r.Ok? ==> r.value.args == FlagsOf(f) && r.value.boolHandling == (f.typ == BoolT)
    ensures r.Ok? ==> r.value.kwargs.typ == ExpectedType(f)
    ensures r.Ok? ==> r.value.kwargs.help == f.metadata.help
    ensures r.Ok? ==> (r.value.kwargs.dest.Some? <==> f.metadata.args.Some? && f.metadata.args.value != [] && !Positional(f))
    ensures r.Ok? && r.value.kwargs.dest.Some? ==> r.value.kwargs.dest.value == f.name
    ensures r.Ok? ==> r.value.kwargs.choices == (if f.typ.Literal? then Some(f.typ.lits) else f.metadata.choices)
    ensures r.Ok? ==> r.value.kwargs.metavar == f.metadata.metavar && r.value.kwargs.nargs == f.metadata.nargs
    ensures r.Ok? ==> r.value.kwargs.required == Required(f) && r.value.kwargs.defaultMissing == !Required(f)
  {
    var md := f.metadata;
    var opening := OpeningSteps(f);
    if opening.Err? {
      return Err(opening.error);
    }
    var (args, positional, kwargs) := opening.value;

    if md.nargs.Some? {
      var withNargs := ApplyNargs(f, kwargs);
      if withNargs.Err? {
        return Err(withNargs.error);
      }
      kwargs := withNargs.value;
    }

    kwargs := ApplyRequired(f, positional, kwargs);

    var boolHandling := false;
    if f.typ == BoolT {
      boolHandling := true;
    } else if f.typ.Union? && md.typ.None? {
      var unwrapped := ApplyUnion(f, kwargs);
      if unwrapped.Err? {
        return Err(unwrapped.error);
      }
      kwargs := unwrapped.value;
    }
    return Ok(ArgumentSpec(args, kwargs, boolHandling));
  }

  // ---------------------------------------------------------------------------
  // Properties of the specification

  /** Without metadata `args` the argument is an option, never positional, so it
      is required exactly when the field has neither default nor factory. */
  lemma DefaultFlagNotPositional(f: Field)
    requires f.metadata.args.None?
    ensures FlagsOf(f) == [DefaultFlag(f.name)] && !Positional(f)
    ensures Required(f) <==> !f.hasDefault && !f.hasDefaultFactory
  {
    assert Text.StartsWith(DefaultFlag(f.name), "--");
    assert DefaultFlag(f.name)[..1] == "-";
  }

  /** Distinct field names written with underscores get distinct default flags. */
  lemma {:induction false} DefaultFlagInjective(a: string, b: string)
    requires '-' !in a && '-' !in b
    requires DefaultFlag(a) == DefaultFlag(b)
    ensures a == b
  {
    var ra := Text.ReplaceChar(a, '_', '-');
    var rb := Text.ReplaceChar(b, '_', '-');
    assert ra == DefaultFlag(a)[2..] && rb == DefaultFlag(b)[2..];
    assert |a| == |b|;
    forall i | 0 <= i < |a|
      ensures a[i] == b[i]
    {
      assert ra[i] == rb[i];
      assert a[i] in a && b[i] in b;
    }
  }

  /** The three rejected combinations named by the source, exactly: with a
      usable `args` and no `nargs` inference problem, the translation fails iff
      a Literal meets choices, a Literal mixes types, or a Union is not Optional
      and has no metadata type. */
  lemma IllegalCombinations(f: Field)
    requires FlagsOf(f) != []
    requires f.metadata.nargs.None?
    ensures ExpectedError(f).Some? <==>
      (f.typ.Literal? && f.metadata.choices.Some?) ||
      MixedLiteral(f) ||
      (f.typ.Union? && f.metadata.typ.None? && !IsOptionalUnion(f.typ.members))
  {
  }

  /** An Optional annotation without metadata type unwraps to its inner type. */
  lemma OptionalUnwraps(f: Field, x: TypeExpr)
    requires f.typ == Union([x, NoneT]) && x != NoneT
    requires f.metadata.typ.None? && FlagsOf(f) != [] && f.metadata.nargs.None?
    ensures ExpectedError(f).None?
    ensures ExpectedType(f) == KType(x)
  {
    assert NoneT in f.typ.members;
  }
}
