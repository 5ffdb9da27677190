/** Command-line rendering of the older interface package
    (snakemake_executor_plugin_interface/utils.py): the same flag layout as the
    current package, but every value goes through Python `repr` and nothing is
    shell-quoted. Also the execution-mode constants and the caching property. */
module LegacyUtils {
  import opened Wrappers
  import Text
  import opened PyValues
  import CliUtils

  /** `ExecMode`: plain integer class attributes. */
  const ExecModeDefault: int := 0
  const ExecModeSubprocess: int := 1
  const ExecModeRemote: int := 2

  /** The `repr` of each item of a list. */
  function ItemReprs(items: seq<Value>): (r: seq<string>)
    ensures |r| == |items|
    ensures forall i | 0 <= i < |items| :: r[i] == Repr(items[i])
  {
    seq(|items|, i requires 0 <= i < |items| => Repr(items[i]))
  }

  /** `format_cli_pos_arg(value)`: a dict gives the space-joined
      `repr(f"{key}={val}")` of its entries, a list the space-joined `repr` of its
      items, anything else its own `repr`. A string renders as a Python literal
      that reads back as itself, a one-entry dict as a literal of `key=str(val)`,
      and the items of a list whose reprs hold no blank as separate words. */
  function FormatCliPosArg(v: Value): (r: string)
    ensures !v.Dict? && !v.List? ==> r == Repr(v)
    ensures v.Str? ==> DecodeStrLiteral(r) == Some(v.s)
    ensures v.Dict? && |v.entries| == 1 ==>
      DecodeStrLiteral(r) == Some(v.entries[0].0 + "=" + PyStr(v.entries[0].1))
    ensures v.List? && (forall i | 0 <= i < |v.items| :: ' ' !in Repr(v.items[i])) ==>
      Text.Words(r) == Text.NonEmpty(ItemReprs(v.items))
  {
    match v
    case Dict(entries) =>
      var toks := seq(|entries|, i requires 0 <= i < |entries| => StrRepr(entries[i].0 + "=" + PyStr(entries[i].1)));
      if |entries| == 1 then
        assert Text.NonEmpty(toks) == toks;
        StrReprRoundTrip(entries[0].0 + "=" + PyStr(entries[0].1));
        Text.JoinNonEmpty(toks)
      else
        Text.JoinNonEmpty(toks)
    case List(items) =>
      var texts := ItemReprs(items);
      if forall x | x in texts :: ' ' !in x then
        Text.WordsOfJoinNonEmpty(texts);
        Text.JoinNonEmpty(texts)
      else
        Text.JoinNonEmpty(texts)
    case Str(s) => StrReprRoundTrip(s); Repr(v)
    case _ => Repr(v)
  }

  /** `format_cli_arg(flag, value, quote, skip)`; `quote` is passed on and never read. */
  function FormatCliArg(flag: string, value: Value, quote: bool, skip: bool): (r: string)
    ensures r == "" <==> skip || !Truthy(value)
    ensures !skip && value == Bool(true) ==> r == flag + " "
    ensures !skip && Truthy(value) && !value.Bool? ==> r == flag + " " + FormatCliPosArg(value)
  {
    if !skip && Truthy(value) then
      if value.Bool? then flag + " " + "" else flag + " " + FormatCliPosArg(value)
    else ""
  }

  /** The two generations agree on booleans, integers and None; they differ on
      strings, which the older one renders with `repr` and the newer one with
      shell quoting. */
  lemma GenerationsAgreeOnScalars(flag: string, value: Value, skip: bool)
    requires value.Bool? || value.Int? || value.NoneValue?
    ensures FormatCliArg(flag, value, true, skip) == CliUtils.FormatCliArg(flag, value, true, skip)
  {
  }

  lemma GenerationsDifferOnPlainStrings()
    ensures FormatCliPosArg(Str("a")) == "'a'"
    ensures CliUtils.FormatCliPosArg(Str("a")) == "a"
  {
    assert EscapeBody("a", '\'') == "a";
  }

  /** `join_cli_args(args)`: the truthy fragments joined with single spaces. A
      truthy fragment that is not a string makes `str.join` raise TypeError. */
  function JoinCliArgs(args: seq<Value>): (r: Result<string, CliUtils.CliError>)
    ensures r.Ok? <==> CliUtils.AllTruthyAreStrings(args)
    ensures r.Ok? ==> r.value == Text.Join(" ", CliUtils.TruthyTexts(args))
  {
    if CliUtils.AllTruthyAreStrings(args) then Ok(Text.Join(" ", CliUtils.TruthyTexts(args)))
    else Err(CliUtils.JoinTypeError("sequence item: expected str instance"))
  }

  // ---------------------------------------------------------------------------
  // lazy_property

  /** The attribute holding a lazily computed property's value: `_<method name>`. */
  function CacheName(methodName: string): (r: string)
    ensures |r| == |methodName| + 1 && r[0] == '_' && r[1..] == methodName
  {
    "_" + methodName
  }

  /** The value and the attribute table after one `lazy_property.__get__`: a
      cached value other than None is returned; otherwise the method's result is
      returned and stored. */
  function LazyGet(attrs: map<string, Value>, name: string, computed: Value): (Value, map<string, Value>)
  {
    var cache := CacheName(name);
    if cache in attrs && attrs[cache] != NoneValue then (attrs[cache], attrs)
    else (computed, attrs[cache := computed])
  }

  /** The method runs once: after a non-None result has been stored, a later
      read returns it whatever the method would compute then. */
  lemma LazyGetComputesOnce(attrs: map<string, Value>, name: string, first: Value, second: Value)
    requires first != NoneValue
    ensures var (v1, a1) := LazyGet(attrs, name, first);
            var (v2, a2) := LazyGet(a1, name, second);
            v2 == v1 && a2 == a1
  {
  }

  /** A method that returns None is recomputed on every read. */
  lemma LazyGetRecomputesNone(attrs: map<string, Value>, name: string, second: Value)
    requires CacheName(name) in attrs ==> attrs[CacheName(name)] == NoneValue
    ensures var (_, a1) := LazyGet(attrs, name, NoneValue);
            LazyGet(a1, name, second).0 == second
  {
  }

  /** An instance's attribute table, as far as `lazy_property` touches it. */
  class Instance {
    var attrs: map<string, Value>

    constructor(attrs0: map<string, Value>)
      ensures attrs == attrs0
    {
      attrs := attrs0;
    }

    /** `lazy_property.__get__(instance, owner)`, where `computed` is what
        `method(instance)` returns. */
    method LazyPropertyGet(name: string, computed: Value) returns (v: Value)
      modifies this
      ensures (v, attrs) == LazyGet(old(attrs), name, computed)
    {
      var cache := CacheName(name);
      var cached := if cache in attrs then attrs[cache] else NoneValue;
      if cached != NoneValue {
        return cached;
      }
      v := computed;
      attrs := attrs[cache := v];
    }

    /** `lazy_property.clean(instance, method)`: `delattr`, which raises
        AttributeError when the attribute is absent. */
    method Clean(attr: string) returns (ok: bool)
      modifies this
      ensures ok <==> attr in old(attrs)
      ensures attrs == old(attrs) - {attr}
    {
      ok := attr in attrs;
      attrs := attrs - {attr};
    }
  }
}
