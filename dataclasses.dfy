/** Python dataclasses as far as the settings mapping touches them: a class's
    ordered field table `__dataclass_fields__`, the keyword binding of its
    generated `__init__`, and the insertion-ordered dicts both are made of. */
module Dataclasses {
  import opened Wrappers
  import opened PyValues

  // ---------------------------------------------------------------------------
  // Insertion-ordered dicts with string keys

  function Keys<V>(d: seq<(string, V)>): (r: seq<string>)
    ensures |r| == |d|
    ensures forall i | 0 <= i < |d| :: r[i] == d[i].0
  {
    seq(|d|, i requires 0 <= i < |d| => d[i].0)
  }

  predicate HasKey<V>(d: seq<(string, V)>, k: string)
  {
    exists i | 0 <= i < |d| :: d[i].0 == k
  }

  /** No key occurs twice, as in every Python dict. */
  predicate DistinctKeys<V>(d: seq<(string, V)>)
  {
    forall i, j | 0 <= i < j < |d| :: d[i].0 != d[j].0
  }

  /** `d.get(k)`. */
  function Lookup<V>(d: seq<(string, V)>, k: string): (r: Option<V>)
    ensures r.Some? <==> HasKey(d, k)
    ensures r.Some? && DistinctKeys(d) ==> forall i | 0 <= i < |d| && d[i].0 == k :: d[i].1 == r.value
  {
    if d == [] then None
    else if d[0].0 == k then Some(d[0].1)
    else Lookup(d[1..], k)
  }

  /** `d[k] = v`: an existing key keeps its position, a new key goes last. */
  function Put<V>(d: seq<(string, V)>, k: string, v: V): (r: seq<(string, V)>)
    ensures HasKey(d, k) ==> |r| == |d|
    ensures !HasKey(d, k) ==> r == d + [(k, v)]
    ensures forall i | 0 <= i < |d| :: r[i] == if d[i].0 == k then (k, v) else d[i]
  {
    if HasKey(d, k) then seq(|d|, i requires 0 <= i < |d| => if d[i].0 == k then (k, v) else d[i])
    else d + [(k, v)]
  }

  /** `del d[k]`: the entries with key `k` go, the others keep their order. */
  function Del<V>(d: seq<(string, V)>, k: string): (r: seq<(string, V)>)
    ensures |r| <= |d|
    ensures !HasKey(r, k)
    ensures forall i | 0 <= i < |r| :: r[i] in d && r[i].0 != k
    ensures forall i | 0 <= i < |d| && d[i].0 != k :: d[i] in r
  {
    if d == [] then []
    else if d[0].0 == k then Del(d[1..], k)
    else [d[0]] + Del(d[1..], k)
  }

  lemma {:induction false} DelAbsent<V>(d: seq<(string, V)>, k: string)
    requires !HasKey(d, k)
    ensures Del(d, k) == d
  {
    if d != [] {
      assert d[0].0 != k;
      DelAbsent(d[1..], k);
      assert [d[0]] + d[1..] == d;
    }
  }

  /** Deleting the first entry when its key does not occur again. */
  lemma DelHead<V>(e: (string, V), rest: seq<(string, V)>)
    requires !HasKey(rest, e.0)
    ensures Del([e] + rest, e.0) == rest
  {
    assert ([e] + rest)[1..] == rest;
    DelAbsent(rest, e.0);
  }

  /** A key's presence in a dict that grows by one entry. */
  lemma HasKeyAppend<V>(d: seq<(string, V)>, k: string, e: (string, V))
    ensures HasKey(d + [e], k) <==> HasKey(d, k) || e.0 == k
  {
    var de := d + [e];
    if HasKey(d, k) {
      var j :| 0 <= j < |d| && d[j].0 == k;
      assert de[j] == d[j];
    }
    if e.0 == k {
      assert de[|d|] == e;
    }
    if HasKey(de, k) {
      var j :| 0 <= j < |de| && de[j].0 == k;
      if j < |d| {
        assert de[j] == d[j];
      }
    }
  }

  /** `d.get(k)` after an entry was appended. */
  lemma {:induction false} LookupAppend<V>(d: seq<(string, V)>, k: string, e: (string, V))
    ensures HasKey(d, k) ==> Lookup(d + [e], k) == Lookup(d, k)
    ensures !HasKey(d, k) && e.0 == k ==> Lookup(d + [e], k) == Some(e.1)
  {
    HasKeyAppend(d, k, e);
    if d != [] {
      assert (d + [e])[1..] == d[1..] + [e];
      LookupAppend(d[1..], k, e);
    } else {
      assert [] + [e] == [e];
    }
  }

  /** `d[key] = v` as seen through `d.get`. */
  lemma PutLookup<V>(d: seq<(string, V)>, key: string, v: V)
    ensures Lookup(Put(d, key, v), key) == Some(v)
    ensures forall k | k != key :: Lookup(Put(d, key, v), k) == Lookup(d, k)
  {
    var r := Put(d, key, v);
    if !HasKey(d, key) {
      forall k | k != key
        ensures Lookup(r, k) == Lookup(d, k)
      {
        LookupAppend(d, k, (key, v));
      }
      LookupAppend(d, key, (key, v));
    } else {
      PutLookupKept(d, key, v);
    }
  }

  /** Replacing a key's entries in place. */
  lemma {:induction false} PutLookupKept<V>(d: seq<(string, V)>, key: string, v: V)
    requires HasKey(d, key)
    ensures Lookup(Put(d, key, v), key) == Some(v)
    ensures forall k | k != key :: Lookup(Put(d, key, v), k) == Lookup(d, k)
    decreases |d|
  {
    var r := Put(d, key, v);
    assert r[0] == if d[0].0 == key then (key, v) else d[0];
    if d[0].0 != key {
      assert HasKey(d[1..], key) by {
        var i :| 0 <= i < |d| && d[i].0 == key;
        assert d[1..][i - 1] == d[i];
      }
      PutLookupKept(d[1..], key, v);
      assert r[1..] == Put(d[1..], key, v);
    } else {
      forall k | k != key
        ensures Lookup(r, k) == Lookup(d, k)
      {
        if HasKey(d[1..], key) {
          PutLookupKept(d[1..], key, v);
          assert r[1..] == Put(d[1..], key, v);
        } else {
          assert r[1..] == d[1..];
        }
      }
    }
  }

  /** Storing the same value under the same key twice is storing it once. */
  lemma PutTwice<V>(d: seq<(string, V)>, k: string, v: V)
    ensures Put(Put(d, k, v), k, v) == Put(d, k, v)
  {
    var p := Put(d, k, v);
    if !HasKey(d, k) {
      assert p[|d|] == (k, v);
    }
    assert HasKey(p, k);
    forall i | 0 <= i < |p| && p[i].0 == k
      ensures p[i] == (k, v)
    {
      if i < |d| {
        assert d[i].0 == k;
      }
    }
  }

  // ---------------------------------------------------------------------------
  // Field tables and `__init__`

  /** One `dataclasses.Field`, without its name: its default (or what its
      `default_factory` produces), None when both are MISSING; and whether its
      metadata carries a truthy "env_var". */
  datatype FieldInfo = FieldInfo(default: Option<Value>, envVar: bool)

  /** `__dataclass_fields__`: field name to field, in declaration order. */
  type FieldTable = seq<(string, FieldInfo)>

  /** A dataclass. Its field table can be edited in place; its `__init__` was
      generated when the class was created and keeps the parameters it had then. */
  class SettingsClass {
    var fields: FieldTable
    const params: FieldTable

    constructor(declared: FieldTable)
      requires DistinctKeys(declared)
      ensures fields == declared && params == declared
    {
      fields := declared;
      params := declared;
    }
  }

  /** Why `__init__(**kwargs)` raises TypeError. */
  datatype InitError =
    | UnexpectedKeyword(name: string)
    | MissingArguments(names: seq<string>)

  /** The first keyword that names no parameter. */
  function FirstUnexpected(params: FieldTable, kwargs: seq<(string, Value)>): (r: Option<string>)
    ensures r.None? <==> forall i | 0 <= i < |kwargs| :: HasKey(params, kwargs[i].0)
    ensures r.Some? ==> HasKey(kwargs, r.value) && !HasKey(params, r.value)
  {
    if kwargs == [] then None
    else if !HasKey(params, kwargs[0].0) then Some(kwargs[0].0)
    else
      var r := FirstUnexpected(params, kwargs[1..]);
      assert forall i | 1 <= i < |kwargs| :: kwargs[i] == kwargs[1..][i - 1];
      assert r.Some? ==> HasKey(kwargs, r.value) by {
        if r.Some? {
          var i :| 0 <= i < |kwargs[1..]| && kwargs[1..][i].0 == r.value;
          assert kwargs[i + 1].0 == r.value;
        }
      }
      r
  }

  /** The parameters without a default that no keyword supplies, in order. */
  function Missing(params: FieldTable, kwargs: seq<(string, Value)>): (r: seq<string>)
    ensures forall p | p in params && p.1.default.None? && !HasKey(kwargs, p.0) :: p.0 in r
    ensures forall i | 0 <= i < |r| :: exists p | p in params :: p.0 == r[i] && p.1.default.None? && !HasKey(kwargs, p.0)
  {
    if params == [] then []
    else
      var rest := Missing(params[1..], kwargs);
      assert forall p | p in params :: p == params[0] || p in params[1..];
      assert forall p | p in params[1..] :: p in params;
      if params[0].1.default.None? && !HasKey(kwargs, params[0].0) then [params[0].0] + rest else rest
  }

  /** Each parameter's value: the keyword's when given, else its default. */
  function Bind(params: FieldTable, kwargs: seq<(string, Value)>): (r: seq<(string, Value)>)
    requires forall p | p in params :: p.1.default.Some? || HasKey(kwargs, p.0)
    ensures Keys(r) == Keys(params)
    ensures forall i | 0 <= i < |params| ::
      r[i].1 == if HasKey(kwargs, params[i].0) then Lookup(kwargs, params[i].0).value else params[i].1.default.value
  {
    seq(|params|, i requires 0 <= i < |params| =>
      assert params[i] in params;
      (params[i].0, if HasKey(kwargs, params[i].0) then Lookup(kwargs, params[i].0).value else params[i].1.default.value))
  }

  /** `cls(**kwargs)` for a class whose `__init__` has parameters `params`:
      an unknown keyword is reported first, then every missing argument. */
  function Init(params: FieldTable, kwargs: seq<(string, Value)>): (r: Result<seq<(string, Value)>, InitError>)
    ensures r.Ok? <==> (forall i | 0 <= i < |kwargs| :: HasKey(params, kwargs[i].0))
                       && (forall p | p in params :: p.1.default.Some? || HasKey(kwargs, p.0))
    ensures r.Ok? ==> Keys(r.value) == Keys(params)
    ensures r.Ok? ==> forall i | 0 <= i < |params| && HasKey(kwargs, params[i].0) ::
      r.value[i].1 == Lookup(kwargs, params[i].0).value
    ensures r.Ok? ==> forall i | 0 <= i < |params| && !HasKey(kwargs, params[i].0) ::
      Some(r.value[i].1) == params[i].1.default
    ensures r.Err? && r.error.UnexpectedKeyword? ==> !HasKey(params, r.error.name)
    ensures r.Err? && r.error.MissingArguments? ==> r.error.names != []
  {
    match FirstUnexpected(params, kwargs)
    case Some(k) => Err(UnexpectedKeyword(k))
    case None =>
      var missing := Missing(params, kwargs);
      if missing != [] then
        assert exists p | p in params :: p.0 == missing[0] && p.1.default.None? && !HasKey(kwargs, p.0);
        Err(MissingArguments(missing))
      else
        Ok(Bind(params, kwargs))
  }

  /** `ExecutorSettingsBase` declares no field: it takes no keyword at all. */
  lemma EmptyDataclassInit(kwargs: seq<(string, Value)>)
    ensures Init([], kwargs).Ok? <==> kwargs == []
    ensures kwargs == [] ==> Init([], kwargs) == Ok([])
  {
    var none: FieldTable := [];
    if kwargs != [] {
      assert !HasKey(none, kwargs[0].0);
    }
  }
}
