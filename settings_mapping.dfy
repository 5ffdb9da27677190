/** The two halves of the settings mapping that every `Plugin` generation shares:
    renaming a settings class's fields to `<prefix>_<field>` in place
    (`register_cli_args`), and collecting the keyword arguments for the class
    back from the parsed command line (`get_executor_settings`). */
module SettingsMapping {
  import opened Wrappers
  import Text
  import opened PyValues
  import opened Dataclasses

  /** `f"{prefix}_{field.name}"`. */
  function Prefixed(prefix: string, name: string): (r: string)
    ensures |r| == |prefix| + 1 + |name|
    ensures r[..|prefix|] == prefix && r[|prefix|] == '_' && r[|prefix| + 1..] == name
  {
    prefix + "_" + name
  }

  /** Prefixing with the same prefix is injective. */
  lemma PrefixedInjective(prefix: string, a: string, b: string)
    requires Prefixed(prefix, a) == Prefixed(prefix, b)
    ensures a == b
  {
    var r := Prefixed(prefix, a);
    assert a == r[|prefix| + 1..];
  }

  // ---------------------------------------------------------------------------
  // register_cli_args: the renaming loop

  /** One iteration: `del fields[name]`, then `fields[prefixed] = field`. */
  function RenameStep(t: FieldTable, f: (string, FieldInfo), prefix: string): FieldTable
  {
    Put(Del(t, f.0), Prefixed(prefix, f.0), f.1)
  }

  /** The field table after the loop has handled the fields `done`, in order. */
  function Renamed(t: FieldTable, done: FieldTable, prefix: string): FieldTable
    decreases |done|
  {
    if done == [] then t
    else RenameStep(Renamed(t, done[..|done| - 1], prefix), done[|done| - 1], prefix)
  }

  lemma PutKeepsKeys<V>(d: seq<(string, V)>, k: string, v: V, other: string)
    requires HasKey(d, other)
    ensures HasKey(Put(d, k, v), other)
  {
    var i :| 0 <= i < |d| && d[i].0 == other;
    assert Put(d, k, v)[i].0 == other;
  }

  lemma DelKeepsKeys<V>(d: seq<(string, V)>, k: string, other: string)
    requires HasKey(d, other) && other != k
    ensures HasKey(Del(d, k), other)
  {
    var i :| 0 <= i < |d| && d[i].0 == other;
    assert d[i] in Del(d, k);
  }

  lemma DelDistinct<V>(d: seq<(string, V)>, k: string)
    requires DistinctKeys(d)
    ensures DistinctKeys(Del(d, k))
  {
    if d != [] {
      DelDistinct(d[1..], k);
      if d[0].0 != k {
        var r := Del(d[1..], k);
        forall i | 0 <= i < |r|
          ensures r[i].0 != d[0].0
        {
          assert r[i] in d[1..];
        }
        assert DistinctKeys([d[0]] + r);
      }
    }
  }

  lemma PutDistinct<V>(d: seq<(string, V)>, k: string, v: V)
    requires DistinctKeys(d)
    ensures DistinctKeys(Put(d, k, v))
  {
  }

  /** `for field in fields(params): ...` over the settings class itself, which
      `copy.deepcopy` hands back unchanged. Every `del` finds its key. */
  method RenameFields(c: SettingsClass, prefix: string)
    requires DistinctKeys(c.fields)
    modifies c
    ensures c.fields == Renamed(old(c.fields), old(c.fields), prefix)
    ensures DistinctKeys(c.fields)
  {
    var snapshot := c.fields;
    for i := 0 to |snapshot|
      invariant c.fields == Renamed(snapshot, snapshot[..i], prefix)
      invariant DistinctKeys(c.fields)
      invariant forall j | i <= j < |snapshot| :: HasKey(c.fields, snapshot[j].0)
    {
      var field := snapshot[i];
      assert snapshot[..i + 1][..i] == snapshot[..i];
      forall j | i < j < |snapshot|
        ensures HasKey(RenameStep(c.fields, field, prefix), snapshot[j].0)
      {
        DelKeepsKeys(c.fields, field.0, snapshot[j].0);
        PutKeepsKeys(Del(c.fields, field.0), Prefixed(prefix, field.0), field.1, snapshot[j].0);
      }
      assert HasKey(c.fields, field.0);
      DelDistinct(c.fields, field.0);
      c.fields := Del(c.fields, field.0);
      PutDistinct(c.fields, Prefixed(prefix, field.0), field.1);
      c.fields := Put(c.fields, Prefixed(prefix, field.0), field.1);
    }
    assert snapshot[..|snapshot|] == snapshot;
  }

  /** Every field under its prefixed name, in declaration order. */
  function RenameAll(t: FieldTable, prefix: string): (r: FieldTable)
    ensures |r| == |t|
    ensures forall i | 0 <= i < |t| :: r[i] == (Prefixed(prefix, t[i].0), t[i].1)
  {
    seq(|t|, i requires 0 <= i < |t| => (Prefixed(prefix, t[i].0), t[i].1))
  }

  /** No prefixed name is already the name of a field. */
  predicate CollisionFree(t: FieldTable, prefix: string)
  {
    forall i, j | 0 <= i < |t| && 0 <= j < |t| :: Prefixed(prefix, t[i].0) != t[j].0
  }

  /** The fields after `i` and the renamed fields before it do not use the
      name of field `i`, nor its prefixed name. */
  lemma StepKeysAbsent(t: FieldTable, prefix: string, i: int)
    requires DistinctKeys(t) && CollisionFree(t, prefix) && 0 <= i < |t|
    ensures !HasKey(t[i + 1..] + RenameAll(t[..i], prefix), t[i].0)
    ensures !HasKey(t[i + 1..] + RenameAll(t[..i], prefix), Prefixed(prefix, t[i].0))
  {
    var rest := t[i + 1..] + RenameAll(t[..i], prefix);
    forall j | 0 <= j < |rest|
      ensures rest[j].0 != t[i].0 && rest[j].0 != Prefixed(prefix, t[i].0)
    {
      if j < |t| - i - 1 {
        assert rest[j] == t[i + 1 + j];
      } else {
        var m := j - (|t| - i - 1);
        assert rest[j] == (Prefixed(prefix, t[m].0), t[m].1);
        if rest[j].0 == Prefixed(prefix, t[i].0) {
          PrefixedInjective(prefix, t[m].0, t[i].0);
        }
      }
    }
  }

  /** One iteration moves field `i` from the front to the back, renamed. */
  lemma RenameStepMoves(t: FieldTable, prefix: string, i: int)
    requires DistinctKeys(t) && CollisionFree(t, prefix) && 0 <= i < |t|
    ensures RenameStep(t[i..] + RenameAll(t[..i], prefix), t[i], prefix)
         == t[i + 1..] + RenameAll(t[..i + 1], prefix)
  {
    var done := RenameAll(t[..i], prefix);
    var rest := t[i + 1..] + done;
    StepKeysAbsent(t, prefix, i);
    assert t[i..] + done == [t[i]] + rest;
    DelHead(t[i], rest);
    assert RenameAll(t[..i + 1], prefix) == done + [(Prefixed(prefix, t[i].0), t[i].1)];
  }

  /** Without collisions the loop renames every field and keeps their order:
      each field moves from the front to the back under its new name. */
  lemma {:induction false} RenamedInOrder(t: FieldTable, prefix: string)
    requires DistinctKeys(t) && CollisionFree(t, prefix)
    ensures Renamed(t, t, prefix) == RenameAll(t, prefix)
  {
    for i := 0 to |t|
      invariant Renamed(t, t[..i], prefix) == t[i..] + RenameAll(t[..i], prefix)
    {
      assert t[..i + 1][..i] == t[..i];
      RenameStepMoves(t, prefix, i);
    }
    assert t[..|t|] == t;
  }

  /** With a collision a field is lost: `a` is stored over the entry of a field
      named `p_a`, which that field's own `del` then removes. */
  lemma RenameCollisionDropsField(a: FieldInfo, b: FieldInfo)
    ensures Renamed([("a", a), ("p_a", b)], [("a", a), ("p_a", b)], "p") == [("p_p_a", b)]
  {
    var t: FieldTable := [("a", a), ("p_a", b)];
    assert Prefixed("p", "a") == "p_a" && Prefixed("p", "p_a") == "p_p_a";
    assert t[..2] == t && t[..1] == [("a", a)] && t[..1][..0] == [];
    assert Del(t, "a") == [("p_a", b)] by {
      assert t[1..] == [("p_a", b)];
      DelAbsent([("p_a", b)], "a");
    }
    assert HasKey([("p_a", b)], "p_a");
    var s1 := RenameStep(t, ("a", a), "p");
    assert s1 == [("p_a", a)];
    assert Renamed(t, t[..1], "p") == s1;
    assert Del(s1, "p_a") == [];
    var none: FieldTable := [];
    assert !HasKey(none, "p_p_a");
    assert RenameStep(s1, ("p_a", b), "p") == [("p_p_a", b)];
  }

  // ---------------------------------------------------------------------------
  // get_executor_settings: collecting keyword arguments

  /** `field.name.replace(f"{name}_", "", 1)`. */
  function Strip(fieldName: string, name: string): (r: string)
    ensures Text.StartsWith(fieldName, name + "_") ==> r == fieldName[|name| + 1..]
  {
    if Text.StartsWith(fieldName, name + "_") then
      assert fieldName == (name + "_") + fieldName[|name| + 1..];
      Text.ReplaceFirstAtStart(name + "_", fieldName[|name| + 1..]);
      Text.ReplaceFirst(fieldName, name + "_", "")
    else
      Text.ReplaceFirst(fieldName, name + "_", "")
  }

  /** Stripping `<name>_` undoes prefixing with `<name>`. */
  lemma StripInvertsPrefixed(name: string, field: string)
    ensures Strip(Prefixed(name, field), name) == field
  {
    assert Prefixed(name, field) == (name + "_") + field;
  }

  /** `getattr(args, attr, None)` on the parsed command line. */
  function ArgValue(args: map<string, Value>, attr: string): Value
  {
    if attr in args then args[attr] else NoneValue
  }

  /** `isinstance(value, ArgTypes)`: str, int and bool values, and lists where
      the generation accepts them. */
  predicate Accepted(v: Value, lists: bool)
  {
    v.Str? || v.Int? || v.Bool? || (lists && v.List?)
  }

  /** `kwargs` after the loop over the fields `fs`: each accepted value is
      stored under the stripped field name. */
  function Kwargs(fs: FieldTable, name: string, args: map<string, Value>, lists: bool): seq<(string, Value)>
    decreases |fs|
  {
    if fs == [] then []
    else
      var kw := Kwargs(fs[..|fs| - 1], name, args, lists);
      var f := fs[|fs| - 1];
      var value := ArgValue(args, f.0);
      if Accepted(value, lists) then Put(kw, Strip(f.0, name), value) else kw
  }

  method CollectKwargs(fs: FieldTable, name: string, args: map<string, Value>, lists: bool)
    returns (kwargs: seq<(string, Value)>)
    ensures kwargs == Kwargs(fs, name, args, lists)
  {
    kwargs := [];
    for i := 0 to |fs|
      invariant kwargs == Kwargs(fs[..i], name, args, lists)
    {
      assert fs[..i + 1][..i] == fs[..i];
      var value := ArgValue(args, fs[i].0);
      if Accepted(value, lists) {
        kwargs := Put(kwargs, Strip(fs[i].0, name), value);
      }
    }
    assert fs[..|fs|] == fs;
  }

  /** The original fields whose prefixed argument holds an accepted value,
      paired with that value, in declaration order. */
  function Supplied(t: FieldTable, name: string, args: map<string, Value>, lists: bool): (r: seq<(string, Value)>)
    ensures forall k :: HasKey(r, k) ==> HasKey(t, k)
    decreases |t|
  {
    if t == [] then []
    else
      var rest := Supplied(t[..|t| - 1], name, args, lists);
      var f := t[|t| - 1];
      var value := ArgValue(args, Prefixed(name, f.0));
      assert forall k :: HasKey(t[..|t| - 1], k) ==> HasKey(t, k);
      if Accepted(value, lists) then rest + [(f.0, value)] else rest
  }

  /** Reading back a renamed table gives exactly the supplied values, each
      under its original field name. */
  lemma {:induction false} KwargsOfRenamed(t: FieldTable, name: string, args: map<string, Value>, lists: bool)
    requires DistinctKeys(t)
    ensures Kwargs(RenameAll(t, name), name, args, lists) == Supplied(t, name, args, lists)
    decreases |t|
  {
    if t != [] {
      var n := |t| - 1;
      var init := t[..n];
      assert RenameAll(t, name)[..n] == RenameAll(init, name);
      KwargsOfRenamed(init, name, args, lists);
      StripInvertsPrefixed(name, t[n].0);
      var rest := Supplied(init, name, args, lists);
      assert forall j | 0 <= j < |init| :: init[j].0 != t[n].0;
      assert !HasKey(rest, t[n].0);
    }
  }

  lemma {:induction false} SuppliedLookup(t: FieldTable, name: string, args: map<string, Value>, lists: bool, i: int)
    requires DistinctKeys(t) && 0 <= i < |t|
    ensures var v := ArgValue(args, Prefixed(name, t[i].0));
            var s := Supplied(t, name, args, lists);
            (HasKey(s, t[i].0) <==> Accepted(v, lists))
            && (Accepted(v, lists) ==> Lookup(s, t[i].0) == Some(v))
    decreases |t|
  {
    var n := |t| - 1;
    var init := t[..n];
    var rest := Supplied(init, name, args, lists);
    var s := Supplied(t, name, args, lists);
    var vn := ArgValue(args, Prefixed(name, t[n].0));
    if i < n {
      SuppliedLookup(init, name, args, lists, i);
      assert init[i] == t[i];
      assert t[i].0 != t[n].0;
      if Accepted(vn, lists) {
        assert s == rest + [(t[n].0, vn)];
        HasKeyAppend(rest, t[i].0, (t[n].0, vn));
        LookupAppend(rest, t[i].0, (t[n].0, vn));
      }
    } else {
      assert forall j | 0 <= j < |init| :: init[j].0 != t[n].0;
      assert !HasKey(rest, t[n].0);
      if Accepted(vn, lists) {
        HasKeyAppend(rest, t[n].0, (t[n].0, vn));
        LookupAppend(rest, t[n].0, (t[n].0, vn));
      }
    }
  }

  /** The prefix/strip round trip: after the fields were renamed under the
      plugin's own name, the settings class is rebuilt from exactly the
      accepted command-line values, every other field keeping its default; it
      fails only when a field without default has no accepted value. */
  lemma SettingsRoundTrip(t: FieldTable, name: string, args: map<string, Value>, lists: bool)
    requires DistinctKeys(t) && CollisionFree(t, name)
    ensures var r := Init(t, Kwargs(Renamed(t, t, name), name, args, lists));
      (r.Ok? <==> forall i | 0 <= i < |t| ::
         t[i].1.default.Some? || Accepted(ArgValue(args, Prefixed(name, t[i].0)), lists))
      && (r.Ok? ==> forall i | 0 <= i < |t| ::
         var v := ArgValue(args, Prefixed(name, t[i].0));
         r.value[i] == (t[i].0, if Accepted(v, lists) then v else t[i].1.default.value))
  {
    RenamedInOrder(t, name);
    KwargsOfRenamed(t, name, args, lists);
    var s := Supplied(t, name, args, lists);
    forall i | 0 <= i < |t|
      ensures var v := ArgValue(args, Prefixed(name, t[i].0));
              (HasKey(s, t[i].0) <==> Accepted(v, lists))
              && (Accepted(v, lists) ==> Lookup(s, t[i].0) == Some(v))
    {
      SuppliedLookup(t, name, args, lists, i);
    }
    var r := Init(t, s);
    forall p | p in t
      ensures exists i | 0 <= i < |t| :: t[i] == p
    {
    }
    forall i | 0 <= i < |s|
      ensures HasKey(t, s[i].0)
    {
      assert HasKey(s, s[i].0);
    }
    if r.Ok? {
      forall i | 0 <= i < |t|
        ensures r.value[i].0 == t[i].0
      {
        assert Keys(r.value)[i] == Keys(t)[i];
      }
    }
  }
}
