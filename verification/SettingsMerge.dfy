/** Layering of settings: overlaying one settings tree on another, where only values that differ
    from the defaults count. Trees are the JSON values the settings serialize to. */
module SettingsMerge {
  import opened Common

  /** The three kinds of JSON number that the type inference tells apart. */
  datatype Num = U64(n: nat) | I64(i: int) | F64(r: real)

  datatype Json =
    | Null
    | Bool(b: bool)
    | Number(n: Num)
    | Str(s: string)
    | Array(xs: seq<Json>)
    | Object(fields: map<string, Json>)

  function Field(fields: map<string, Json>, key: string): Json {
    if key in fields then fields[key] else Null
  }

  predicate AllObjects(a: Json, b: Json, c: Json) {
    a.Object? && b.Object? && c.Object?
  }

  /** The overlay of `other` on `target`. */
  function Merge(target: Json, other: Json, defaults: Json): Json
    decreases other
  {
    if AllObjects(target, other, defaults) then
      var t, o, d := target.fields, other.fields, defaults.fields;
      Object(map k | k in t.Keys + o.Keys && (k in t || o[k] != Field(d, k)) ::
        if k !in o then t[k] else if k in t then Merge(t[k], o[k], Field(d, k)) else o[k])
    else if other != defaults then other
    else target
  }

  /** `merge_non_default`: visits the keys of `other` in any order. */
  method MergeNonDefault(target: Json, other: Json, defaults: Json) returns (r: Json)
    ensures r == Merge(target, other, defaults)
    decreases other
  {
    if !AllObjects(target, other, defaults) {
      r := if other != defaults then other else target;
      return;
    }
    var t, o, d := target.fields, other.fields, defaults.fields;
    ghost var merged := Merge(target, other, defaults).fields;
    var todo := o.Keys;
    while todo != {}
      invariant todo <= o.Keys
      invariant forall k :: k in todo || k !in o ==> (k in t <==> k in target.fields)
      invariant forall k :: k in t && (k in todo || k !in o) ==> t[k] == target.fields[k]
      invariant forall k :: k in o && k !in todo ==> (k in t <==> k in merged)
      invariant forall k :: k in o && k !in todo && k in t ==> t[k] == merged[k]
      decreases todo
    {
      var k :| k in todo;
      var dv := Field(d, k);
      if k in t {
        var v := MergeNonDefault(t[k], o[k], dv);
        t := t[k := v];
      } else if o[k] != dv {
        t := t[k := o[k]];
      }
      todo := todo - {k};
    }
    assert t == merged;
    r := Object(t);
  }

  // ---------- the algebra of overlays ----------

  /** Overlaying the defaults changes nothing. */
  lemma {:induction false} DefaultsAreNeutral(t: Json, d: Json)
    ensures Merge(t, d, d) == t
    decreases d
  {
    if t.Object? && d.Object? {
      var m := Merge(t, d, d);
      forall k | k in t.fields && k in d.fields
        ensures Merge(t.fields[k], d.fields[k], d.fields[k]) == t.fields[k]
      {
        DefaultsAreNeutral(t.fields[k], d.fields[k]);
      }
      assert m.fields == t.fields;
    }
  }

  lemma {:induction false} OverlayOnItself(o: Json, d: Json)
    ensures Merge(o, o, d) == o
    decreases o
  {
    if o.Object? && d.Object? {
      forall k | k in o.fields
        ensures Merge(o.fields[k], o.fields[k], Field(d.fields, k)) == o.fields[k]
      {
        OverlayOnItself(o.fields[k], Field(d.fields, k));
      }
      assert Merge(o, o, d).fields == o.fields;
    }
  }

  /** Overlaying twice is overlaying once. */
  lemma {:induction false} OverlayIsIdempotent(t: Json, o: Json, d: Json)
    ensures Merge(Merge(t, o, d), o, d) == Merge(t, o, d)
    decreases o
  {
    OverlayOnItself(o, d);
    if AllObjects(t, o, d) {
      var m := Merge(t, o, d);
      forall k | k in m.fields && k in o.fields
        ensures Merge(m.fields[k], o.fields[k], Field(d.fields, k)) == m.fields[k]
      {
        if k in t.fields {
          OverlayIsIdempotent(t.fields[k], o.fields[k], Field(d.fields, k));
        } else {
          OverlayOnItself(o.fields[k], Field(d.fields, k));
        }
      }
      assert Merge(m, o, d).fields == m.fields;
    }
  }

  /** An overlay never turns a changed tree back into the defaults. */
  lemma {:induction false} OverlayKeepsChanges(a: Json, b: Json, d: Json)
    requires Merge(a, b, d) == d
    ensures a == d
    decreases b
  {
    if AllObjects(a, b, d) {
      forall k | k in a.fields && k in b.fields
        ensures k in d.fields && a.fields[k] == d.fields[k]
      {
        assert k in Merge(a, b, d).fields;
        OverlayKeepsChanges(a.fields[k], b.fields[k], Field(d.fields, k));
      }
      forall k | k in a.fields && k !in b.fields
        ensures k in d.fields && a.fields[k] == d.fields[k]
      {
        assert k in Merge(a, b, d).fields;
      }
      forall k | k in d.fields
        ensures k in a.fields
      {
        assert k in Merge(a, b, d).fields;
      }
      assert a.fields == d.fields;
    }
  }

  /** The objects of the tree have all fields of the defaults' objects, and no null besides. */
  ghost predicate Full(b: Json, d: Json)
    decreases d
  {
    b.Object? && d.Object? ==>
      && (forall k :: k in d.fields ==> k in b.fields && Full(b.fields[k], d.fields[k]))
      && (forall k :: k in b.fields && k !in d.fields ==> b.fields[k] != Null)
  }

  /** Exactly the full trees are what they become as an overlay on the defaults. */
  lemma {:induction false} FullIffFixed(b: Json, d: Json)
    ensures Full(b, d) <==> Merge(d, b, d) == b
    decreases b
  {
    if b.Object? && d.Object? {
      var m := Merge(d, b, d);
      forall k | k in d.fields && k in b.fields
        ensures Full(b.fields[k], d.fields[k]) <==> m.fields[k] == b.fields[k]
      {
        FullIffFixed(b.fields[k], d.fields[k]);
      }
      if Full(b, d) {
        assert m.fields == b.fields;
      }
      if m == b {
        assert forall k :: k in d.fields ==> k in m.fields;
        assert forall k :: k in b.fields && k !in d.fields ==> k in m.fields && b.fields[k] != Null;
      }
    }
  }

  function Get(fields: map<string, Json>, key: string): Option<Json> {
    if key in fields then Some(fields[key]) else None
  }

  /** The overlay at one field, which may be missing on either side. */
  function MergeField(x: Option<Json>, y: Option<Json>, d: Json): Option<Json> {
    if y.None? then x
    else if x.Some? then Some(Merge(x.value, y.value, d))
    else if y.value != d then y
    else None
  }

  lemma MergeByField(t: Json, o: Json, d: Json, key: string)
    requires AllObjects(t, o, d)
    ensures Merge(t, o, d).Object?
    ensures Get(Merge(t, o, d).fields, key) == MergeField(Get(t.fields, key), Get(o.fields, key), Field(d.fields, key))
  {
  }

  lemma SameFields(a: map<string, Json>, b: map<string, Json>)
    requires forall k :: Get(a, k) == Get(b, k)
    ensures a == b
  {
    forall k
      ensures k in a <==> k in b
      ensures k in a ==> a[k] == b[k]
    {
      assert Get(a, k) == Get(b, k);
    }
  }

  /** The associative law at one base. */
  ghost predicate Associates(t: Json, a: Json, b: Json, d: Json) {
    Merge(Merge(t, a, d), b, d) == Merge(t, Merge(a, b, d), d)
  }

  /** The same at one field, which may be missing anywhere. */
  ghost predicate FieldLaw(t: Option<Json>, a: Option<Json>, b: Option<Json>, d: Json) {
    MergeField(MergeField(t, a, d), b, d) == MergeField(t, MergeField(a, b, d), d)
  }

  /** One field of the associative law; the induction step is a hypothesis. */
  lemma FieldAssociates(t: Option<Json>, a: Option<Json>, b: Option<Json>, d: Json)
    requires t.None? && a == Some(d) && b.Some? ==> Full(b.value, d)
    requires t.Some? && a.Some? && b.Some? ==> Associates(t.value, a.value, b.value, d)
    ensures FieldLaw(t, a, b, d)
  {
    if b.Some? && a.None? && b.value == d && t.Some? {
      DefaultsAreNeutral(t.value, d);
    } else if a.Some? && b.Some? && t.None? {
      if a.value == d {
        FullIffFixed(b.value, d);
      } else if Merge(a.value, b.value, d) == d {
        OverlayKeepsChanges(a.value, b.value, d);
      }
    }
  }

  lemma FieldsAssociate(t: Json, a: Json, b: Json, d: Json)
    requires t.Object? && AllObjects(a, b, d)
    requires forall k :: FieldLaw(Get(t.fields, k), Get(a.fields, k), Get(b.fields, k), Field(d.fields, k))
    ensures Associates(t, a, b, d)
  {
    hide MergeField;
    var ta, ab := Merge(t, a, d), Merge(a, b, d);
    var l, r := Merge(ta, b, d), Merge(t, ab, d);
    forall k
      ensures Get(l.fields, k) == Get(r.fields, k)
    {
      MergeByField(t, a, d, k);
      MergeByField(a, b, d, k);
      MergeByField(ta, b, d, k);
      MergeByField(t, ab, d, k);
    }
    SameFields(l.fields, r.fields);
  }

  /** When two overlays may be merged first, whatever they are laid over: among objects, the first must
      be an object unless the second is the defaults, and wherever the first equals the defaults the
      second must be full. */
  ghost predicate Mergeable(a: Json, b: Json, d: Json)
    decreases b
  {
    b.Object? && d.Object? ==>
      if !a.Object? then b == d
      else
        && (a == d ==> Full(b, d))
        && forall k :: k in a.fields && k in b.fields ==>
             && (a.fields[k] == Field(d.fields, k) ==> Full(b.fields[k], Field(d.fields, k)))
             && Mergeable(a.fields[k], b.fields[k], Field(d.fields, k))
  }

  lemma {:induction false} MergeableAssociates(t: Json, a: Json, b: Json, d: Json)
    requires Mergeable(a, b, d)
    ensures Associates(t, a, b, d)
    decreases b
  {
    if b.Object? && d.Object? && a.Object? {
      if t.Object? {
        forall k
          ensures FieldLaw(Get(t.fields, k), Get(a.fields, k), Get(b.fields, k), Field(d.fields, k))
        {
          if k in t.fields && k in a.fields && k in b.fields {
            MergeableAssociates(t.fields[k], a.fields[k], b.fields[k], Field(d.fields, k));
          }
          hide FieldLaw, Associates, Full;
          FieldAssociates(Get(t.fields, k), Get(a.fields, k), Get(b.fields, k), Field(d.fields, k));
        }
        hide FieldLaw, Associates;
        FieldsAssociate(t, a, b, d);
      } else {
        OverNonObject(t, a, b, d);
      }
    }
  }

  /** Over a base that is no object the law depends on fullness alone. */
  lemma OverNonObject(t: Json, a: Json, b: Json, d: Json)
    requires AllObjects(a, b, d) && !t.Object?
    ensures Associates(t, a, b, d) <==> (a == d ==> Full(b, d))
  {
    FullIffFixed(b, d);
    if a != d && Merge(a, b, d) == d {
      OverlayKeepsChanges(a, b, d);
    }
  }

  lemma {:induction false} KeyOutside(keys: set<string>) returns (key: string)
    ensures key !in keys
  {
    var n := LongerThanAll(keys);
    key := seq(n, i => 'x');
  }

  lemma {:induction false} LongerThanAll(keys: set<string>) returns (n: nat)
    ensures forall k :: k in keys ==> |k| < n
    decreases |keys|
  {
    n := 0;
    if keys != {} {
      var key :| key in keys;
      n := LongerThanAll(keys - {key});
      n := if n <= |key| then |key| + 1 else n;
    }
  }

  lemma {:induction false} AssociatesIsMergeable(a: Json, b: Json, d: Json)
    requires forall t :: Associates(t, a, b, d)
    ensures Mergeable(a, b, d)
    decreases b
  {
    if b.Object? && d.Object? && !a.Object? {
      var key := KeyOutside(b.fields.Keys);
      var t := Object(map[key := Null]);
      assert Associates(t, a, b, d);
      MergeByField(t, b, d, key);
      assert Get(b.fields, key) == None && Get(t.fields, key) == Some(Null);
    } else if b.Object? && d.Object? {
      assert Associates(Null, a, b, d);
      OverNonObject(Null, a, b, d);
      forall k | k in a.fields && k in b.fields
        ensures a.fields[k] == Field(d.fields, k) ==> Full(b.fields[k], Field(d.fields, k))
        ensures Mergeable(a.fields[k], b.fields[k], Field(d.fields, k))
      {
        AssociatesAtMissingField(a, b, d, k);
        forall u
          ensures Associates(u, a.fields[k], b.fields[k], Field(d.fields, k))
        {
          AssociatesAtField(a, b, d, k, u);
        }
        AssociatesIsMergeable(a.fields[k], b.fields[k], Field(d.fields, k));
      }
    }
  }

  lemma FieldOfAssociates(t: Json, a: Json, b: Json, d: Json, k: string)
    requires t.Object? && AllObjects(a, b, d) && Associates(t, a, b, d)
    ensures FieldLaw(Get(t.fields, k), Get(a.fields, k), Get(b.fields, k), Field(d.fields, k))
  {
    hide MergeField;
    var ta, ab := Merge(t, a, d), Merge(a, b, d);
    MergeByField(t, a, d, k);
    MergeByField(a, b, d, k);
    MergeByField(ta, b, d, k);
    MergeByField(t, ab, d, k);
  }

  lemma AssociatesAtMissingField(a: Json, b: Json, d: Json, k: string)
    requires AllObjects(a, b, d) && Associates(Object(map[]), a, b, d) && k in a.fields && k in b.fields
    ensures a.fields[k] == Field(d.fields, k) ==> Full(b.fields[k], Field(d.fields, k))
  {
    FieldOfAssociates(Object(map[]), a, b, d, k);
    FullIffFixed(b.fields[k], Field(d.fields, k));
    hide Merge, Full;
  }

  lemma AssociatesAtField(a: Json, b: Json, d: Json, k: string, u: Json)
    requires AllObjects(a, b, d) && Associates(Object(map[k := u]), a, b, d) && k in a.fields && k in b.fields
    ensures Associates(u, a.fields[k], b.fields[k], Field(d.fields, k))
  {
    FieldOfAssociates(Object(map[k := u]), a, b, d, k);
    hide Merge;
  }

  /** Two overlays associate over every base exactly when they are mergeable. */
  lemma OverlayAssociates(a: Json, b: Json, d: Json)
    ensures (forall t :: Associates(t, a, b, d)) <==> Mergeable(a, b, d)
  {
    hide Associates, Mergeable;
    if Mergeable(a, b, d) {
      forall t
        ensures Associates(t, a, b, d)
      {
        MergeableAssociates(t, a, b, d);
      }
    } else if forall t :: Associates(t, a, b, d) {
      AssociatesIsMergeable(a, b, d);
    }
  }

  /** A scalar overlay in the place of an object breaks the law: over an object with another field. */
  lemma ScalarOverObjectBreaksLaw()
    ensures exists t, a, b, d :: Full(b, d) && !Associates(t, a, b, d)
  {
    var d := Object(map[]);
    var t := Object(map["y" := Null]);
    var b := Object(map["x" := Bool(true)]);
    var a := Bool(false);
    assert Full(b, d);
    assert "x" in b.fields && b != d;
    assert Merge(t, a, d) == a && Merge(a, b, d) == b;
    assert "y" in Merge(t, b, d).fields && "y" !in b.fields;
    assert !Associates(t, a, b, d);
  }

  lemma OneObjectShape(x: Json, inner: Json)
    requires x.Object? && inner == Object(map["x" := Null])
    ensures KeepsShape(Object(map["g" := x]), Object(map["g" := inner]))
  {
    assert KeepsShape(x, inner);
  }

  /** An overlay that lacks a default field breaks it: over a base that lacks the whole object. */
  lemma MissingFieldBreaksLaw()
    ensures exists t: Json, a: Json, b: Json, d: Json :: t.Object? && KeepsShape(a, d) && KeepsShape(b, d) && !Associates(t, a, b, d)
  {
    var inner := Object(map["x" := Null]);
    var d := Object(map["g" := inner]);
    var t := Object(map[]);
    var b := Object(map["g" := Object(map["y" := Bool(true)])]);
    DefaultsAreNeutral(t, d);
    var ab := Merge(d, b, d);
    assert ab.fields["g"] == Merge(inner, b.fields["g"], inner);
    assert "x" in ab.fields["g"].fields && "y" in ab.fields["g"].fields;
    assert ab.fields["g"] != inner && b.fields["g"] != inner;
    assert Merge(t, ab, d).fields["g"] == ab.fields["g"];
    assert Merge(t, b, d).fields["g"] == b.fields["g"];
    OneObjectShape(inner, inner);
    OneObjectShape(b.fields["g"], inner);
    hide KeepsShape;
    assert !Associates(t, d, b, d);
  }

  // ---------- layering at one setting ----------

  type Path = seq<string>

  function At(j: Json, path: Path): Option<Json>
    decreases |path|
  {
    if path == [] then Some(j)
    else if j.Object? && path[0] in j.fields then At(j.fields[path[0]], path[1..])
    else None
  }

  /** A path to a setting: it ends where the defaults hold no object, or one step below an object
      of the defaults that lacks the last key (an entry of a map-valued setting). */
  predicate IsSetting(d: Json, path: Path)
    decreases |path|
  {
    if path == [] then !d.Object?
    else d.Object? && if path[0] in d.fields then IsSetting(d.fields[path[0]], path[1..]) else |path| == 1
  }

  function DefaultAt(d: Json, path: Path): Json {
    if At(d, path).Some? then At(d, path).value else Null
  }

  /** The tree has all objects of the defaults; single settings may be missing or extra. */
  ghost predicate KeepsShape(x: Json, d: Json)
    decreases d
  {
    d.Object? ==>
      x.Object? && forall k :: k in d.fields && d.fields[k].Object? ==> k in x.fields && KeepsShape(x.fields[k], d.fields[k])
  }

  lemma {:induction false} MergeKeepsShape(t: Json, o: Json, d: Json)
    requires KeepsShape(t, d) && KeepsShape(o, d)
    ensures KeepsShape(Merge(t, o, d), d)
    decreases o
  {
    if d.Object? {
      var m := Merge(t, o, d);
      forall k | k in d.fields && d.fields[k].Object?
        ensures k in m.fields && KeepsShape(m.fields[k], d.fields[k])
      {
        assert k in t.fields && k in o.fields;
        MergeKeepsShape(t.fields[k], o.fields[k], d.fields[k]);
      }
    }
  }

  /** On trees that keep the defaults' objects, as all serialized settings do, overlays associate; of
      the last overlay nothing is asked. */
  lemma {:induction false} OverlayAssociatesOnShape(t: Json, a: Json, b: Json, d: Json)
    requires KeepsShape(t, d) && KeepsShape(a, d)
    ensures Associates(t, a, b, d)
    decreases b
  {
    if b.Object? && d.Object? {
      forall k
        ensures FieldLaw(Get(t.fields, k), Get(a.fields, k), Get(b.fields, k), Field(d.fields, k))
      {
        var dk := Field(d.fields, k);
        if k in t.fields && k in a.fields && k in b.fields {
          assert dk.Object? ==> KeepsShape(t.fields[k], dk) && KeepsShape(a.fields[k], dk);
          OverlayAssociatesOnShape(t.fields[k], a.fields[k], b.fields[k], dk);
        }
        assert k !in t.fields ==> !dk.Object?;
        hide FieldLaw, Associates, KeepsShape;
        FieldAssociates(Get(t.fields, k), Get(a.fields, k), Get(b.fields, k), dk);
      }
      hide FieldLaw, Associates;
      FieldsAssociate(t, a, b, d);
    }
  }

  function Overlaid(t: Option<Json>, o: Option<Json>, d: Json): Option<Json> {
    if o.Some? && o.value != d then o else t
  }

  /** At every setting the overlay's value wins if it is not the default. */
  lemma {:induction false} MergeAtSetting(t: Json, o: Json, d: Json, path: Path)
    requires KeepsShape(t, d) && KeepsShape(o, d) && IsSetting(d, path)
    ensures At(Merge(t, o, d), path) == Overlaid(At(t, path), At(o, path), DefaultAt(d, path))
    decreases |path|
  {
    if path != [] {
      var k, rest := path[0], path[1..];
      MergeByField(t, o, d, k);
      if k in d.fields {
        if k in t.fields && k in o.fields {
          MergeAtSetting(t.fields[k], o.fields[k], d.fields[k], rest);
        } else {
          assert !d.fields[k].Object?;
          AtOne(t, o, d, k);
          assert path == [k];
        }
      } else {
        AtOne(t, o, d, k);
        assert path == [k];
      }
    }
  }

  lemma AtOne(t: Json, o: Json, d: Json, k: string)
    requires AllObjects(t, o, d)
    ensures At(t, [k]) == Get(t.fields, k) && At(o, [k]) == Get(o.fields, k)
    ensures At(d, [k]) == Get(d.fields, k) && At(Merge(t, o, d), [k]) == Get(Merge(t, o, d).fields, k)
  {
    assert [k][1..] == [];
  }

  /** The wizard's order: first-step choices, stored settings over them, first-step choices again.
      Every setting ends as the first step's value if that is not the default, else as the stored
      one if that is not, else as the default. */
  lemma WizardOrder(step1: Json, stored: Json, d: Json, path: Path)
    requires KeepsShape(step1, d) && KeepsShape(stored, d) && IsSetting(d, path)
    ensures var final := At(Merge(Merge(step1, stored, d), step1, d), path);
            var first, second, dv := At(step1, path), At(stored, path), DefaultAt(d, path);
            && (first.Some? && first.value != dv ==> final == first)
            && (!(first.Some? && first.value != dv) && second.Some? && second.value != dv ==> final == second)
            && (!(first.Some? && first.value != dv) && !(second.Some? && second.value != dv) ==>
                  final == first && (final.Some? ==> final.value == dv))
  {
    var merged := Merge(step1, stored, d);
    MergeKeepsShape(step1, stored, d);
    MergeAtSetting(step1, stored, d, path);
    MergeAtSetting(merged, step1, d, path);
  }
}
