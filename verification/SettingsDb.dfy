/** Settings in the database: flattening a settings tree to dotted keys, setting one value by its
    dotted key with the type taken from the value already there, and what a round trip through
    both restores. The texts of numbers and of JSON values are a parameter (`Codec`), and so is the
    deserializer's verdict on a value at a path (`accepts`). */
module SettingsDb {
  import opened Common
  import opened SettingsMerge
  import T = Text

  datatype Float = Finite(r: real) | NotFinite

  datatype Codec = Codec(
    show: Json -> string,
    parse: string -> Option<Json>,
    showNum: Num -> string,
    parseU64: string -> Option<nat>,
    parseI64: string -> Option<int>,
    parseF64: string -> Option<Float>,
    accepts: (Path, Json) -> bool)

  /** The text of the value `v` reads back as `v`, both as JSON and by the parser of its number type. */
  predicate FaithfulAt(c: Codec, v: Json) {
    match v
    case Bool(b) => c.parse(if b then "true" else "false") == Some(v)
    case Number(n) =>
      && c.parse(c.showNum(n)) == Some(v)
      && (match n
          case U64(k) => c.parseU64(c.showNum(n)) == Some(k)
          case I64(i) => c.parseI64(c.showNum(n)) == Some(i)
          case F64(r) => c.parseF64(c.showNum(n)) == Some(Finite(r)))
    case Array(_) => c.parse(c.show(v)) == Some(v)
    case _ => true
  }

  /** A small codec with booleans and natural numbers. */
  function PlainCodec(): Codec {
    var natural := (s: string) =>
      if T.Value(s) >= 0 && T.Decimal(T.Value(s)) == s then Some(T.Value(s) as nat) else None;
    Codec(
      _ => "",
      s => if s == "true" then Some(Bool(true)) else if s == "false" then Some(Bool(false))
           else if natural(s).Some? then Some(Number(U64(natural(s).value))) else None,
      (n: Num) => if n.U64? then T.Decimal(n.n) else "",
      natural, _ => None, _ => None, (_, _) => true)
  }

  /** It meets the condition at every boolean, string and natural number. */
  lemma PlainCodecIsFaithful(v: Json)
    requires v.Bool? || v.Str? || (v.Number? && v.n.U64?)
    ensures FaithfulAt(PlainCodec(), v)
  {
    if v.Number? {
      T.DecimalReadsBack(v.n.n);
      T.DecimalIsDigits(v.n.n);
    }
  }

  // ---------- dotted keys ----------

  /** `path.split('.')`. */
  function SplitDots(s: string): (r: Path)
    ensures r != []
  {
    if s == "" then [""]
    else
      var r := SplitDots(s[1..]);
      if s[0] == '.' then [""] + r else [[s[0]] + r[0]] + r[1..]
  }

  function Join(p: Path): string
    requires p != []
  {
    if |p| == 1 then p[0] else p[0] + "." + Join(p[1..])
  }

  predicate GoodKey(k: string) {
    k != "" && '.' !in k
  }

  ghost predicate GoodPath(p: Path) {
    p != [] && forall i :: 0 <= i < |p| ==> GoodKey(p[i])
  }

  lemma {:induction false} SplitPrefix(k: string, rest: string)
    requires '.' !in k
    ensures SplitDots(k + "." + rest) == [k] + SplitDots(rest)
    ensures SplitDots(k) == [k]
    decreases |k|
  {
    var s := k + "." + rest;
    if k == "" {
      assert s[1..] == rest;
      assert [""] + SplitDots(rest) == [k] + SplitDots(rest);
    } else {
      assert s[1..] == k[1..] + "." + rest;
      SplitPrefix(k[1..], rest);
      assert [k[0]] + k[1..] == k;
    }
  }

  /** Splitting undoes joining. */
  lemma {:induction false} SplitJoin(p: Path)
    requires GoodPath(p)
    ensures SplitDots(Join(p)) == p
    decreases |p|
  {
    assert GoodKey(p[0]);
    if |p| == 1 {
      SplitPrefix(p[0], "");
    } else {
      assert GoodPath(p[1..]);
      SplitJoin(p[1..]);
      SplitPrefix(p[0], Join(p[1..]));
      assert p == [p[0]] + p[1..];
    }
  }

  lemma JoinIsInjective(p: Path, q: Path)
    requires GoodPath(p) && GoodPath(q) && Join(p) == Join(q)
    ensures p == q
  {
    SplitJoin(p);
    SplitJoin(q);
  }

  lemma {:induction false} JoinSnoc(p: Path, k: string)
    requires p != []
    ensures Join(p + [k]) == Join(p) + "." + k
    decreases |p|
  {
    if |p| == 1 {
      assert (p + [k])[1..] == [k];
    } else {
      assert (p + [k])[1..] == p[1..] + [k];
      JoinSnoc(p[1..], k);
      assert p[0] + "." + (Join(p[1..]) + "." + k) == p[0] + "." + Join(p[1..]) + "." + k;
    }
  }

  // ---------- setting one value ----------

  function Text(c: Codec, v: Json): string {
    match v
    case Str(s) => s
    case Bool(b) => if b then "true" else "false"
    case Number(n) => c.showNum(n)
    case _ => c.show(v)
  }

  /** The value a text stands for in a slot, by the type of what is there. */
  function Infer(c: Codec, slot: Option<Json>, text: string): Result<Json> {
    var loose := if c.parse(text).Some? then c.parse(text).value else Str(text);
    match slot
    case None => Ok(loose)
    case Some(Null) => Ok(loose)
    case Some(Bool(_)) =>
      if text == "true" then Ok(Bool(true)) else if text == "false" then Ok(Bool(false)) else Err("Expected boolean")
    case Some(Number(U64(_))) =>
      var n := c.parseU64(text);
      if n.Some? then Ok(Number(U64(n.value))) else Err("Expected integer")
    case Some(Number(I64(_))) =>
      var n := c.parseI64(text);
      if n.Some? then Ok(Number(I64(n.value))) else Err("Expected integer")
    case Some(Number(F64(_))) =>
      var n := c.parseF64(text);
      if n.None? then Err("Expected number")
      else if n.value.Finite? then Ok(Number(F64(n.value.r)))
      else Ok(Str(text))
    case Some(Str(_)) => Ok(Str(text))
    case Some(_) => if c.parse(text).Some? then Ok(c.parse(text).value) else Err("Invalid JSON")
  }

  function Parent(p: Path): Path
    requires p != []
  {
    p[..|p| - 1]
  }

  predicate ParentIsObject(j: Json, p: Path)
    requires p != []
  {
    At(j, Parent(p)).Some? && At(j, Parent(p)).value.Object?
  }

  lemma {:induction false} AtSnoc(j: Json, p: Path, k: string)
    ensures At(j, p + [k]) ==
            if At(j, p).Some? && At(j, p).value.Object? then Get(At(j, p).value.fields, k) else None
    decreases |p|
  {
    if p == [] {
      assert (p + [k])[1..] == [];
    } else {
      assert (p + [k])[1..] == p[1..] + [k];
      if j.Object? && p[0] in j.fields {
        AtSnoc(j.fields[p[0]], p[1..], k);
      }
    }
  }

  /** The tree with `v` inserted at `p`. */
  function Put(j: Json, p: Path, v: Json): Json
    requires p != [] && ParentIsObject(j, p)
    decreases |p|
  {
    if |p| == 1 then
      assert Parent(p) == [];
      Object(j.fields[p[0] := v])
    else
      assert Parent(p)[1..] == Parent(p[1..]);
      Object(j.fields[p[0] := Put(j.fields[p[0]], p[1..], v)])
  }

  /** The effect of setting a text at a path. */
  function SetPath(c: Codec, j: Json, p: Path, text: string): Result<Json>
    requires p != []
  {
    if At(j, Parent(p)).None? then Err("Path not found")
    else if !ParentIsObject(j, p) then Err("Parent is not an object")
    else
      match Infer(c, At(j, p), text)
      case Err(e) => Err(e)
      case Ok(v) => if c.accepts(p, v) then Ok(Put(j, p, v)) else Err("Failed to apply setting")
  }

  function ApplyEntry(c: Codec, j: Json, key: string, v: Json): Json {
    if key == "owner_id" || v.Null? then j
    else
      var r := SetPath(c, j, SplitDots(key), Text(c, v));
      if r.Ok? then r.value else j
  }

  /** Setting all entries of a database map, in the order of `keys`. */
  function ApplyAll(c: Codec, j: Json, keys: seq<string>, m: map<string, Json>): Json
    requires forall i :: 0 <= i < |keys| ==> keys[i] in m
    decreases |keys|
  {
    if keys == [] then j
    else
      var n := |keys| - 1;
      ApplyEntry(c, ApplyAll(c, j, keys[..n], m), keys[n], m[keys[n]])
  }

  lemma AtRoot(j: Json)
    ensures At(j, []) == Some(j)
  {
  }

  class Settings {
    const codec: Codec
    var tree: Json

    constructor (codec: Codec, defaults: Json)
      ensures this.codec == codec && tree == defaults
    {
      this.codec, tree := codec, defaults;
    }

    /** `Settings::set`: walk down to the parent, infer the value, insert it. */
    method Set(path: string, value: string) returns (r: Result<()>)
      modifies this
      ensures var spec := SetPath(codec, old(tree), SplitDots(path), value);
              && tree == (if spec.Ok? then spec.value else old(tree))
              && r == (if spec.Ok? then Ok(()) else Err(spec.error))
    {
      hide Put, Infer, SplitDots, At;
      var parts := SplitDots(path);
      var n := |parts| - 1;
      AtRoot(tree);
      var current := tree;
      for i := 0 to n
        invariant tree == old(tree) && At(tree, parts[..i]) == Some(current)
      {
        assert parts[..i + 1] == parts[..i] + [parts[i]];
        AtSnoc(tree, parts[..i], parts[i]);
        if !current.Object? || parts[i] !in current.fields {
          MissingStays(tree, parts[..i + 1], parts[..n]);
          assert At(tree, Parent(parts)).None? && Parent(parts) == parts[..n];
          return Err("Path not found");
        }
        current := current.fields[parts[i]];
      }
      if !current.Object? {
        return Err("Parent is not an object");
      }
      assert parts == parts[..n] + [parts[n]];
      AtSnoc(tree, parts[..n], parts[n]);
      match Infer(codec, Get(current.fields, parts[n]), value)
      case Err(e) =>
        return Err(e);
      case Ok(v) =>
        if !codec.accepts(parts, v) {
          return Err("Failed to apply setting");
        }
        tree := Put(tree, parts, v);
        return Ok(());
    }

    /** `Settings::from_db_map` on fresh settings: the entries come in some order. */
    method FromDbMap(m: map<string, Json>) returns (ghost keys: seq<string>)
      modifies this
      ensures Enumerates(keys, m)
      ensures tree == ApplyAll(codec, old(tree), keys, m)
    {
      var todo := m.Keys;
      keys := [];
      while todo != {}
        invariant todo <= m.Keys && NoRepeats(keys)
        invariant forall k :: k in keys <==> k in m && k !in todo
        invariant tree == ApplyAll(codec, old(tree), keys, m)
        decreases todo
      {
        var key :| key in todo;
        todo := todo - {key};
        assert (keys + [key])[..|keys|] == keys;
        if key != "owner_id" && m[key] != Null {
          var _ := Set(key, Text(codec, m[key]));
        }
        keys := keys + [key];
      }
    }
  }

  ghost predicate NoRepeats(keys: seq<string>) {
    forall i, j :: 0 <= i < j < |keys| ==> keys[i] != keys[j]
  }

  ghost predicate Enumerates(keys: seq<string>, m: map<string, Json>) {
    NoRepeats(keys) && forall k :: k in keys <==> k in m
  }

  lemma {:induction false} MissingStays(j: Json, p: Path, q: Path)
    requires p <= q && At(j, p).None?
    ensures At(j, q).None?
    decreases |p|
  {
    if p != [] && j.Object? && p[0] in j.fields {
      assert p[1..] <= q[1..];
      MissingStays(j.fields[p[0]], p[1..], q[1..]);
    }
  }

  // ---------- flattening ----------

  predicate LeafAt(j: Json, p: Path) {
    At(j, p).Some? && !At(j, p).value.Object?
  }

  ghost predicate GoodTree(j: Json) {
    j.Object? ==> forall k :: k in j.fields ==> GoodKey(k) && GoodTree(j.fields[k])
  }

  lemma {:induction false} LeafPathIsGood(j: Json, p: Path)
    requires GoodTree(j) && LeafAt(j, p)
    ensures forall i :: 0 <= i < |p| ==> GoodKey(p[i])
    decreases |p|
  {
    if p != [] {
      LeafPathIsGood(j.fields[p[0]], p[1..]);
      assert forall i :: 0 < i < |p| ==> p[i] == p[1..][i - 1];
    }
  }

  /** `key` is the dotted path, below `at`, of some leaf of the tree. */
  ghost predicate KeyOf(j: Json, at: Path, key: string) {
    exists p :: LeafAt(j, p) && at + p != [] && key == Join(at + p)
  }

  /** The map after flattening the tree at `at` into `before`. */
  ghost predicate Flattened(j: Json, at: Path, before: map<string, Json>, after: map<string, Json>) {
    && (forall p :: LeafAt(j, p) && at + p != [] ==> Get(after, Join(at + p)) == At(j, p))
    && (forall key :: !KeyOf(j, at, key) ==> Get(after, key) == Get(before, key))
  }

  lemma LeafBelow(j: Json, k: string, p: Path)
    requires j.Object? && k in j.fields
    ensures At(j, [k] + p) == At(j.fields[k], p)
  {
    assert ([k] + p)[1..] == p;
  }

  lemma KeyOfField(j: Json, at: Path, k: string, key: string)
    requires j.Object? && k in j.fields && KeyOf(j.fields[k], at + [k], key)
    ensures KeyOf(j, at, key)
  {
    var q :| LeafAt(j.fields[k], q) && at + [k] + q != [] && key == Join(at + [k] + q);
    LeafBelow(j, k, q);
    assert at + [k] + q == at + ([k] + q);
    assert LeafAt(j, [k] + q);
  }

  /** Dotted keys of different fields differ. */
  lemma KeysOfFieldsApart(j: Json, at: Path, k: string, p: Path)
    requires j.Object? && GoodTree(j) && (at == [] || GoodPath(at))
    requires k in j.fields && LeafAt(j, p) && p != [] && p[0] != k
    ensures !KeyOf(j.fields[k], at + [k], Join(at + p))
  {
    hide GoodTree, At, Join, GoodPath;
    forall q | LeafAt(j.fields[k], q)
      ensures at + [k] + q != [] && Join(at + [k] + q) != Join(at + p)
    {
      LeafBelow(j, k, q);
      assert ([k] + q)[0] == k;
      DifferentLeaves(j, at, p, [k] + q);
      assert at + [k] + q == at + ([k] + q);
    }
  }

  lemma DifferentLeaves(j: Json, at: Path, p: Path, q: Path)
    requires GoodTree(j) && (at == [] || GoodPath(at))
    requires LeafAt(j, p) && LeafAt(j, q) && p != [] && q != [] && p[0] != q[0]
    ensures Join(at + p) != Join(at + q)
  {
    LeafPathIsGood(j, p);
    LeafPathIsGood(j, q);
    hide GoodTree, At, Join;
    assert GoodPath(at + p) && GoodPath(at + q);
    assert (at + p)[|at|] == p[0] && (at + q)[|at|] == q[0];
    if Join(at + p) == Join(at + q) {
      JoinIsInjective(at + p, at + q);
    }
  }

  /** Fields flattened so far: all but those still to do. */
  ghost predicate FlattenedBut(j: Json, at: Path, todo: set<string>, before: map<string, Json>, now: map<string, Json>) {
    && (forall p :: LeafAt(j, p) && p != [] && p[0] !in todo ==> Get(now, Join(at + p)) == At(j, p))
    && (forall key :: !KeyOf(j, at, key) ==> Get(now, key) == Get(before, key))
  }

  lemma FlattenOneMore(j: Json, at: Path, todo: set<string>, k: string,
                       before: map<string, Json>, now: map<string, Json>, after: map<string, Json>)
    requires j.Object? && GoodTree(j) && (at == [] || GoodPath(at))
    requires k in j.fields && k in todo
    requires FlattenedBut(j, at, todo, before, now) && Flattened(j.fields[k], at + [k], now, after)
    ensures FlattenedBut(j, at, todo - {k}, before, after)
  {
    hide GoodTree, GoodPath, Join, At, KeyOf, Get;
    forall p | LeafAt(j, p) && p != [] && p[0] !in todo - {k}
      ensures Get(after, Join(at + p)) == At(j, p)
    {
      if p[0] == k {
        assert p == [k] + p[1..];
        LeafBelow(j, k, p[1..]);
        assert at + [k] + p[1..] == at + p;
        assert LeafAt(j.fields[k], p[1..]);
      } else {
        KeysOfFieldsApart(j, at, k, p);
        assert Get(now, Join(at + p)) == At(j, p);
      }
    }
    forall key | !KeyOf(j, at, key)
      ensures Get(after, key) == Get(before, key)
    {
      if KeyOf(j.fields[k], at + [k], key) {
        KeyOfField(j, at, k, key);
      }
    }
  }

  lemma FlattenedAll(j: Json, at: Path, before: map<string, Json>, now: map<string, Json>)
    requires j.Object? && FlattenedBut(j, at, {}, before, now)
    ensures Flattened(j, at, before, now)
  {
    forall p | LeafAt(j, p) && at + p != []
      ensures Get(now, Join(at + p)) == At(j, p)
    {
      assert p != [];
    }
  }

  lemma FlattenedLeaf(v: Json, at: Path, before: map<string, Json>)
    requires !v.Object? && at != []
    ensures Flattened(v, at, before, before[Join(at) := v])
  {
    var after := before[Join(at) := v];
    forall p | LeafAt(v, p)
      ensures p == [] && at + p == at
    {
    }
    forall key | !KeyOf(v, at, key)
      ensures Get(after, key) == Get(before, key)
    {
      assert LeafAt(v, []) && at + [] == at;
    }
  }

  // ---------- flattening trees with any keys ----------

  /** The key under which the source stores the leaf at `p` of a tree whose own key is `prefix`. */
  function DotKey(prefix: string, p: Path): string
    decreases |p|
  {
    if p == [] then prefix else DotKey(if prefix == "" then p[0] else prefix + "." + p[0], p[1..])
  }

  predicate LeafWithKey(j: Json, prefix: string, p: Path, key: string) {
    LeafAt(j, p) && DotKey(prefix, p) == key
  }

  /** An entry holds one of the leaves that have its key, or what was there if there are none; leaves
      below the fields `todo` do not count yet. */
  ghost predicate Entry(j: Json, prefix: string, todo: set<string>, key: string, was: Option<Json>, now: Option<Json>) {
    || (exists p :: LeafWithKey(j, prefix, p, key) && At(j, p) == now && (p == [] || p[0] !in todo))
    || (now == was && forall p :: LeafWithKey(j, prefix, p, key) ==> p != [] && p[0] in todo)
  }

  ghost predicate Stored(j: Json, prefix: string, todo: set<string>, before: map<string, Json>, now: map<string, Json>) {
    forall key :: Entry(j, prefix, todo, key, Get(before, key), Get(now, key))
  }

  lemma StoreLeaf(v: Json, prefix: string, before: map<string, Json>)
    requires !v.Object?
    ensures Stored(v, prefix, {}, before, before[prefix := v])
  {
    forall key
      ensures Entry(v, prefix, {}, key, Get(before, key), Get(before[prefix := v], key))
    {
      assert LeafWithKey(v, prefix, [], key) <==> key == prefix;
      assert forall p :: LeafWithKey(v, prefix, p, key) ==> p == [];
    }
  }

  lemma StoreNothing(j: Json, prefix: string, before: map<string, Json>)
    requires j.Object?
    ensures Stored(j, prefix, j.fields.Keys, before, before)
  {
    forall key
      ensures Entry(j, prefix, j.fields.Keys, key, Get(before, key), Get(before, key))
    {
    }
  }

  lemma KeyBelow(j: Json, prefix: string, k: string, p: Path, key: string)
    requires j.Object? && k in j.fields
    ensures LeafWithKey(j, prefix, [k] + p, key) <==>
            LeafWithKey(j.fields[k], if prefix == "" then k else prefix + "." + k, p, key)
  {
    LeafBelow(j, k, p);
    assert ([k] + p)[1..] == p;
  }

  lemma StoreEntry(j: Json, prefix: string, todo: set<string>, k: string, path: string, key: string,
                   was: Option<Json>, now: Option<Json>, later: Option<Json>)
    requires j.Object? && k in j.fields && k in todo && path == if prefix == "" then k else prefix + "." + k
    requires Entry(j, prefix, todo, key, was, now) && Entry(j.fields[k], path, {}, key, now, later)
    ensures Entry(j, prefix, todo - {k}, key, was, later)
  {
    hide At;
    if q :| LeafWithKey(j.fields[k], path, q, key) && At(j.fields[k], q) == later {
      KeyBelow(j, prefix, k, q, key);
      LeafBelow(j, k, q);
      assert ([k] + q)[0] == k;
    } else {
      hide LeafWithKey;
      forall p | LeafWithKey(j, prefix, p, key) && p != []
        ensures p[0] != k
      {
        if p[0] == k {
          assert p == [k] + p[1..];
          KeyBelow(j, prefix, k, p[1..], key);
        }
      }
    }
  }

  lemma StoreOneMore(j: Json, prefix: string, todo: set<string>, k: string, path: string,
                     before: map<string, Json>, now: map<string, Json>, after: map<string, Json>)
    requires j.Object? && k in j.fields && k in todo && path == if prefix == "" then k else prefix + "." + k
    requires Stored(j, prefix, todo, before, now) && Stored(j.fields[k], path, {}, now, after)
    ensures Stored(j, prefix, todo - {k}, before, after)
  {
    hide Entry;
    forall key
      ensures Entry(j, prefix, todo - {k}, key, Get(before, key), Get(after, key))
    {
      StoreEntry(j, prefix, todo, k, path, key, Get(before, key), Get(now, key), Get(after, key));
    }
  }

  /** `collect_settings_json`: `prefix` is the dotted path of `value`. Every leaf's key gets a leaf with
      that key and no other entry changes; for trees whose keys are not empty and have no dots, exactly
      the leaves are stored, each at its own dotted path. */
  method CollectSettingsJson(value: Json, prefix: string, ghost at: Path, results: map<string, Json>)
    returns (r: map<string, Json>)
    requires if at == [] then prefix == "" && value.Object? else prefix == Join(at)
    ensures GoodTree(value) && (at == [] || GoodPath(at)) ==> Flattened(value, at, results, r)
    ensures Stored(value, prefix, {}, results, r)
    decreases value
  {
    hide Stored;
    if !value.Object? {
      FlattenedLeaf(value, at, results);
      StoreLeaf(value, prefix, results);
      return results[prefix := value];
    }
    ghost var good := GoodTree(value) && (at == [] || GoodPath(at));
    r := results;
    var todo := value.fields.Keys;
    StoreNothing(value, prefix, results);
    assert FlattenedBut(value, at, todo, results, r) by {
      forall p | LeafAt(value, p) && p != []
        ensures p[0] in todo
      {
      }
    }
    while todo != {}
      invariant todo <= value.fields.Keys
      invariant good ==> FlattenedBut(value, at, todo, results, r)
      invariant Stored(value, prefix, todo, results, r)
      decreases todo
    {
      var k :| k in todo;
      var path := if prefix == "" then k else prefix + "." + k;
      r := CollectField(value, prefix, at, k, path, todo, results, r);
      todo := todo - {k};
    }
    if good {
      FlattenedAll(value, at, results, r);
    }
  }

  /** One round of its loop. */
  method CollectField(value: Json, prefix: string, ghost at: Path, k: string, path: string, ghost todo: set<string>,
                      ghost before: map<string, Json>, now: map<string, Json>)
    returns (after: map<string, Json>)
    requires value.Object? && k in value.fields && k in todo
    requires if at == [] then prefix == "" else prefix == Join(at)
    requires path == if prefix == "" then k else prefix + "." + k
    requires Stored(value, prefix, todo, before, now)
    ensures Stored(value, prefix, todo - {k}, before, after)
    ensures GoodTree(value) && (at == [] || GoodPath(at)) && FlattenedBut(value, at, todo, before, now) ==>
      FlattenedBut(value, at, todo - {k}, before, after)
    decreases value, 0
  {
    ghost var good := GoodTree(value) && (at == [] || GoodPath(at));
    ghost var below := if path == Join(at + [k]) then at + [k] else [path];
    hide Stored;
    after := CollectSettingsJson(value.fields[k], path, below, now);
    StoreOneMore(value, prefix, todo, k, path, before, now, after);
    if good && FlattenedBut(value, at, todo, before, now) {
      PathOfField(at, prefix, k);
      FlattenOneMore(value, at, todo, k, before, now, after);
    }
  }

  lemma PathOfField(at: Path, prefix: string, k: string)
    requires GoodKey(k) && (at == [] || GoodPath(at))
    requires if at == [] then prefix == "" else prefix == Join(at)
    ensures Join(at + [k]) == (if prefix == "" then k else prefix + "." + k) && GoodPath(at + [k])
  {
    if at == [] {
      assert at + [k] == [k];
    } else {
      assert GoodKey(at[0]);
      assert |Join(at)| >= |at[0]|;
      JoinSnoc(at, k);
    }
  }

  const OWNER: Path := ["owner_id"]

  /** The entries of a settings tree in the database: its leaves, but for the owner. */
  ghost predicate DbMapOf(s: Json, m: map<string, Json>) {
    && (forall p :: LeafAt(s, p) && p != [] && p != OWNER ==> Get(m, Join(p)) == At(s, p))
    && (forall key :: key in m ==> exists p :: LeafAt(s, p) && p != [] && p != OWNER && key == Join(p))
  }

  lemma AllStored(s: Json, m: map<string, Json>)
    requires Stored(s, "", {}, map[], m)
    ensures forall key :: key in m ==> exists p :: LeafWithKey(s, "", p, key) && At(s, p) == Some(m[key])
    ensures forall p, key :: LeafWithKey(s, "", p, key) ==> key in m
  {
    hide LeafWithKey;
    forall key
      ensures key in m ==> exists p :: LeafWithKey(s, "", p, key) && At(s, p) == Some(m[key])
      ensures forall p :: LeafWithKey(s, "", p, key) ==> key in m
    {
      assert Entry(s, "", {}, key, Get(map[], key), Get(m, key));
      LeavesAreSome(s, key);
    }
  }

  lemma LeavesAreSome(s: Json, key: string)
    ensures forall p :: LeafWithKey(s, "", p, key) ==> At(s, p).Some?
  {
  }

  method ToDbMap(s: Json) returns (m: map<string, Json>)
    requires s.Object?
    ensures GoodTree(s) ==> DbMapOf(s, m)
    ensures "owner_id" !in m
    ensures forall key :: key in m ==> exists p :: LeafWithKey(s, "", p, key) && At(s, p) == Some(m[key])
    ensures forall p, key :: LeafWithKey(s, "", p, key) && key != "owner_id" ==> key in m
  {
    hide Stored, Flattened, DbMapOf, GoodTree, LeafWithKey;
    m := CollectSettingsJson(s, "", [], map[]);
    AllStored(s, m);
    if GoodTree(s) {
      LeavesWithoutOwner(s, m);
    }
    m := m - {"owner_id"};
  }

  lemma LeavesWithoutOwner(s: Json, all: map<string, Json>)
    requires GoodTree(s) && Flattened(s, [], map[], all)
    ensures DbMapOf(s, all - {"owner_id"})
  {
    hide At, GoodTree, LeafAt;
    var m := all - {"owner_id"};
    forall p | LeafAt(s, p) && p != [] && p != OWNER
      ensures Get(m, Join(p)) == At(s, p)
    {
      assert [] + p == p;
      LeafPathIsGood(s, p);
      assert GoodPath(OWNER) && Join(OWNER) == "owner_id";
      if Join(p) == "owner_id" {
        JoinIsInjective(p, OWNER);
      }
    }
    forall key | key in m
      ensures exists p :: LeafAt(s, p) && p != [] && p != OWNER && key == Join(p)
    {
      assert Get(all, key) != Get(map[], key);
      assert KeyOf(s, [], key);
      var p :| LeafAt(s, p) && [] + p != [] && key == Join([] + p);
      assert [] + p == p;
    }
  }

  // ---------- the round trip ----------

  lemma {:induction false} PutHere(j: Json, p: Path, v: Json)
    requires p != [] && ParentIsObject(j, p)
    ensures At(Put(j, p, v), p) == Some(v)
    decreases |p|
  {
    if |p| == 1 {
      assert Parent(p) == [] && p[1..] == [];
    } else {
      assert Parent(p)[1..] == Parent(p[1..]);
      PutHere(j.fields[p[0]], p[1..], v);
    }
  }

  /** Inserting at `p` touches neither values beside it nor which places hold objects. */
  lemma {:induction false} PutElsewhere(j: Json, p: Path, v: Json, q: Path)
    requires p != [] && ParentIsObject(j, p) && !(p <= q)
    ensures !(q <= p) ==> At(Put(j, p, v), q) == At(j, q)
    ensures q <= p ==> At(j, q).Some? && At(j, q).value.Object? && At(Put(j, p, v), q).Some? && At(Put(j, p, v), q).value.Object?
    decreases |p|
  {
    if |p| == 1 {
      assert Parent(p) == [];
      assert q != [] ==> q[0] != p[0];
    } else {
      assert Parent(p)[1..] == Parent(p[1..]);
      if q != [] && q[0] == p[0] {
        assert !(p[1..] <= q[1..]);
        assert q <= p <==> q[1..] <= p[1..];
        PutElsewhere(j.fields[p[0]], p[1..], v, q[1..]);
      }
    }
  }

  lemma {:induction false} LeavesAreIncomparable(j: Json, p: Path, q: Path)
    requires LeafAt(j, p) && At(j, q).Some? && p <= q
    ensures p == q
    decreases |p|
  {
    if p != [] {
      assert p[1..] <= q[1..];
      LeavesAreIncomparable(j.fields[p[0]], p[1..], q[1..]);
      assert p == [p[0]] + p[1..] && q == [q[0]] + q[1..];
    }
  }

  /** Setting one leaf leaves the slot of another as it was. */
  lemma SetBeside(c: Codec, j: Json, s: Json, p: Path, text: string, q: Path)
    requires p != [] && q != [] && p != q && LeafAt(s, p) && LeafAt(s, q)
    ensures var r := SetPath(c, j, p, text);
            r.Ok? ==> At(r.value, q) == At(j, q) && (ParentIsObject(r.value, q) <==> ParentIsObject(j, q))
  {
    var r := SetPath(c, j, p, text);
    if r.Ok? {
      var v := Infer(c, At(j, p), text).value;
      if p <= q {
        LeavesAreIncomparable(s, p, q);
      } else if q <= p {
        LeavesAreIncomparable(s, q, p);
      }
      PutElsewhere(j, p, v, q);
      assert !(p <= Parent(q));
      PutElsewhere(j, p, v, Parent(q));
    }
  }

  /** What the round trip makes of leaf `v` at `p`. */
  function Outcome(c: Codec, d: Json, p: Path, v: Json): Option<Json>
    requires p != []
  {
    if v.Null? || !ParentIsObject(d, p) then At(d, p)
    else
      var w := Infer(c, At(d, p), Text(c, v));
      if w.Ok? && c.accepts(p, w.value) then Some(w.value) else At(d, p)
  }

  lemma SetHere(c: Codec, j: Json, d: Json, p: Path, v: Json)
    requires GoodPath(p) && p != OWNER
    requires At(j, p) == At(d, p) && (ParentIsObject(j, p) <==> ParentIsObject(d, p))
    ensures At(ApplyEntry(c, j, Join(p), v), p) == Outcome(c, d, p, v)
  {
    SplitJoin(p);
    assert GoodPath(OWNER) && Join(OWNER) == "owner_id";
    if Join(p) == "owner_id" {
      JoinIsInjective(p, OWNER);
    }
    var r := SetPath(c, j, p, Text(c, v));
    if r.Ok? {
      PutHere(j, p, Infer(c, At(j, p), Text(c, v)).value);
    }
  }

  ghost predicate Untouched(j: Json, d: Json, p: Path)
    requires p != []
  {
    At(j, p) == At(d, p) && (ParentIsObject(j, p) <==> ParentIsObject(d, p))
  }

  lemma {:induction false} ApplyAllAt(c: Codec, s: Json, d: Json, m: map<string, Json>, keys: seq<string>, p: Path)
    requires s.Object? && GoodTree(s) && DbMapOf(s, m) && NoRepeats(keys)
    requires forall i :: 0 <= i < |keys| ==> keys[i] in m
    requires LeafAt(s, p) && p != [] && p != OWNER
    ensures Join(p) in keys ==> At(ApplyAll(c, d, keys, m), p) == Outcome(c, d, p, At(s, p).value)
    ensures Join(p) !in keys ==> Untouched(ApplyAll(c, d, keys, m), d, p)
    decreases |keys|
  {
    if keys != [] {
      var n := |keys| - 1;
      var j := ApplyAll(c, d, keys[..n], m);
      ApplyAllAt(c, s, d, m, keys[..n], p);
      var q :| LeafAt(s, q) && q != [] && q != OWNER && keys[n] == Join(q);
      LeafPathIsGood(s, p);
      LeafPathIsGood(s, q);
      if p == q {
        SetHere(c, j, d, p, m[keys[n]]);
      } else {
        if Join(p) == Join(q) {
          JoinIsInjective(p, q);
        }
        SplitJoin(q);
        SetBeside(c, j, s, q, Text(c, m[keys[n]]), p);
      }
    }
  }

  /** When a leaf can be set to its value: its parent object is in the defaults, the type of its slot
      reads its text back as the value, and the schema consents. */
  predicate Restorable(c: Codec, d: Json, p: Path, v: Json)
    requires p != []
  {
    !v.Null? && ParentIsObject(d, p) && Infer(c, At(d, p), Text(c, v)) == Ok(v) && c.accepts(p, v)
  }

  /** When a leaf was the default all along and setting it does not change that: a null is skipped, and
      a text that the slot or the schema refuses has no effect. */
  predicate StaysDefault(c: Codec, d: Json, p: Path, v: Json)
    requires p != []
  {
    At(d, p) == Some(v) &&
    (v.Null? || var w := Infer(c, At(d, p), Text(c, v)); w.Err? || !c.accepts(p, w.value))
  }

  /** The database round trip, in any iteration order and for any codec and schema: a leaf other than
      the owner comes back exactly when it is restorable or stays the default. */
  lemma RoundTrip(c: Codec, s: Json, d: Json, m: map<string, Json>, keys: seq<string>, p: Path)
    requires s.Object? && GoodTree(s) && DbMapOf(s, m) && Enumerates(keys, m)
    requires LeafAt(s, p) && p != [] && p != OWNER
    ensures At(ApplyAll(c, d, keys, m), p) == At(s, p) <==>
            Restorable(c, d, p, At(s, p).value) || StaysDefault(c, d, p, At(s, p).value)
  {
    assert Get(m, Join(p)) == At(s, p);
    assert Join(p) in keys;
    ApplyAllAt(c, s, d, m, keys, p);
    hide ApplyAll, Infer, DbMapOf, Enumerates;
    OutcomeIff(c, d, p, At(s, p).value);
  }

  lemma OutcomeIff(c: Codec, d: Json, p: Path, v: Json)
    requires p != []
    ensures Outcome(c, d, p, v) == Some(v) <==> Restorable(c, d, p, v) || StaysDefault(c, d, p, v)
  {
    hide Infer;
    assert p == Parent(p) + [p[|p| - 1]];
    AtSnoc(d, Parent(p), p[|p| - 1]);
  }

  /** A slot that holds a value of the same type, or none. */
  predicate Matching(c: Codec, slot: Option<Json>, v: Json) {
    match slot
    case Some(Bool(_)) => v.Bool?
    case Some(Number(U64(_))) => v.Number? && v.n.U64?
    case Some(Number(I64(_))) => v.Number? && v.n.I64?
    case Some(Number(F64(_))) => v.Number? && v.n.F64?
    case Some(Str(_)) => v.Str?
    case Some(Array(_)) => v.Array?
    case Some(Object(_)) => v.Array?
    case _ => !v.Object? && !v.Null? && (v.Str? ==> c.parse(v.s).None?)
  }

  /** A matching slot reads the stored text back as the value; in particular a string over a null or
      missing slot must not be JSON text itself. */
  lemma MatchingSlotReadsBack(c: Codec, slot: Option<Json>, v: Json)
    requires FaithfulAt(c, v) && Matching(c, slot, v)
    ensures Infer(c, slot, Text(c, v)) == Ok(v)
  {
  }

  /** So a leaf comes back when its parent object is in the defaults, its slot matches and the schema
      accepts it. */
  lemma MatchingLeafComesBack(c: Codec, s: Json, d: Json, m: map<string, Json>, keys: seq<string>, p: Path)
    requires s.Object? && GoodTree(s) && DbMapOf(s, m) && Enumerates(keys, m)
    requires LeafAt(s, p) && p != [] && p != OWNER
    requires var v := At(s, p).value;
             !v.Null? && FaithfulAt(c, v) && Matching(c, At(d, p), v) && c.accepts(p, v) && ParentIsObject(d, p)
    ensures At(ApplyAll(c, d, keys, m), p) == At(s, p)
  {
    hide ApplyAll, Infer, DbMapOf, Enumerates, Matching, FaithfulAt;
    MatchingSlotReadsBack(c, At(d, p), At(s, p).value);
    RoundTrip(c, s, d, m, keys, p);
  }

  /** A string over a null slot whose text is JSON comes back as something else, whatever the defaults
      hold elsewhere. */
  lemma JsonTextOverNullIsLost(c: Codec, s: Json, d: Json, m: map<string, Json>, keys: seq<string>, p: Path)
    requires s.Object? && GoodTree(s) && DbMapOf(s, m) && Enumerates(keys, m)
    requires LeafAt(s, p) && p != [] && p != OWNER && At(s, p).value.Str? && At(d, p) == Some(Null)
    requires c.parse(At(s, p).value.s).Some? && !c.parse(At(s, p).value.s).value.Str?
    ensures At(ApplyAll(c, d, keys, m), p) != At(s, p)
  {
    hide ApplyAll, DbMapOf, Enumerates;
    RoundTrip(c, s, d, m, keys, p);
  }

  /** The owner keeps its default, whatever was stored. */
  lemma {:induction false} OwnerIsNotRestored(c: Codec, s: Json, d: Json, m: map<string, Json>, keys: seq<string>)
    requires s.Object? && GoodTree(s) && DbMapOf(s, m) && LeafAt(s, OWNER)
    requires forall i :: 0 <= i < |keys| ==> keys[i] in m
    ensures At(ApplyAll(c, d, keys, m), OWNER) == At(d, OWNER)
    decreases |keys|
  {
    if keys != [] {
      var n := |keys| - 1;
      OwnerIsNotRestored(c, s, d, m, keys[..n]);
      assert keys[n] in m;
      var q :| LeafAt(s, q) && q != [] && q != OWNER && keys[n] == Join(q);
      LeafPathIsGood(s, q);
      SplitJoin(q);
      SetBeside(c, ApplyAll(c, d, keys[..n], m), s, q, Text(c, m[keys[n]]), OWNER);
    }
  }

  /** Entries of a map of structs, whose default is the empty map, never come back: their parent is
      not in the defaults, and setting does not create parents. */
  lemma NestedMapEntryIsLost(c: Codec, s: Json, d: Json, m: map<string, Json>, keys: seq<string>, a: string, b: string, f: string)
    requires s.Object? && GoodTree(s) && DbMapOf(s, m) && Enumerates(keys, m)
    requires LeafAt(s, [a, b, f]) && At(s, [a, b, f]) != Some(Null)
    requires At(d, [a]) == Some(Object(map[]))
    ensures At(ApplyAll(c, d, keys, m), [a, b, f]) != At(s, [a, b, f])
  {
    var p := [a, b, f];
    assert Parent(p) == [a] + [b];
    AtSnoc(d, [a], b);
    assert p == Parent(p) + [f];
    AtSnoc(d, Parent(p), f);
    RoundTrip(c, s, d, m, keys, p);
  }

  // ---------- what is refused ----------

  /** A typed slot takes exactly the texts of its type; a null, missing or string slot takes every text. */
  lemma RefusedTexts(c: Codec, slot: Json, text: string)
    ensures slot.Bool? ==>
      (Infer(c, Some(slot), text) == Ok(Bool(true)) <==> text == "true") &&
      (Infer(c, Some(slot), text) == Ok(Bool(false)) <==> text == "false") &&
      (Infer(c, Some(slot), text).Err? <==> text != "true" && text != "false")
    ensures slot.Number? && slot.n.U64? ==>
      (Infer(c, Some(slot), text).Err? <==> c.parseU64(text).None?) &&
      (c.parseU64(text).Some? ==> Infer(c, Some(slot), text) == Ok(Number(U64(c.parseU64(text).value))))
    ensures slot.Number? && slot.n.I64? ==>
      (Infer(c, Some(slot), text).Err? <==> c.parseI64(text).None?) &&
      (c.parseI64(text).Some? ==> Infer(c, Some(slot), text) == Ok(Number(I64(c.parseI64(text).value))))
    ensures slot.Number? && slot.n.F64? ==>
      (Infer(c, Some(slot), text).Err? <==> c.parseF64(text).None?) &&
      (c.parseF64(text) == Some(NotFinite) ==> Infer(c, Some(slot), text) == Ok(Str(text)))
    ensures slot.Array? || slot.Object? ==> (Infer(c, Some(slot), text).Err? <==> c.parse(text).None?)
    ensures slot.Str? ==> Infer(c, Some(slot), text) == Ok(Str(text))
    ensures slot.Null? && c.parse(text).None? ==> Infer(c, Some(slot), text) == Ok(Str(text))
    ensures Infer(c, None, text) == Infer(c, Some(Null), text)
  {
  }

  /** Setting fails, and changes nothing, exactly if the parent is missing or no object, or the slot or the
      schema refuses the text. */
  lemma SetFailsIff(c: Codec, j: Json, p: Path, text: string)
    requires p != []
    ensures SetPath(c, j, p, text) == Err("Path not found") <==> At(j, Parent(p)).None?
    ensures SetPath(c, j, p, text).Ok? <==>
            ParentIsObject(j, p) && Infer(c, At(j, p), text).Ok? && c.accepts(p, Infer(c, At(j, p), text).value)
    ensures SetPath(c, j, p, text).Ok? ==> At(SetPath(c, j, p, text).value, p) == Some(Infer(c, At(j, p), text).value)
  {
    if SetPath(c, j, p, text).Ok? {
      PutHere(j, p, Infer(c, At(j, p), text).value);
    }
  }
}
