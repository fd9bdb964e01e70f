/** Path resolution (`getObjectIdPaths`, `getDatePaths`): the access paths at
    which a schema tree has a node of one extended kind. */
module Resolver {
  import opened Wrappers
  import opened SchemaTree
  import opened Compiler

  /** The extended kind a resolver looks for. */
  datatype ExtendedKind = IdKind | DateKind

  predicate IsKind(n: Node, k: ExtendedKind) {
    match k
    case IdKind => n.kind.ObjectId?
    case DateKind => n.kind.Date?
  }

  /** The paths, relative to `n`, at which kind `k` occurs, with the properties
      of an object in their declared order and one `Wildcard` per array level.
      An object without `properties`, an array without `items`, a union and any
      other kind contribute nothing. */
  function Paths(n: Node, k: ExtendedKind): seq<Path> {
    match n.kind
    case Object(Declared(es)) =>
      Concat(seq(|es|, i requires 0 <= i < |es| => Prepend([es[i].name], Paths(es[i].schema, k))))
    case Array(Some(items)) => Prepend([Wildcard], Paths(items, k))
    case _ => if IsKind(n, k) then [[]] else []
  }

  /** Soundness: every resolved path leads to a node of the sought kind. */
  lemma {:induction false} PathsSound(n: Node, k: ExtendedKind, p: Path)
    requires UniqueKeys(n)
    requires p in Paths(n, k)
    ensures SubAt(n, p).Some? && IsKind(SubAt(n, p).value, k)
    decreases n, 1
  {
    match n.kind
    case Object(Declared(es)) =>
      SoundInObject(n, es, k, p);
    case Array(Some(items)) =>
      var j :| 0 <= j < |Paths(items, k)| && p == [Wildcard] + Paths(items, k)[j];
      assert p[1..] == Paths(items, k)[j];
      PathsSound(items, k, p[1..]);
    case _ =>
  }

  lemma {:induction false} SoundInObject(n: Node, es: seq<Property>, k: ExtendedKind, p: Path)
    requires n.kind == Object(Declared(es)) && UniqueKeys(n)
    requires p in Paths(n, k)
    ensures SubAt(n, p).Some? && IsKind(SubAt(n, p).value, k)
    decreases n, 0
  {
    var parts := seq(|es|, i requires 0 <= i < |es| => Prepend([es[i].name], Paths(es[i].schema, k)));
    assert Paths(n, k) == Concat(parts);
    ConcatMember(parts, p);
    var i :| 0 <= i < |parts| && p in parts[i];
    var j :| 0 <= j < |Paths(es[i].schema, k)| && p == [es[i].name] + Paths(es[i].schema, k)[j];
    var q := Paths(es[i].schema, k)[j];
    assert p[0] == es[i].name && p[1..] == q;
    assert FindProperty(es, p[0]) == Some(i) by {
      var f := FindProperty(es, p[0]);
      assert f.Some?;
      assert es[f.value].name == es[i].name;
    }
    assert SubAt(n, p) == SubAt(es[i].schema, q);
    assert UniqueKeys(es[i].schema);
    PathsSound(es[i].schema, k, q);
  }

  /** Completeness: every path that leads to a node of the sought kind is resolved. */
  lemma {:induction false} PathsComplete(n: Node, k: ExtendedKind, p: Path)
    requires SubAt(n, p).Some? && IsKind(SubAt(n, p).value, k)
    ensures p in Paths(n, k)
    decreases |p|, 1
  {
    if p == [] {
      match n.kind
      case Object(_) =>
      case Array(_) =>
      case _ =>
    } else {
      match n.kind
      case Object(Declared(es)) =>
        CompleteInObject(n, es, k, p);
      case Array(Some(items)) =>
        PathsComplete(items, k, p[1..]);
        assert p == [Wildcard] + p[1..];
    }
  }

  lemma {:induction false} CompleteInObject(n: Node, es: seq<Property>, k: ExtendedKind, p: Path)
    requires n.kind == Object(Declared(es)) && p != []
    requires SubAt(n, p).Some? && IsKind(SubAt(n, p).value, k)
    ensures p in Paths(n, k)
    decreases |p|, 0
  {
    var i := FindProperty(es, p[0]).value;
    assert SubAt(n, p) == SubAt(es[i].schema, p[1..]);
    PathsComplete(es[i].schema, k, p[1..]);
    var parts := seq(|es|, i requires 0 <= i < |es| => Prepend([es[i].name], Paths(es[i].schema, k)));
    assert p == [es[i].name] + p[1..];
    assert p in parts[i];
    ConcatMember(parts, p);
    assert Paths(n, k) == Concat(parts);
  }

  /** Together: `p` is resolved exactly when it leads to a node of kind `k`. */
  lemma PathsExact(n: Node, k: ExtendedKind, p: Path)
    requires UniqueKeys(n)
    ensures p in Paths(n, k) <==> SubAt(n, p).Some? && IsKind(SubAt(n, p).value, k)
  {
    if p in Paths(n, k) { PathsSound(n, k, p); }
    if SubAt(n, p).Some? && IsKind(SubAt(n, p).value, k) { PathsComplete(n, k, p); }
  }

  /** A tree with no node of kind `k` yields no paths, and conversely. */
  lemma {:induction false} PathsEmpty(n: Node, k: ExtendedKind)
    ensures Paths(n, k) == [] <==> !Occurs(n, k)
  {
    match n.kind
    case Object(Declared(es)) =>
      var parts := seq(|es|, i requires 0 <= i < |es| => Prepend([es[i].name], Paths(es[i].schema, k)));
      ConcatEmpty(parts);
      forall i | 0 <= i < |es| ensures parts[i] == [] <==> !Occurs(es[i].schema, k) {
        PathsEmpty(es[i].schema, k);
      }
    case Array(Some(items)) =>
      PathsEmpty(items, k);
    case _ =>
  }

  /** Kind `k` occurs somewhere in the tree below object properties and array items. */
  predicate Occurs(n: Node, k: ExtendedKind) {
    IsKind(n, k) ||
    match n.kind
    case Object(Declared(es)) => exists i :: 0 <= i < |es| && Occurs(es[i].schema, k)
    case Array(Some(items)) => Occurs(items, k)
    case _ => false
  }

  // ---------------------------------------------------------------------------
  // The resolver as written. When the root-level 'array' case meets an array
  // without `items`, `schema.items` is undefined and the `!schema` default
  // restarts the walk from the root schema with the longer prefix. `fuel` bounds
  // the depth of the JavaScript call stack: None means the budget ran out.

  function ResolveAsWritten(root: Node, prefix: Path, schema: Option<Node>, k: ExtendedKind, fuel: nat): (r: Option<seq<Path>>)
    ensures r.Some? ==> forall i :: 0 <= i < |r.value| ==> prefix <= r.value[i]
    decreases fuel, 1
  {
    if fuel == 0 then None
    else
      var n := if schema.None? then root else schema.value;
      match n.kind
      case Object(Declared(es)) => PropertiesAsWritten(root, prefix, es, k, fuel)
      case Object(Unspecified) => Some([])
      case Array(items) =>
        var r := ResolveAsWritten(root, prefix + [Wildcard], items, k, fuel - 1);
        PrefixesExtend(prefix, [Wildcard], r);
        r
      case _ => if IsKind(n, k) then Some([prefix]) else Some([])
  }

  /** The `_.each` over the properties of an object node, as written. */
  function PropertiesAsWritten(root: Node, prefix: Path, es: seq<Property>, k: ExtendedKind, fuel: nat): (r: Option<seq<Path>>)
    requires fuel >= 1
    ensures r.Some? ==> forall i :: 0 <= i < |r.value| ==> prefix <= r.value[i]
    decreases fuel, 0, |es|
  {
    if es == [] then Some([])
    else
      var rest := PropertiesAsWritten(root, prefix, es[..|es| - 1], k, fuel);
      var here := PropertyAsWritten(root, prefix, es[|es| - 1], k, fuel);
      if rest.Some? && here.Some? then
        var r := rest.value + here.value;
        assert forall i :: 0 <= i < |here.value| ==> r[|rest.value| + i] == here.value[i];
        Some(r)
      else None
  }

  /** The `switch` on one property's type, as written. */
  function PropertyAsWritten(root: Node, prefix: Path, e: Property, k: ExtendedKind, fuel: nat): (r: Option<seq<Path>>)
    requires fuel >= 1
    ensures r.Some? ==> forall i :: 0 <= i < |r.value| ==> prefix <= r.value[i]
    decreases fuel, 0, 0
  {
    match e.schema.kind
    case Object(_) =>
      var r := ResolveAsWritten(root, prefix + [e.name], Some(e.schema), k, fuel - 1);
      PrefixesExtend(prefix, [e.name], r);
      r
    case Array(items) =>
      if items.None? then Some([])
      else
        var r := ResolveAsWritten(root, prefix + [e.name, Wildcard], items, k, fuel - 1);
        PrefixesExtend(prefix, [e.name, Wildcard], r);
        r
    case _ => if IsKind(e.schema, k) then Some([prefix + [e.name]]) else Some([])
  }

  /** Paths that extend `prefix + more` extend `prefix`. */
  lemma PrefixesExtend(prefix: Path, more: Path, r: Option<seq<Path>>)
    requires r.Some? ==> forall i :: 0 <= i < |r.value| ==> prefix + more <= r.value[i]
    ensures r.Some? ==> forall i :: 0 <= i < |r.value| ==> prefix <= r.value[i]
  {
    if r.Some? {
      forall i | 0 <= i < |r.value| ensures prefix <= r.value[i] {
        assert r.value[i][..|prefix|] == (prefix + more)[..|prefix|];
      }
    }
  }

  /** The trees on which the resolver as written never restarts from the root:
      every array it meets through the root-level `'array'` case has `items`. A
      property that is an array without `items` is skipped by the loop. */
  predicate Closed(n: Node) {
    match n.kind
    case Object(Declared(es)) => forall i :: 0 <= i < |es| ==> es[i].schema.kind == Array(None) || Closed(es[i].schema)
    case Array(items) => items.Some? && Closed(items.value)
    case _ => true
  }

  /** Where it returns on such a tree, the resolver as written gives the paths
      of the corrected one. */
  lemma {:induction false} AsWrittenAgrees(root: Node, prefix: Path, n: Node, k: ExtendedKind, fuel: nat)
    requires Closed(n)
    requires ResolveAsWritten(root, prefix, Some(n), k, fuel).Some?
    ensures ResolveAsWritten(root, prefix, Some(n), k, fuel).value == Prepend(prefix, Paths(n, k))
    decreases fuel, 1
  {
    if n.kind.Object? {
      if n.kind.properties.Declared? {
        PropertiesAgree(root, prefix, n, n.kind.properties.entries, k, fuel);
        assert n.(kind := Object(Declared(n.kind.properties.entries))) == n;
      }
    } else if n.kind.Array? {
      var items := n.kind.items.value;
      AsWrittenAgrees(root, prefix + [Wildcard], items, k, fuel - 1);
      PrependPrepend(prefix, [Wildcard], Paths(items, k));
    } else if IsKind(n, k) {
      Prepend1(prefix, []);
      assert prefix + [] == prefix;
    }
  }

  lemma {:induction false} PropertiesAgree(root: Node, prefix: Path, n: Node, es: seq<Property>, k: ExtendedKind, fuel: nat)
    requires fuel >= 1
    requires forall i :: 0 <= i < |es| ==> es[i].schema.kind == Array(None) || Closed(es[i].schema)
    requires PropertiesAsWritten(root, prefix, es, k, fuel).Some?
    ensures PropertiesAsWritten(root, prefix, es, k, fuel).value == Prepend(prefix, Paths(n.(kind := Object(Declared(es))), k))
    decreases fuel, 0, |es|
  {
    if es != [] {
      var init := es[..|es| - 1];
      var e := es[|es| - 1];
      var rest := PropertiesAsWritten(root, prefix, init, k, fuel);
      var here := PropertyAsWritten(root, prefix, e, k, fuel);
      PropertiesStep(root, prefix, es, k, fuel);
      assert rest.value == Prepend(prefix, Paths(n.(kind := Object(Declared(init))), k)) by {
        assert forall i :: 0 <= i < |init| ==> init[i] == es[i];
        PropertiesAgree(root, prefix, n, init, k, fuel);
      }
      assert here.value == Prepend(prefix, PropertyPaths(e, k)) by {
        PropertyAgrees(root, prefix, e, k, fuel);
      }
      PrefixedSnoc(prefix, n, es, k);
    }
  }

  /** A loop that returns has returned for the earlier properties and the last. */
  lemma PropertiesStep(root: Node, prefix: Path, es: seq<Property>, k: ExtendedKind, fuel: nat)
    requires fuel >= 1 && es != []
    requires PropertiesAsWritten(root, prefix, es, k, fuel).Some?
    ensures PropertiesAsWritten(root, prefix, es[..|es| - 1], k, fuel).Some?
    ensures PropertyAsWritten(root, prefix, es[|es| - 1], k, fuel).Some?
    ensures PropertiesAsWritten(root, prefix, es, k, fuel).value ==
      PropertiesAsWritten(root, prefix, es[..|es| - 1], k, fuel).value + PropertyAsWritten(root, prefix, es[|es| - 1], k, fuel).value
  {
  }

  /** Below `prefix`, a property added at the end adds its paths at the end. */
  lemma PrefixedSnoc(prefix: Path, n: Node, es: seq<Property>, k: ExtendedKind)
    requires es != []
    ensures Prepend(prefix, Paths(n.(kind := Object(Declared(es))), k)) ==
            Prepend(prefix, Paths(n.(kind := Object(Declared(es[..|es| - 1]))), k)) + Prepend(prefix, PropertyPaths(es[|es| - 1], k))
  {
    var init := es[..|es| - 1];
    var e := es[|es| - 1];
    var before := Paths(n.(kind := Object(Declared(init))), k);
    calc {
      Prepend(prefix, Paths(n.(kind := Object(Declared(es))), k));
    == { assert init + [e] == es; }
      Prepend(prefix, Paths(n.(kind := Object(Declared(init + [e]))), k));
    == { ObjectPathsSnoc(n, init, e, k); }
      Prepend(prefix, before + PropertyPaths(e, k));
    == { PrependConcat(prefix, before, PropertyPaths(e, k)); }
      Prepend(prefix, before) + Prepend(prefix, PropertyPaths(e, k));
    }
  }

  lemma {:induction false} PropertyAgrees(root: Node, prefix: Path, e: Property, k: ExtendedKind, fuel: nat)
    requires fuel >= 1
    requires e.schema.kind == Array(None) || Closed(e.schema)
    requires PropertyAsWritten(root, prefix, e, k, fuel).Some?
    ensures PropertyAsWritten(root, prefix, e, k, fuel).value == Prepend(prefix, PropertyPaths(e, k))
    decreases fuel, 0, 0
  {
    var kind := e.schema.kind;
    if kind.Object? {
      AsWrittenAgrees(root, prefix + [e.name], e.schema, k, fuel - 1);
      PrependPrepend(prefix, [e.name], Paths(e.schema, k));
    } else if kind.Array? {
      if kind.items.Some? {
        AsWrittenAgrees(root, prefix + [e.name, Wildcard], kind.items.value, k, fuel - 1);
        assert prefix + [e.name, Wildcard] == prefix + [e.name] + [Wildcard];
        PrependPrepend(prefix + [e.name], [Wildcard], Paths(kind.items.value, k));
        PrependPrepend(prefix, [e.name], Paths(e.schema, k));
      }
    } else if IsKind(e.schema, k) {
      Prepend1([e.name], []);
      Prepend1(prefix, [e.name]);
      assert [e.name] + [] == [e.name];
    }
  }

  /** `{arr: {type: 'array', items: {type: 'array'}}}` wrapped by the constructor. */
  const NestedBareArray: Node :=
    Node(Object(Declared([
      Property("arr", Plain(Array(Some(Plain(Array(None)))))),
      Property("_id", Plain(ObjectId))])), None, Some(false), None)

  /** As written, resolving either kind on that schema never returns, whatever
      the stack budget: each pass over `arr` starts the walk over from the root. */
  lemma {:induction false} NestedBareArrayDiverges(k: ExtendedKind, prefix: Path, fuel: nat)
    ensures ResolveAsWritten(NestedBareArray, prefix, None, k, fuel).None?
    decreases fuel
  {
    if fuel >= 1 {
      var es := NestedBareArray.kind.properties.entries;
      var inner := es[0].schema.kind.items;
      var q := prefix + ["arr", Wildcard];
      if fuel >= 2 {
        NestedBareArrayDiverges(k, q + [Wildcard], fuel - 2);
      }
      assert ResolveAsWritten(NestedBareArray, q, inner, k, fuel - 1).None?;
      assert es[..1] == [es[0]];
      assert es[..1][..0] == [];
      assert PropertiesAsWritten(NestedBareArray, prefix, es[..1], k, fuel).None?;
    }
  }

  /** The corrected resolver gives `[["_id"]]` for the same schema. */
  lemma NestedBareArrayCorrected()
    ensures Paths(NestedBareArray, IdKind) == [["_id"]]
    ensures Paths(NestedBareArray, DateKind) == []
  {
    var es := NestedBareArray.kind.properties.entries;
    var top := NestedBareArray.(kind := Object(Declared([])));
    var none: seq<Property> := [];
    assert none + [es[0]] == [es[0]];
    assert [es[0]] + [es[1]] == es;
    assert top.(kind := Object(Declared(es))) == NestedBareArray;
    ObjectPathsSnoc(top, none, es[0], IdKind);
    ObjectPathsSnoc(top, [es[0]], es[1], IdKind);
    ObjectPathsSnoc(top, none, es[0], DateKind);
    ObjectPathsSnoc(top, [es[0]], es[1], DateKind);
    assert top.(kind := Object(Declared(none))) == top;
    assert Paths(top, IdKind) == [];
    assert Paths(es[0].schema, IdKind) == [];
    assert PropertyPaths(es[0], IdKind) == [];
    var root: Path := [];
    assert Paths(es[1].schema, IdKind) == [root];
    Prepend1(["_id"], root);
    assert ["_id"] + root == ["_id"];
    assert PropertyPaths(es[1], IdKind) == [["_id"]];
  }

  /** Every path of an object node starts with the name of one of its properties
      below which the kind occurs. */
  lemma PathsHeads(n: Node, es: seq<Property>, k: ExtendedKind, p: Path)
    requires n.kind == Object(Declared(es))
    requires p in Paths(n, k)
    ensures p != [] && exists i :: 0 <= i < |es| && es[i].name == p[0] && Occurs(es[i].schema, k)
  {
    var parts := seq(|es|, i requires 0 <= i < |es| => Prepend([es[i].name], Paths(es[i].schema, k)));
    ConcatMember(parts, p);
    var i :| 0 <= i < |parts| && p in parts[i];
    var j :| 0 <= j < |Paths(es[i].schema, k)| && p == [es[i].name] + Paths(es[i].schema, k)[j];
    PathsEmpty(es[i].schema, k);
    assert p[0] == es[i].name;
  }

  lemma PathsNoProperties(n: Node, k: ExtendedKind)
    requires n.kind == Object(Unspecified)
    ensures Paths(n.(kind := Object(Declared([]))), k) == Paths(n, k) == []
  {
  }

  /** In a tree whose objects have unique property names, no resolved path is a
      prefix of another. */
  lemma {:induction false} PathsIndependent(n: Node, k: ExtendedKind)
    requires UniqueKeys(n)
    ensures Independent(Paths(n, k))
  {
    match n.kind
    case Object(Declared(es)) =>
      var parts := seq(|es|, i requires 0 <= i < |es| => Prepend([es[i].name], Paths(es[i].schema, k)));
      forall a | 0 <= a < |parts| ensures Independent(parts[a]) {
        PathsIndependent(es[a].schema, k);
        PrependIndependent([es[a].name], Paths(es[a].schema, k));
      }
      forall a, b, x, y | 0 <= a < |parts| && 0 <= b < |parts| && a != b && x in parts[a] && y in parts[b]
        ensures Diverge(x, y)
      {
        var l :| 0 <= l < |Paths(es[a].schema, k)| && x == [es[a].name] + Paths(es[a].schema, k)[l];
        var m :| 0 <= m < |Paths(es[b].schema, k)| && y == [es[b].name] + Paths(es[b].schema, k)[m];
        assert es[a].name != es[b].name by {
          if a < b { assert es[a].name != es[b].name; } else { assert es[b].name != es[a].name; }
        }
        DivergeHeads(es[a].name, es[b].name, Paths(es[a].schema, k)[l], Paths(es[b].schema, k)[m]);
      }
      ConcatIndependent(parts);
    case Array(Some(items)) =>
      PathsIndependent(items, k);
      PrependIndependent([Wildcard], Paths(items, k));
    case _ =>
  }

  /** The paths one property contributes to its object. */
  function PropertyPaths(e: Property, k: ExtendedKind): seq<Path> {
    Prepend([e.name], Paths(e.schema, k))
  }

  lemma Prepend1(prefix: Path, p: Path)
    ensures Prepend(prefix, [p]) == [prefix + p]
  {
  }

  /** Adding a property at the end of an object's properties adds its paths at the end. */
  lemma ObjectPathsSnoc(n: Node, es: seq<Property>, e: Property, k: ExtendedKind)
    ensures Paths(n.(kind := Object(Declared(es + [e]))), k) ==
            Paths(n.(kind := Object(Declared(es))), k) + PropertyPaths(e, k)
  {
    var es' := es + [e];
    var parts' := seq(|es'|, i requires 0 <= i < |es'| => Prepend([es'[i].name], Paths(es'[i].schema, k)));
    var parts := seq(|es|, i requires 0 <= i < |es| => Prepend([es[i].name], Paths(es[i].schema, k)));
    assert parts'[..|es|] == parts;
  }

  /** A property whose schema has no children is a path of its own exactly when
      it has the kind looked for. */
  lemma LeafPropertyPaths(e: Property, k: ExtendedKind)
    requires !e.schema.kind.Object? && !e.schema.kind.Array?
    ensures PropertyPaths(e, k) == if IsKind(e.schema, k) then [[e.name]] else []
  {
    var here: Path := [];
    Prepend1([e.name], here);
    assert [e.name] + here == [e.name];
  }

  /** An array property whose items have no children yields `[name, '*']` exactly
      when the items have the kind looked for. */
  lemma ArrayPropertyPaths(e: Property, items: Node, k: ExtendedKind)
    requires e.schema.kind == Array(Some(items))
    requires !items.kind.Object? && !items.kind.Array?
    ensures PropertyPaths(e, k) == if IsKind(items, k) then [[e.name, Wildcard]] else []
  {
    if IsKind(items, k) {
      var here: Path := [];
      assert Paths(items, k) == [here];
      Prepend1([Wildcard], here);
      assert [Wildcard] + here == [Wildcard];
      assert Paths(e.schema, k) == [[Wildcard]];
      Prepend1([e.name], [Wildcard]);
      assert [e.name] + [Wildcard] == [e.name, Wildcard];
    } else {
      assert Paths(items, k) == [];
      assert Paths(e.schema, k) == [];
    }
  }

  /** The schema shared by most of the repository's tests. */
  const SharedInput: seq<Property> := [
    Property("nested", Plain(Object(Declared([Property("sub", IdNode)])))),
    Property("count", Node(Primitive("number"), Some(true), None, None)),
    Property("participants", Plain(Array(Some(IdNode)))),
    Property("date", Plain(Date))
  ]

  lemma SharedNestedPaths(k: ExtendedKind)
    ensures PropertyPaths(SharedInput[0], k) == if k == IdKind then [["nested", "sub"]] else []
  {
    var sub := Property("sub", IdNode);
    var none: seq<Property> := [];
    var top := Plain(Object(Declared(none)));
    LeafPropertyPaths(sub, k);
    assert none + [sub] == [sub];
    ObjectPathsSnoc(top, none, sub, k);
    assert top.(kind := Object(Declared([sub]))) == SharedInput[0].schema;
    Prepend1(["nested"], ["sub"]);
    assert ["nested"] + ["sub"] == ["nested", "sub"];
  }

  /** The paths of a four-property object are those of its properties, in order. */
  lemma ObjectPaths4(a: Property, b: Property, c: Property, d: Property, k: ExtendedKind)
    ensures Paths(Plain(Object(Declared([a, b, c, d]))), k) ==
            PropertyPaths(a, k) + PropertyPaths(b, k) + PropertyPaths(c, k) + PropertyPaths(d, k)
  {
    var none: seq<Property> := [];
    var top := Plain(Object(Declared(none)));
    assert Paths(top, k) == [];
    var pa, pb, pc, pd := PropertyPaths(a, k), PropertyPaths(b, k), PropertyPaths(c, k), PropertyPaths(d, k);
    assert none + [a] == [a];
    ObjectPathsSnoc(top, none, a, k);
    assert Paths(Plain(Object(Declared([a]))), k) == pa;
    assert [a] + [b] == [a, b];
    ObjectPathsSnoc(top, [a], b, k);
    assert Paths(Plain(Object(Declared([a, b]))), k) == pa + pb;
    assert [a, b] + [c] == [a, b, c];
    ObjectPathsSnoc(top, [a, b], c, k);
    assert Paths(Plain(Object(Declared([a, b, c]))), k) == pa + pb + pc;
    assert [a, b, c] + [d] == [a, b, c, d];
    ObjectPathsSnoc(top, [a, b, c], d, k);
  }

  /** The paths of the shared schema's input object, before the `_id`. */
  lemma SharedInputPaths(k: ExtendedKind)
    ensures Paths(Plain(Object(Declared(SharedInput))), k) ==
      if k == IdKind then [["nested", "sub"], ["participants", Wildcard]] else [["date"]]
  {
    var es := SharedInput;
    SharedNestedPaths(k);
    LeafPropertyPaths(es[1], k);
    ArrayPropertyPaths(es[2], IdNode, k);
    LeafPropertyPaths(es[3], k);
    ObjectPaths4(es[0], es[1], es[2], es[3], k);
    assert [es[0], es[1], es[2], es[3]] == SharedInput;
  }

  /** The shared schema's objectid paths and date paths, in the expected order. */
  lemma SharedSchemaPaths()
    ensures Paths(Wrap(SharedInput, false), IdKind) == [["nested", "sub"], ["participants", Wildcard], ["_id"]]
    ensures Paths(Wrap(SharedInput, false), DateKind) == [["date"]]
  {
    assert FindProperty(SharedInput, "_id").None?;
    IdPathLast(SharedInput, false);
    SharedInputPaths(IdKind);
    SharedInputPaths(DateKind);
  }

  // ---------------------------------------------------------------------------
  // The constructor's `_id` and the resolver

  /** `["_id"]` is always among the objectid paths of a wrapped schema. */
  lemma IdPathAlways(input: seq<Property>, additionalProperties: bool)
    ensures ["_id"] in Paths(Wrap(input, additionalProperties), IdKind)
  {
    WrapShape(input, additionalProperties);
    PathsComplete(Wrap(input, additionalProperties), IdKind, ["_id"]);
  }

  /** When the input has no `_id` of its own, the injected one comes last among
      the objectid paths and adds nothing to the date paths. */
  lemma IdPathLast(input: seq<Property>, additionalProperties: bool)
    requires FindProperty(input, "_id").None?
    ensures Paths(Wrap(input, additionalProperties), IdKind) ==
            Paths(Plain(Object(Declared(input))), IdKind) + [["_id"]]
    ensures Paths(Wrap(input, additionalProperties), DateKind) ==
            Paths(Plain(Object(Declared(input))), DateKind)
  {
    var root := Wrap(input, additionalProperties);
    var e := Property("_id", IdNode);
    assert root == root.(kind := Object(Declared(input + [e])));
    ObjectPathsSnoc(root, input, e, IdKind);
    ObjectPathsSnoc(root, input, e, DateKind);
    var here: Path := [];
    assert Paths(IdNode, IdKind) == [here];
    Prepend1(["_id"], here);
    assert ["_id"] + here == ["_id"];
    assert Paths(Plain(Object(Declared(input))), IdKind) == Paths(root.(kind := Object(Declared(input))), IdKind);
    assert Paths(Plain(Object(Declared(input))), DateKind) == Paths(root.(kind := Object(Declared(input))), DateKind);
  }

  /** Wrapping keeps property names unique. */
  lemma WrapUniqueKeys(input: seq<Property>, additionalProperties: bool)
    requires UniqueKeys(Plain(Object(Declared(input))))
    ensures UniqueKeys(Wrap(input, additionalProperties))
  {
    var es := WithId(input);
    forall i, j | 0 <= i < j < |es| ensures es[i].name != es[j].name {
      match FindProperty(input, "_id")
      case None =>
        if j == |input| { assert input[i].name != "_id"; }
      case Some(x) =>
        if i == x { assert input[j].name != input[x].name; }
        if j == x { assert input[i].name != input[x].name; }
    }
    assert UniqueKeys(IdNode);
  }

  /** `_.flatten` at every array level: a schema `{arr: array of array of objectid}`
      resolves to `[["arr", "*", "*"], ["_id"]]`. */
  lemma NestedArrayOfIds()
    ensures Paths(Wrap([Property("arr", Plain(Array(Some(Plain(Array(Some(IdNode)))))))], false), IdKind) ==
            [["arr", Wildcard, Wildcard], ["_id"]]
  {
    var inner := Plain(Array(Some(IdNode)));
    var e := Property("arr", Plain(Array(Some(inner))));
    assert Paths(Plain(Object(Declared([e]))), IdKind) == [["arr", Wildcard, Wildcard]] by {
      SingleProperty(e, IdKind);
      ArrayItemsPaths(inner, IdNode, IdKind);
      assert Paths(inner, IdKind) == [[Wildcard]];
      Prepend1([Wildcard], [Wildcard]);
      assert [Wildcard] + [Wildcard] == [Wildcard, Wildcard];
      Prepend1(["arr"], [Wildcard, Wildcard]);
      assert ["arr"] + [Wildcard, Wildcard] == ["arr", Wildcard, Wildcard];
    }
    assert FindProperty([e], "_id").None?;
    IdPathLast([e], false);
  }

  /** An object with a single property has that property's paths. */
  lemma SingleProperty(e: Property, k: ExtendedKind)
    ensures Paths(Plain(Object(Declared([e]))), k) == PropertyPaths(e, k)
  {
    var none: seq<Property> := [];
    var top := Plain(Object(Declared(none)));
    assert none + [e] == [e];
    ObjectPathsSnoc(top, none, e, k);
  }

  /** An array whose items have no children yields `['*']` exactly when the items
      have the kind looked for. */
  lemma ArrayItemsPaths(n: Node, items: Node, k: ExtendedKind)
    requires n.kind == Array(Some(items))
    requires !items.kind.Object? && !items.kind.Array?
    ensures Paths(n, k) == if IsKind(items, k) then [[Wildcard]] else []
  {
    if IsKind(items, k) {
      var here: Path := [];
      assert Paths(items, k) == [here];
      Prepend1([Wildcard], here);
      assert [Wildcard] + here == [Wildcard];
    } else {
      assert Paths(items, k) == [];
    }
  }

  // ---------------------------------------------------------------------------
  // The resolver and the compiled schemas

  /** The standard schema has no objectid or date positions left ... */
  lemma StandardHasNoPaths(n: Node, k: ExtendedKind)
    ensures Paths(ToJsonSchema(n), k) == []
  {
    NoExtendedNoOccurs(ToJsonSchema(n), k);
    PathsEmpty(ToJsonSchema(n), k);
  }

  lemma {:induction false} NoExtendedNoOccurs(n: Node, k: ExtendedKind)
    requires NoExtendedKinds(n)
    ensures !Occurs(n, k)
  {
    match n.kind
    case Object(Declared(es)) =>
      forall i | 0 <= i < |es| ensures !Occurs(es[i].schema, k) {
        NoExtendedNoOccurs(es[i].schema, k);
      }
    case Array(Some(items)) => NoExtendedNoOccurs(items, k);
    case _ =>
  }

  /** ... and every objectid path of the original leads, in the standard schema,
      to a string node with the hex pattern (a date path: the timestamp pattern). */
  lemma StandardKeepsPositions(n: Node, k: ExtendedKind, p: Path)
    requires UniqueKeys(n)
    requires p in Paths(n, k)
    ensures SubAt(ToJsonSchema(n), p).Some?
    ensures var m := SubAt(ToJsonSchema(n), p).value;
      m.kind == Primitive("string") &&
      m.pattern == Some(if k == IdKind then ObjectIdPattern else DatePattern)
  {
    PathsSound(n, k, p);
    ToJsonSchemaAt(n, p);
  }

  /** Dropping `required` markers does not change what the resolver finds. */
  lemma {:induction false} PartialSamePaths(n: Node, k: ExtendedKind)
    ensures Paths(ToPartialJsonSchema(n), k) == Paths(n, k)
  {
    var r := ToPartialJsonSchema(n);
    match n.kind
    case Object(Declared(es)) =>
      var es' := r.kind.properties.entries;
      forall i | 0 <= i < |es| ensures Paths(es'[i].schema, k) == Paths(es[i].schema, k) {
        PartialSamePaths(es[i].schema, k);
      }
      var parts := seq(|es|, i requires 0 <= i < |es| => Prepend([es[i].name], Paths(es[i].schema, k)));
      var parts' := seq(|es'|, i requires 0 <= i < |es'| => Prepend([es'[i].name], Paths(es'[i].schema, k)));
      assert parts == parts';
    case Array(Some(items)) =>
      PartialSamePaths(items, k);
    case _ =>
  }
}
