/** Schema trees: the hand-authored JSON Schema extended with the `objectid` and
    `date` kinds, and the access paths that locate positions inside them. */
module SchemaTree {
  import opened Wrappers

  /** A primitive JSON Schema type name such as "string" or "number". The four
      names the engine dispatches on have constructors of their own. */
  type PrimitiveName = s: string | s != "object" && s != "array" && s != "objectid" && s != "date"
    witness "string"

  /** The `type` of a node. `Union` is a list of type names (`type: ['array', 'string']`). */
  datatype Kind =
    | Object(properties: Properties)
    | Array(items: Option<Node>)
    | ObjectId
    | Date
    | Primitive(name: PrimitiveName)
    | Union(names: seq<string>)

  /** The `properties` of an object node, absent or declared in enumeration order. */
  datatype Properties = Unspecified | Declared(entries: seq<Property>)

  datatype Property = Property(name: string, schema: Node)

  /** A schema node: its kind and the keywords the core reads or writes. */
  datatype Node = Node(kind: Kind, required: Option<bool>, additionalProperties: Option<bool>, pattern: Option<string>)

  /** A node carrying nothing but its kind. */
  function Plain(k: Kind): (n: Node)
    ensures n.kind == k && n.required.None? && n.additionalProperties.None? && n.pattern.None?
  {
    Node(k, None, None, None)
  }

  /** An access path: property names, and `Wildcard` for every element of an array. */
  type Path = seq<string>

  const Wildcard: string := "*"

  /** Index of the first property named `key`. */
  function FindProperty(entries: seq<Property>, key: string): (r: Option<nat>)
    ensures r.Some? ==> r.value < |entries| && entries[r.value].name == key
    ensures r.Some? ==> forall j :: 0 <= j < r.value ==> entries[j].name != key
    ensures r.None? ==> forall j :: 0 <= j < |entries| ==> entries[j].name != key
  {
    if entries == [] then None
    else if entries[0].name == key then Some(0)
    else match FindProperty(entries[1..], key)
      case None => None
      case Some(i) => Some(i + 1)
  }

  function Names(entries: seq<Property>): (ns: seq<string>)
    ensures |ns| == |entries|
    ensures forall j :: 0 <= j < |entries| ==> ns[j] == entries[j].name
  {
    seq(|entries|, j requires 0 <= j < |entries| => entries[j].name)
  }

  /** The sub-schema a path leads to: a property name steps into a declared
      property of an object node, `Wildcard` into the items of an array node. */
  function SubAt(n: Node, p: Path): Option<Node>
    decreases |p|
  {
    if p == [] then Some(n)
    else match n.kind
      case Object(Declared(entries)) =>
        (match FindProperty(entries, p[0])
         case Some(i) => SubAt(entries[i].schema, p[1..])
         case None => None)
      case Array(Some(items)) =>
        if p[0] == Wildcard then SubAt(items, p[1..]) else None
      case _ => None
  }

  /** Property names are unique in every object node, as in a JavaScript object. */
  predicate UniqueKeys(n: Node) {
    match n.kind
    case Object(Declared(entries)) =>
      (forall i, j :: 0 <= i < j < |entries| ==> entries[i].name != entries[j].name) &&
      (forall i :: 0 <= i < |entries| ==> UniqueKeys(entries[i].schema))
    case Array(Some(items)) => UniqueKeys(items)
    case _ => true
  }

  /** Prefix every path of `ps` with `prefix`. */
  function Prepend(prefix: Path, ps: seq<Path>): (r: seq<Path>)
    ensures |r| == |ps|
    ensures forall i :: 0 <= i < |ps| ==> r[i] == prefix + ps[i]
  {
    seq(|ps|, i requires 0 <= i < |ps| => prefix + ps[i])
  }

  /** Concatenate a sequence of path lists, in order. */
  function Concat(parts: seq<seq<Path>>): seq<Path> {
    if parts == [] then [] else Concat(parts[..|parts| - 1]) + parts[|parts| - 1]
  }

  lemma {:induction false} ConcatMember(parts: seq<seq<Path>>, p: Path)
    ensures p in Concat(parts) <==> exists i :: 0 <= i < |parts| && p in parts[i]
  {
    if parts != [] {
      ConcatMember(parts[..|parts| - 1], p);
      var last := parts[|parts| - 1];
      if p in Concat(parts) && p !in last {
        var i :| 0 <= i < |parts| - 1 && p in parts[..|parts| - 1][i];
        assert p in parts[i];
      }
      if exists i :: 0 <= i < |parts| && p in parts[i] {
        var i :| 0 <= i < |parts| && p in parts[i];
        if i < |parts| - 1 {
          assert p in parts[..|parts| - 1][i];
        }
      }
    }
  }

  lemma {:induction false} ConcatEmpty(parts: seq<seq<Path>>)
    ensures Concat(parts) == [] <==> forall i :: 0 <= i < |parts| ==> parts[i] == []
  {
    if parts != [] {
      ConcatEmpty(parts[..|parts| - 1]);
      assert forall i :: 0 <= i < |parts| - 1 ==> parts[..|parts| - 1][i] == parts[i];
    }
  }

  lemma PrependEmpty(ps: seq<Path>)
    ensures Prepend([], ps) == ps
  {
    assert forall i :: 0 <= i < |ps| ==> [] + ps[i] == ps[i];
  }

  lemma PrependConcat(prefix: Path, a: seq<Path>, b: seq<Path>)
    ensures Prepend(prefix, a + b) == Prepend(prefix, a) + Prepend(prefix, b)
  {
  }

  lemma PrependPrepend(p: Path, q: Path, ps: seq<Path>)
    ensures Prepend(p, Prepend(q, ps)) == Prepend(p + q, ps)
  {
    forall i | 0 <= i < |ps| ensures p + (q + ps[i]) == (p + q) + ps[i] {
    }
  }

  // ---------------------------------------------------------------------------
  // Independent paths

  /** `p` and `q` agree on their first `d` segments and part at segment `d`, so
      neither is a prefix of the other. */
  predicate DivergeAt(p: Path, q: Path, d: nat) {
    d < |p| && d < |q| && p[..d] == q[..d] && p[d] != q[d]
  }

  predicate Diverge(p: Path, q: Path) {
    exists d: nat :: d < |p| && DivergeAt(p, q, d)
  }

  /** Any two positions of `ps` hold diverging paths. */
  predicate Independent(ps: seq<Path>) {
    forall i, j :: 0 <= i < |ps| && 0 <= j < |ps| && i != j ==> Diverge(ps[i], ps[j])
  }

  /** Dropping the last path keeps the rest independent, and the last path
      diverges from each of them. */
  lemma IndependentInit(ps: seq<Path>, init: seq<Path>)
    requires ps != [] && Independent(ps) && init == ps[..|ps| - 1]
    ensures Independent(init)
    ensures forall i :: 0 <= i < |init| ==> Diverge(ps[|ps| - 1], init[i])
  {
    assert forall i :: 0 <= i < |init| ==> init[i] == ps[i];
  }

  lemma DivergeBelow(h: Path, p: Path, q: Path)
    requires Diverge(p, q)
    ensures Diverge(h + p, h + q)
  {
    var d: nat :| d < |p| && DivergeAt(p, q, d);
    assert d < |q| && p[..d] == q[..d] && p[d] != q[d];
    assert (h + p)[..|h| + d] == h + p[..d];
    assert (h + q)[..|h| + d] == h + q[..d];
    assert DivergeAt(h + p, h + q, |h| + d);
  }

  lemma DivergeHeads(a: string, b: string, p: Path, q: Path)
    requires a != b
    ensures Diverge([a] + p, [b] + q)
  {
    assert DivergeAt([a] + p, [b] + q, 0);
  }

  lemma PrependIndependent(h: Path, ps: seq<Path>)
    requires Independent(ps)
    ensures Independent(Prepend(h, ps))
  {
    var r := Prepend(h, ps);
    forall i, j | 0 <= i < |r| && 0 <= j < |r| && i != j ensures Diverge(r[i], r[j]) {
      DivergeBelow(h, ps[i], ps[j]);
    }
  }

  /** Concatenating independent parts whose paths diverge across parts gives
      independent paths. */
  lemma {:induction false} ConcatIndependent(parts: seq<seq<Path>>)
    requires forall a :: 0 <= a < |parts| ==> Independent(parts[a])
    requires forall a, b, x, y :: 0 <= a < |parts| && 0 <= b < |parts| && a != b && x in parts[a] && y in parts[b] ==> Diverge(x, y)
    ensures Independent(Concat(parts))
  {
    if parts != [] {
      var init := parts[..|parts| - 1];
      var last := parts[|parts| - 1];
      assert forall a :: 0 <= a < |init| ==> init[a] == parts[a];
      ConcatIndependent(init);
      var front := Concat(init);
      var all := front + last;
      forall i, j | 0 <= i < |all| && 0 <= j < |all| && i != j ensures Diverge(all[i], all[j]) {
        if i < |front| && j < |front| {
          assert all[i] == front[i] && all[j] == front[j];
        } else if i >= |front| && j >= |front| {
          assert all[i] == last[i - |front|] && all[j] == last[j - |front|];
        } else if i < |front| {
          assert all[i] in front;
          ConcatMember(init, all[i]);
          assert all[j] == last[j - |front|];
        } else {
          assert all[j] in front;
          ConcatMember(init, all[j]);
          assert all[i] == last[i - |front|];
        }
      }
    }
  }
}
