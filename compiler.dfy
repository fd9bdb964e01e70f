/** The schema compiler: the root wrapping done by the `Schema` constructor, the
    rewrite of the extended kinds into standard JSON Schema (`toJsonSchema`) and
    the partial variant without `required` markers (`toPartialJsonSchema`). */
module Compiler {
  import opened Wrappers
  import opened SchemaTree

  /** `/^[a-fA-F0-9]{24}$/.source`, kept as an opaque string. */
  const ObjectIdPattern: string := "^[a-fA-F0-9]{24}$"

  /** The `.source` of the timestamp regular expression, kept as an opaque string. */
  const DatePattern: string :=
    "(\\d\\d\\d\\d)(-)?(\\d\\d)(-)?(\\d\\d)(T)?(\\d\\d)(:)?(\\d\\d)(:)?(\\d\\d)(\\.\\d+)?(Z|([+-])(\\d\\d)(:)?(\\d\\d))"

  /** `{type: "objectid"}`, the node injected as `_id`. */
  const IdNode: Node := Plain(ObjectId)

  /** `input._id = {type: "objectid"}`: afterwards `_id` names the objectid node,
      every other name finds the property it found before at the same position,
      and `_id` is a new last name exactly when it was absent. */
  function WithId(input: seq<Property>): (r: seq<Property>)
    ensures Names(r) == if FindProperty(input, "_id").None? then Names(input) + ["_id"] else Names(input)
    ensures FindProperty(r, "_id").Some? && r[FindProperty(r, "_id").value] == Property("_id", IdNode)
    ensures forall k :: k != "_id" ==> FindProperty(r, k) == FindProperty(input, k)
    ensures forall k :: k != "_id" && FindProperty(input, k).Some? ==>
      r[FindProperty(input, k).value] == input[FindProperty(input, k).value]
  {
    var e := Property("_id", IdNode);
    match FindProperty(input, "_id")
    case None =>
      var r := input + [e];
      forall k | k != "_id" ensures FindProperty(r, k) == FindProperty(input, k) {
        FindPropertyAppend(input, e, k);
      }
      assert r[|input|] == e;
      assert Names(r) == Names(input) + ["_id"];
      r
    case Some(i) =>
      var r := input[i := e];
      forall k | k != "_id" ensures FindProperty(r, k) == FindProperty(input, k) {
        FindPropertyReplace(input, i, e, k);
      }
      assert r[i] == e;
      assert forall j :: 0 <= j < i ==> r[j] == input[j];
      assert Names(r) == Names(input);
      r
  }

  /** The root node the constructor builds around `input`
      (`{type: 'object', properties: input, additionalProperties: !!options.additionalProperties}`). */
  function Wrap(input: seq<Property>, additionalProperties: bool): Node {
    Node(Object(Declared(WithId(input))), None, Some(additionalProperties), None)
  }

  /** The wrapped root is an object node whose `_id` is the objectid node, whose
      other properties are those of `input` unchanged and in the same order, and
      which carries the `additionalProperties` option and nothing else. */
  lemma WrapShape(input: seq<Property>, additionalProperties: bool)
    ensures var root := Wrap(input, additionalProperties);
      && root.kind.Object? && root.kind.properties.Declared?
      && root.additionalProperties == Some(additionalProperties)
      && root.required.None? && root.pattern.None?
      && SubAt(root, ["_id"]) == Some(IdNode)
      && forall k :: k != "_id" ==> SubAt(root, [k]) == SubAt(Plain(Object(Declared(input))), [k])
  {
    var root := Wrap(input, additionalProperties);
    var es := WithId(input);
    assert SubAt(root, ["_id"]) == Some(IdNode);
    forall k | k != "_id"
      ensures SubAt(root, [k]) == SubAt(Plain(Object(Declared(input))), [k])
    {
      assert FindProperty(es, k) == FindProperty(input, k);
    }
  }

  lemma {:induction false} FindPropertyAppend(es: seq<Property>, e: Property, k: string)
    requires e.name != k
    ensures FindProperty(es + [e], k) == FindProperty(es, k)
  {
    if es != [] {
      assert (es + [e])[1..] == es[1..] + [e];
      FindPropertyAppend(es[1..], e, k);
    }
  }

  lemma {:induction false} FindPropertyReplace(es: seq<Property>, i: nat, e: Property, k: string)
    requires i < |es| && es[i].name != k && e.name != k
    ensures FindProperty(es[i := e], k) == FindProperty(es, k)
  {
    if i > 0 {
      assert es[i := e][1..] == es[1..][i - 1 := e];
      FindPropertyReplace(es[1..], i - 1, e, k);
    }
  }

  // ---------------------------------------------------------------------------
  // toJsonSchema

  /** No node of the tree has an extended kind. */
  predicate NoExtendedKinds(n: Node) {
    match n.kind
    case ObjectId => false
    case Date => false
    case Object(Declared(es)) => forall i :: 0 <= i < |es| ==> NoExtendedKinds(es[i].schema)
    case Array(Some(items)) => NoExtendedKinds(items)
    case _ => true
  }

  /** How the rewrite treats one node, its children aside: an objectid or date
      node becomes a string with the matching pattern, any other node keeps its
      kind and pattern, and `required`/`additionalProperties` are kept always. */
  predicate RewrittenNode(m: Node, r: Node) {
    && r.required == m.required
    && r.additionalProperties == m.additionalProperties
    && match m.kind
       case ObjectId => r.kind == Primitive("string") && r.pattern == Some(ObjectIdPattern)
       case Date => r.kind == Primitive("string") && r.pattern == Some(DatePattern)
       case Object(Declared(es)) =>
         r.pattern == m.pattern && r.kind.Object? && r.kind.properties.Declared? &&
         Names(r.kind.properties.entries) == Names(es)
       case Array(Some(_)) => r.pattern == m.pattern && r.kind.Array? && r.kind.items.Some?
       case _ => r == m
  }

  /** `toJsonSchema`: the traversal applies the rewrite to every node of a copy. */
  function ToJsonSchema(n: Node): (r: Node)
    ensures RewrittenNode(n, r)
    ensures NoExtendedKinds(r)
  {
    match n.kind
    case ObjectId => n.(kind := Primitive("string"), pattern := Some(ObjectIdPattern))
    case Date => n.(kind := Primitive("string"), pattern := Some(DatePattern))
    case Object(Declared(es)) =>
      n.(kind := Object(Declared(
        seq(|es|, i requires 0 <= i < |es| => Property(es[i].name, ToJsonSchema(es[i].schema))))))
    case Array(Some(items)) => n.(kind := Array(Some(ToJsonSchema(items))))
    case _ => n
  }

  /** The rewrite moves nothing: the rewritten tree has a node exactly at the
      paths where the input has one, and it is the rewrite of that node. */
  lemma {:induction false} ToJsonSchemaAt(n: Node, p: Path)
    ensures SubAt(ToJsonSchema(n), p) ==
      match SubAt(n, p) case None => None case Some(m) => Some(ToJsonSchema(m))
    decreases |p|
  {
    if p != [] {
      match n.kind
      case Object(Declared(es)) =>
        var es' := ToJsonSchema(n).kind.properties.entries;
        assert Names(es') == Names(es);
        FindPropertySameNames(es', es, p[0]);
        match FindProperty(es, p[0]) {
          case Some(i) => ToJsonSchemaAt(es[i].schema, p[1..]);
          case None =>
        }
      case Array(Some(items)) =>
        if p[0] == Wildcard { ToJsonSchemaAt(items, p[1..]); }
      case ObjectId =>
      case Date =>
      case _ =>
    }
  }

  lemma {:induction false} FindPropertySameNames(a: seq<Property>, b: seq<Property>, k: string)
    requires Names(a) == Names(b)
    ensures FindProperty(a, k) == FindProperty(b, k)
  {
    if a != [] {
      assert Names(a[1..]) == Names(b[1..]) by {
        assert forall j :: 0 <= j < |a| - 1 ==> a[1..][j].name == a[j + 1].name;
        assert forall j :: 0 <= j < |b| - 1 ==> b[1..][j].name == b[j + 1].name;
        assert forall j :: 0 <= j < |a| ==> a[j].name == Names(a)[j] == Names(b)[j] == b[j].name;
      }
      assert a[0].name == Names(a)[0];
      FindPropertySameNames(a[1..], b[1..], k);
    }
  }

  // ---------------------------------------------------------------------------
  // toPartialJsonSchema

  /** No node of the tree carries a truthy `required` marker. */
  predicate NoRequired(n: Node) {
    n.required != Some(true) &&
    match n.kind
    case Object(Declared(es)) => forall i :: 0 <= i < |es| ==> NoRequired(es[i].schema)
    case Array(Some(items)) => NoRequired(items)
    case _ => true
  }

  /** `if (value.required) delete value.required` on one node. */
  function DropRequired(n: Node): Node {
    if n.required == Some(true) then n.(required := None) else n
  }

  /** How the partial rewrite treats one node, its children aside: a truthy
      `required` is removed and every other keyword is kept. */
  predicate PartialNode(m: Node, r: Node) {
    && r.required == (if m.required == Some(true) then None else m.required)
    && r.additionalProperties == m.additionalProperties
    && r.pattern == m.pattern
    && match m.kind
       case Object(Declared(es)) =>
         r.kind.Object? && r.kind.properties.Declared? && Names(r.kind.properties.entries) == Names(es)
       case Array(Some(_)) => r.kind.Array? && r.kind.items.Some?
       case _ => r.kind == m.kind
  }

  /** `toPartialJsonSchema`, with the deletion applied to schema nodes only. */
  function ToPartialJsonSchema(n: Node): (r: Node)
    ensures PartialNode(n, r)
    ensures NoRequired(r)
  {
    var m := DropRequired(n);
    match n.kind
    case Object(Declared(es)) =>
      m.(kind := Object(Declared(
        seq(|es|, i requires 0 <= i < |es| => Property(es[i].name, ToPartialJsonSchema(es[i].schema))))))
    case Array(Some(items)) => m.(kind := Array(Some(ToPartialJsonSchema(items))))
    case _ => m
  }

  /** The partial rewrite moves nothing, like the standard one. */
  lemma {:induction false} ToPartialJsonSchemaAt(n: Node, p: Path)
    ensures SubAt(ToPartialJsonSchema(n), p) ==
      match SubAt(n, p) case None => None case Some(m) => Some(ToPartialJsonSchema(m))
    decreases |p|
  {
    if p != [] {
      match n.kind
      case Object(Declared(es)) =>
        var es' := ToPartialJsonSchema(n).kind.properties.entries;
        FindPropertySameNames(es', es, p[0]);
        match FindProperty(es, p[0]) {
          case Some(i) => ToPartialJsonSchemaAt(es[i].schema, p[1..]);
          case None =>
        }
      case Array(Some(items)) =>
        if p[0] == Wildcard { ToPartialJsonSchemaAt(items, p[1..]); }
      case _ =>
    }
  }

  /** A tree without `required` markers is left exactly as it is. */
  lemma {:induction false} ToPartialJsonSchemaIdentity(n: Node)
    requires NoRequired(n)
    ensures ToPartialJsonSchema(n) == n
  {
    match n.kind
    case Object(Declared(es)) =>
      forall i | 0 <= i < |es| ensures ToPartialJsonSchema(es[i].schema) == es[i].schema {
        ToPartialJsonSchemaIdentity(es[i].schema);
      }
      assert ToPartialJsonSchema(n).kind.properties.entries == es;
    case Array(Some(items)) =>
      ToPartialJsonSchemaIdentity(items);
    case _ =>
  }

  /** Deriving the partial schema twice changes nothing more. */
  lemma ToPartialJsonSchemaIdempotent(n: Node)
    ensures ToPartialJsonSchema(ToPartialJsonSchema(n)) == ToPartialJsonSchema(n)
  {
    ToPartialJsonSchemaIdentity(ToPartialJsonSchema(n));
  }

  /** The partial schema of the standard schema still has no extended kinds. */
  lemma {:induction false} PartialKeepsStandard(n: Node)
    requires NoExtendedKinds(n)
    ensures NoExtendedKinds(ToPartialJsonSchema(n))
  {
    match n.kind
    case Object(Declared(es)) =>
      forall i | 0 <= i < |es| ensures NoExtendedKinds(ToPartialJsonSchema(es[i].schema)) {
        PartialKeepsStandard(es[i].schema);
      }
    case Array(Some(items)) =>
      PartialKeepsStandard(items);
    case _ =>
  }

  // ---------------------------------------------------------------------------
  // toPartialJsonSchema as written: `traverse(schema).map` also visits every
  // `properties` map, where `value.required` is the property NAMED "required"
  // (a node object, hence truthy), and deletes it.

  function WithoutRequiredName(ghost parent: Node, es: seq<Property>): (r: seq<Property>)
    requires forall i :: 0 <= i < |es| ==> es[i].schema < parent
    ensures forall i :: 0 <= i < |r| ==> r[i].name != "required"
    ensures forall i :: 0 <= i < |r| ==> NoRequired(r[i].schema)
    decreases parent, 0, |es|
  {
    if es == [] then []
    else
      var rest := WithoutRequiredName(parent, es[..|es| - 1]);
      var e := es[|es| - 1];
      if e.name == "required" then rest
      else rest + [Property(e.name, PartialAsWritten(e.schema))]
  }

  function PartialAsWritten(n: Node): (r: Node)
    ensures NoRequired(r)
    decreases n, 1
  {
    var m := DropRequired(n);
    match n.kind
    case Object(Declared(es)) => m.(kind := Object(Declared(WithoutRequiredName(n, es))))
    case Array(Some(items)) => m.(kind := Array(Some(PartialAsWritten(items))))
    case _ => m
  }

  /** No property anywhere in the tree is named "required". */
  predicate NoRequiredName(n: Node) {
    match n.kind
    case Object(Declared(es)) =>
      forall i :: 0 <= i < |es| ==> es[i].name != "required" && NoRequiredName(es[i].schema)
    case Array(Some(items)) => NoRequiredName(items)
    case _ => true
  }

  /** Without a property named "required" the as-written rewrite is the intended one. */
  lemma {:induction false} PartialAsWrittenAgrees(n: Node)
    requires NoRequiredName(n)
    ensures PartialAsWritten(n) == ToPartialJsonSchema(n)
    decreases n, 1
  {
    match n.kind
    case Object(Declared(es)) =>
      WithoutRequiredNameAgrees(n, es);
    case Array(Some(items)) =>
      PartialAsWrittenAgrees(items);
    case _ =>
  }

  lemma {:induction false} WithoutRequiredNameAgrees(parent: Node, es: seq<Property>)
    requires forall i :: 0 <= i < |es| ==> es[i].schema < parent
    requires forall i :: 0 <= i < |es| ==> es[i].name != "required" && NoRequiredName(es[i].schema)
    ensures WithoutRequiredName(parent, es) ==
      seq(|es|, i requires 0 <= i < |es| => Property(es[i].name, ToPartialJsonSchema(es[i].schema)))
    decreases parent, 0, |es|
  {
    if es != [] {
      var init := es[..|es| - 1];
      WithoutRequiredNameAgrees(parent, init);
      PartialAsWrittenAgrees(es[|es| - 1].schema);
    }
  }

  /** As written, an object node loses a property named "required". */
  lemma PartialAsWrittenDropsProperty(n: Node)
    requires n.kind.Object? && n.kind.properties.Declared?
    requires FindProperty(n.kind.properties.entries, "required").Some?
    ensures SubAt(n, ["required"]).Some?
    ensures SubAt(PartialAsWritten(n), ["required"]).None?
    ensures SubAt(ToPartialJsonSchema(n), ["required"]).Some?
  {
    var ws := WithoutRequiredName(n, n.kind.properties.entries);
    assert PartialAsWritten(n).kind == Object(Declared(ws));
    assert FindProperty(ws, "required").None?;
    ToPartialJsonSchemaAt(n, ["required"]);
  }

  /** The schema of a record with a field named "required". */
  const RequiredFieldSchema: Node :=
    Wrap([Property("required", Plain(Primitive("string")))], false)

  /** The as-written partial schema of that record has no "required" field any
      more (so partial validation with `additionalProperties: false` refuses it),
      while the corrected one keeps it. */
  lemma RequiredFieldDropped()
    ensures SubAt(RequiredFieldSchema, ["required"]) == Some(Plain(Primitive("string")))
    ensures SubAt(PartialAsWritten(ToJsonSchema(RequiredFieldSchema)), ["required"]).None?
    ensures SubAt(ToPartialJsonSchema(ToJsonSchema(RequiredFieldSchema)), ["required"]) == Some(Plain(Primitive("string")))
  {
    var std := ToJsonSchema(RequiredFieldSchema);
    ToJsonSchemaAt(RequiredFieldSchema, ["required"]);
    ToPartialJsonSchemaAt(std, ["required"]);
    PartialAsWrittenDropsProperty(std);
  }
}
