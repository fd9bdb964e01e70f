/** The JSON-like documents the schema layer converts: the JavaScript values a
    stored record is made of, plus the `ObjectID` instances of the MongoDB driver. */
module Json {
  import opened Wrappers

  /** A document. Numbers are integers; `JObjectId(hex)` is a driver `ObjectID`,
      represented by the 24-character hex string its `toString` returns. Object
      fields are kept in enumeration order. */
  datatype Json =
    | JNull
    | JBool(b: bool)
    | JNum(n: int)
    | JStr(s: string)
    | JArr(elems: seq<Json>)
    | JObj(fields: seq<(string, Json)>)
    | JObjectId(hex: string)

  /** The exceptions the core raises. */
  datatype Error =
    | NullArgument                    // "argument error: obj was null in schema ..."
    | NullToString                    // TypeError: `toString` called on null
    | InvalidObjectId(text: string)   // thrown by the driver's `ObjectID(text)`
    | DateValidation(messages: seq<string>)
    | SchemaValidation(entries: seq<ReportEntry>)

  /** One entry of the external validator's report. */
  datatype ReportEntry = ReportEntry(attribute: string, uri: string, message: string, details: string)

  /** JavaScript's `isSet`: neither null nor undefined (index.js:167-169). */
  predicate IsSet(j: Json) {
    !j.JNull?
  }

  /** JavaScript truthiness (`if (newObj)`): null, false, 0 and "" are falsy. */
  predicate Truthy(j: Json) {
    match j
    case JNull => false
    case JBool(b) => b
    case JNum(n) => n != 0
    case JStr(s) => s != ""
    case _ => true
  }

  lemma TruthyIsSet(j: Json)
    ensures Truthy(j) ==> IsSet(j)
  {
  }

  /** Index of the first field named `key`. */
  function FindField(fields: seq<(string, Json)>, key: string): (r: Option<nat>)
    ensures r.Some? ==> r.value < |fields| && fields[r.value].0 == key
    ensures r.Some? ==> forall j :: 0 <= j < r.value ==> fields[j].0 != key
    ensures r.None? ==> forall j :: 0 <= j < |fields| ==> fields[j].0 != key
  {
    if fields == [] then None
    else if fields[0].0 == key then Some(0)
    else match FindField(fields[1..], key)
      case None => None
      case Some(i) => Some(i + 1)
  }

  /** `obj[key]` on a plain object; absent keys read as undefined (None). */
  function Lookup(fields: seq<(string, Json)>, key: string): (r: Option<Json>)
    ensures r.Some? <==> exists j :: 0 <= j < |fields| && fields[j].0 == key
  {
    match FindField(fields, key)
    case None => None
    case Some(i) => Some(fields[i].1)
  }

  /** `obj[key] = v` on a plain object that already has `key`: the value is
      replaced where it stands, so the enumeration order is kept. */
  function Update(fields: seq<(string, Json)>, key: string, v: Json): (r: seq<(string, Json)>)
    ensures |r| == |fields|
    ensures forall j :: 0 <= j < |fields| ==> r[j].0 == fields[j].0
    ensures Lookup(fields, key).Some? ==> Lookup(r, key) == Some(v)
    ensures forall k :: k != key ==> Lookup(r, k) == Lookup(fields, k)
    ensures Lookup(fields, key) == Some(v) ==> r == fields
  {
    match FindField(fields, key)
    case None => fields
    case Some(i) =>
      var r := fields[i := (key, v)];
      assert forall k :: FindField(r, k) == FindField(fields, k) by {
        forall k ensures FindField(r, k) == FindField(fields, k) {
          FindFieldSameKeys(r, fields, k);
        }
      }
      r
  }

  /** A second update of the same key overwrites the first. */
  lemma UpdateUpdate(fields: seq<(string, Json)>, key: string, v: Json, w: Json)
    ensures Update(Update(fields, key, v), key, w) == Update(fields, key, w)
  {
    var once := Update(fields, key, v);
    FindFieldSameKeys(once, fields, key);
  }

  /** Updates of different keys commute. */
  lemma UpdateCommute(fields: seq<(string, Json)>, a: string, va: Json, b: string, vb: Json)
    requires a != b
    ensures Update(Update(fields, a, va), b, vb) == Update(Update(fields, b, vb), a, va)
  {
    FindFieldSameKeys(Update(fields, a, va), fields, b);
    FindFieldSameKeys(Update(fields, b, vb), fields, a);
  }

  lemma {:induction false} FindFieldSameKeys(a: seq<(string, Json)>, b: seq<(string, Json)>, k: string)
    requires |a| == |b|
    requires forall j :: 0 <= j < |a| ==> a[j].0 == b[j].0
    ensures FindField(a, k) == FindField(b, k)
  {
    if a != [] {
      FindFieldSameKeys(a[1..], b[1..], k);
    }
  }

  function Keys(fields: seq<(string, Json)>): (ks: seq<string>)
    ensures |ks| == |fields|
    ensures forall j :: 0 <= j < |fields| ==> ks[j] == fields[j].0
  {
    seq(|fields|, j requires 0 <= j < |fields| => fields[j].0)
  }

  /** Decimal digits of a natural number, most significant first. */
  function NatToString(n: nat): (s: string)
    ensures |s| >= 1
    ensures forall j :: 0 <= j < |s| ==> '0' <= s[j] <= '9'
  {
    var d := ['0' + (n % 10) as char];
    if n < 10 then d else NatToString(n / 10) + d
  }

  /** `Number.prototype.toString` for an integer. */
  function IntToString(n: int): string {
    if n < 0 then "-" + NatToString(-n) else NatToString(n)
  }

  /** The string `String(j)` gives for an element inside `Array.prototype.join`:
      null elements become the empty string, nested arrays are joined with ",",
      plain objects read "[object Object]" and an `ObjectID` its hex string. */
  function ElementString(j: Json): string
    decreases j, 1
  {
    match j
    case JNull => ""
    case JBool(b) => if b then "true" else "false"
    case JNum(n) => IntToString(n)
    case JStr(s) => s
    case JArr(es) => JoinElements(j, es)
    case JObj(_) => "[object Object]"
    case JObjectId(h) => h
  }

  function JoinElements(ghost parent: Json, es: seq<Json>): string
    requires forall i :: 0 <= i < |es| ==> es[i] < parent
    decreases parent, 0, |es|
  {
    if es == [] then ""
    else if |es| == 1 then ElementString(es[0])
    else JoinElements(parent, es[..|es| - 1]) + "," + ElementString(es[|es| - 1])
  }

  /** `item.toString()`: a TypeError on null, the element string otherwise. */
  function ToStringCall(j: Json): (r: Result<string, Error>)
    ensures r.Err? <==> j.JNull?
    ensures j.JStr? ==> r == Ok(j.s)
    ensures j.JObjectId? ==> r == Ok(j.hex)
  {
    if j.JNull? then Err(NullToString) else Ok(ElementString(j))
  }

  /** `JSON.parse(JSON.stringify(j))`: a structural copy in which every
      `ObjectID` has become its hex string (the driver's `toJSON`). */
  function Clone(j: Json): (r: Json)
    ensures NoObjectIds(r)
    ensures NoObjectIds(j) ==> r == j
    ensures j.JObjectId? ==> r == JStr(j.hex)
    ensures j.JArr? ==> r.JArr? && |r.elems| == |j.elems|
    ensures j.JObj? ==> r.JObj? && Keys(r.fields) == Keys(j.fields)
  {
    match j
    case JArr(es) => JArr(seq(|es|, i requires 0 <= i < |es| => Clone(es[i])))
    case JObj(fs) => JObj(seq(|fs|, i requires 0 <= i < |fs| => (fs[i].0, Clone(fs[i].1))))
    case JObjectId(h) => JStr(h)
    case _ => j
  }

  /** The copy prints as the original: an id's hex string is what the id
      itself prints, at any depth. */
  lemma {:induction false} CloneString(j: Json)
    ensures ElementString(Clone(j)) == ElementString(j)
    decreases j, 1
  {
    if j.JArr? {
      CloneJoin(j, Clone(j), j.elems, Clone(j).elems);
    }
  }

  lemma {:induction false} CloneJoin(parent: Json, copy: Json, es: seq<Json>, cs: seq<Json>)
    requires forall i :: 0 <= i < |es| ==> es[i] < parent
    requires forall i :: 0 <= i < |cs| ==> cs[i] < copy
    requires |cs| == |es| && forall i :: 0 <= i < |es| ==> cs[i] == Clone(es[i])
    ensures JoinElements(copy, cs) == JoinElements(parent, es)
    decreases parent, 0, |es|
  {
    if es != [] {
      CloneString(es[|es| - 1]);
      if |es| > 1 {
        CloneJoin(parent, copy, es[..|es| - 1], cs[..|cs| - 1]);
      }
    }
  }

  /** A property of the copy is the copy of the original's property. */
  lemma CloneLookup(fields: seq<(string, Json)>, key: string)
    ensures Lookup(Clone(JObj(fields)).fields, key) ==
      if Lookup(fields, key).Some? then Some(Clone(Lookup(fields, key).value)) else None
  {
    FindFieldSameKeys(Clone(JObj(fields)).fields, fields, key);
  }

  /** No `ObjectID` anywhere in the document. */
  predicate NoObjectIds(j: Json) {
    match j
    case JArr(es) => forall i :: 0 <= i < |es| ==> NoObjectIds(es[i])
    case JObj(fs) => forall i :: 0 <= i < |fs| ==> NoObjectIds(fs[i].1)
    case JObjectId(_) => false
    case _ => true
  }
}
