/** The `Schema` object: construction, the two path resolvers, and the fold
    drivers that convert the values found at those paths. */
module MongoSchema {
  import opened Wrappers
  import opened Json
  import opened SchemaTree
  import opened Compiler
  import opened Resolver
  import opened PathApplier

  // ---------------------------------------------------------------------------
  // The callbacks the fold drivers hand to `pathApply`

  /** `item => item.toString()` (idsToStrings). */
  function IdToString(x: Json): (r: Result<Json, Error>)
    ensures r.Err? <==> x.JNull?
    ensures r.Ok? ==> r.value.JStr?
    ensures x.JObjectId? ==> r == Ok(JStr(x.hex))
    ensures x.JStr? ==> r == Ok(x)
  {
    var s :- ToStringCall(x);
    Ok(JStr(s))
  }

  /** `item => ObjectID(item.toString())` (stringsToIds). `parseId` is the driver's
      `ObjectID` constructor: the hex string of the id it builds, or None when it
      throws. */
  function StringToId(parseId: string -> Option<string>, x: Json): (r: Result<Json, Error>)
    ensures r.Ok? ==> r.value.JObjectId?
    ensures x.JNull? ==> r == Err(NullToString)
    ensures x.JStr? && parseId(x.s).None? ==> r == Err(InvalidObjectId(x.s))
    ensures x.JStr? && parseId(x.s).Some? ==> r == Ok(JObjectId(parseId(x.s).value))
    ensures x.JObjectId? && parseId(x.hex).Some? ==> r == Ok(JObjectId(parseId(x.hex).value))
  {
    var s :- ToStringCall(x);
    match parseId(s)
    case Some(h) => Ok(JObjectId(h))
    case None => Err(InvalidObjectId(s))
  }

  /** The `stringsToIds` callback for a given `ObjectID` constructor. */
  function FromStrings(parseId: string -> Option<string>): Transform {
    x => StringToId(parseId, x)
  }

  /** `item => item` (datesToStrings, which reports instead of converting). */
  function Keep(x: Json): Result<Json, Error> {
    Ok(x)
  }

  /** `toString` on an id and `ObjectID` on the string it gives undo each other
      when the driver reads the id's own hex string back as the same id. */
  lemma IdRoundTrip(parseId: string -> Option<string>, h: string)
    requires h != "" && parseId(h) == Some(h)
    ensures Undoes(IdToString, FromStrings(parseId), JObjectId(h))
  {
  }

  /** `idsToStrings`' callback returns a string that it maps to itself, so applying
      it twice along a path is applying it once. */
  lemma IdToStringStable(x: Json, y: Json)
    requires IdToString(x) == Ok(y)
    ensures IsSet(y) && IdToString(y) == Ok(y)
  {
  }

  // ---------------------------------------------------------------------------
  // The id drivers over a whole schema

  predicate IsString(x: Json) {
    x.JStr?
  }

  predicate IsObjectId(x: Json) {
    x.JObjectId?
  }

  /** After `idsToStrings`, every value at an objectid path is a string. */
  lemma IdsToStringsGivesStrings(root: Node, obj: Json, r: Json)
    requires UniqueKeys(root)
    requires FoldApply(obj, Paths(root, IdKind), IdToString) == Ok(r)
    ensures forall i :: 0 <= i < |Paths(root, IdKind)| ==> AllReached(r, Paths(root, IdKind)[i], IsString)
  {
    PathsIndependent(root, IdKind);
    assert Yields(IdToString, IsString);
    FoldApplyReached(obj, Paths(root, IdKind), IdToString, IsString, r);
  }

  /** After `stringsToIds`, every value at an objectid path is an `ObjectID`. */
  lemma StringsToIdsGivesIds(root: Node, obj: Json, parseId: string -> Option<string>, r: Json)
    requires UniqueKeys(root)
    requires FoldApply(obj, Paths(root, IdKind), FromStrings(parseId)) == Ok(r)
    ensures forall i :: 0 <= i < |Paths(root, IdKind)| ==> AllReached(r, Paths(root, IdKind)[i], IsObjectId)
  {
    PathsIndependent(root, IdKind);
    assert Yields(FromStrings(parseId), IsObjectId);
    FoldApplyReached(obj, Paths(root, IdKind), FromStrings(parseId), IsObjectId, r);
  }

  /** Every value the walk along `path` reaches is an id the driver reads back
      from its own hex string. */
  predicate IdsAt(obj: Json, path: Path, parseId: string -> Option<string>) {
    Leaves(obj, path).Ok? &&
    forall j :: 0 <= j < |Leaves(obj, path).value| ==> RestorableId(parseId, Leaves(obj, path).value[j])
  }

  predicate RestorableId(parseId: string -> Option<string>, x: Json) {
    x.JObjectId? && x.hex != "" && parseId(x.hex) == Some(x.hex)
  }

  /** `stringsToIds(idsToStrings(obj))` gives `obj` back when every objectid
      position of the document holds an id. */
  lemma IdsRoundTrip(root: Node, obj: Json, parseId: string -> Option<string>)
    requires UniqueKeys(root)
    requires forall i :: 0 <= i < |Paths(root, IdKind)| ==> IdsAt(obj, Paths(root, IdKind)[i], parseId)
    ensures FoldApply(obj, Paths(root, IdKind), IdToString).Ok?
    ensures FoldApply(FoldApply(obj, Paths(root, IdKind), IdToString).value, Paths(root, IdKind), FromStrings(parseId)) == Ok(obj)
  {
    var paths := Paths(root, IdKind);
    PathsIndependent(root, IdKind);
    forall i | 0 <= i < |paths| ensures UndoneAt(IdToString, FromStrings(parseId), obj, paths[i]) {
      var ls := Leaves(obj, paths[i]).value;
      forall j | 0 <= j < |ls| ensures Undoes(IdToString, FromStrings(parseId), ls[j]) {
        assert RestorableId(parseId, ls[j]);
        IdRoundTrip(parseId, ls[j].hex);
      }
    }
    FoldApplyInverse(obj, paths, IdToString, FromStrings(parseId));
  }

  /** A document that already holds, at every objectid path, only strings and no
      null on the way comes back from `idsToStrings` unchanged. */
  lemma IdsToStringsKeepsStrings(root: Node, obj: Json)
    requires forall i :: 0 <= i < |Paths(root, IdKind)| ==> AllReached(obj, Paths(root, IdKind)[i], IsString)
    ensures FoldApply(obj, Paths(root, IdKind), IdToString) == Ok(obj)
  {
    FoldApplyFixed(obj, Paths(root, IdKind), IdToString, IsString);
  }

  /** `idsToStrings` is idempotent. */
  lemma IdsToStringsIdempotent(root: Node, obj: Json, r: Json)
    requires UniqueKeys(root)
    requires FoldApply(obj, Paths(root, IdKind), IdToString) == Ok(r)
    ensures FoldApply(r, Paths(root, IdKind), IdToString) == Ok(r)
  {
    var paths := Paths(root, IdKind);
    PathsIndependent(root, IdKind);
    assert Independent(paths);
    assert Settles(IdToString) by {
      forall x, y | IdToString(x) == Ok(y) ensures IsSet(y) && IdToString(y) == Ok(y) {
        IdToStringStable(x, y);
      }
    }
    FoldApplyIdempotent(obj, paths, IdToString, r);
  }

  /** `stringsToIds` is idempotent when the driver reads every id it builds back
      as itself. */
  lemma StringsToIdsIdempotent(root: Node, obj: Json, parseId: string -> Option<string>, r: Json)
    requires UniqueKeys(root)
    requires forall t, h :: parseId(t) == Some(h) ==> parseId(h) == Some(h)
    requires FoldApply(obj, Paths(root, IdKind), FromStrings(parseId)) == Ok(r)
    ensures FoldApply(r, Paths(root, IdKind), FromStrings(parseId)) == Ok(r)
  {
    PathsIndependent(root, IdKind);
    FromStringsSettles(parseId);
    FoldApplyIdempotent(obj, Paths(root, IdKind), FromStrings(parseId), r);
  }

  /** The `stringsToIds` callback maps every id it builds to itself. */
  lemma FromStringsSettles(parseId: string -> Option<string>)
    requires forall t, h :: parseId(t) == Some(h) ==> parseId(h) == Some(h)
    ensures Settles(FromStrings(parseId))
  {
    var fn := FromStrings(parseId);
    forall x, y | fn(x) == Ok(y) ensures IsSet(y) && fn(y) == Ok(y) {
      var t := ToStringCall(x).value;
      assert y == JObjectId(parseId(t).value);
    }
  }

  /** Folding over the objectid paths of a wrapped schema leaves the document's
      keys in place, and leaves alone every top-level property below which the
      schema declares no objectid, such as a `count` number. */
  lemma IdFoldFrame(input: seq<Property>, additionalProperties: bool, fields: seq<(string, Json)>, fn: Transform, r: Json, k: string)
    requires k != "_id"
    requires forall i :: 0 <= i < |input| && input[i].name == k ==> !Occurs(input[i].schema, IdKind)
    requires FoldApply(JObj(fields), Paths(Wrap(input, additionalProperties), IdKind), fn) == Ok(r)
    ensures r.JObj? && Keys(r.fields) == Keys(fields) && Lookup(r.fields, k) == Lookup(fields, k)
  {
    IdPathsAvoid(input, additionalProperties, k);
    FoldApplyFrame(fields, Paths(Wrap(input, additionalProperties), IdKind), fn, r, k);
  }

  /** No objectid path starts at a top-level property holding no objectid. */
  lemma IdPathsAvoid(input: seq<Property>, additionalProperties: bool, k: string)
    requires k != "_id"
    requires forall i :: 0 <= i < |input| && input[i].name == k ==> !Occurs(input[i].schema, IdKind)
    ensures forall i :: 0 <= i < |Paths(Wrap(input, additionalProperties), IdKind)| ==>
      Paths(Wrap(input, additionalProperties), IdKind)[i] != [] && Paths(Wrap(input, additionalProperties), IdKind)[i][0] != k
  {
    var root := Wrap(input, additionalProperties);
    var es := WithId(input);
    var paths := Paths(root, IdKind);
    forall i | 0 <= i < |paths| ensures paths[i] != [] && paths[i][0] != k {
      assert paths[i] in paths;
      PathsHeads(root, es, IdKind, paths[i]);
      var j :| 0 <= j < |es| && es[j].name == paths[i][0] && Occurs(es[j].schema, IdKind);
    }
  }

  // ---------------------------------------------------------------------------
  // datesToStrings' error collection

  const DateMessagePrefix: string := "Incorrect date format - got "

  /** The values `isValidDate` rejects, in the order they are met. */
  function InvalidDates(isValidDate: Json -> bool, leaves: seq<Json>): (bad: seq<Json>)
    ensures |bad| <= |leaves|
    ensures forall x :: x in bad <==> x in leaves && !isValidDate(x)
  {
    if leaves == [] then []
    else if isValidDate(leaves[0]) then InvalidDates(isValidDate, leaves[1..])
    else [leaves[0]] + InvalidDates(isValidDate, leaves[1..])
  }

  /** The messages the callback pushes for the values it is called on, in order. */
  function DateProblems(isValidDate: Json -> bool, leaves: seq<Json>): (ms: seq<string>)
    requires forall i :: 0 <= i < |leaves| ==> IsSet(leaves[i])
    ensures ms == [] <==> forall i :: 0 <= i < |leaves| ==> isValidDate(leaves[i])
  {
    if leaves == [] then []
    else
      var rest := DateProblems(isValidDate, leaves[1..]);
      if isValidDate(leaves[0]) then rest
      else
        assert IsSet(leaves[0]);
        [DateMessagePrefix + ToStringCall(leaves[0]).value] + rest
  }

  /** One message per rejected value, in order, each the prefix followed by the
      value's string. */
  lemma {:induction false} DateProblemsMessages(isValidDate: Json -> bool, leaves: seq<Json>)
    requires forall i :: 0 <= i < |leaves| ==> IsSet(leaves[i])
    ensures |DateProblems(isValidDate, leaves)| == |InvalidDates(isValidDate, leaves)|
    ensures forall i :: 0 <= i < |DateProblems(isValidDate, leaves)| ==>
      DateProblems(isValidDate, leaves)[i] == DateMessagePrefix + ElementString(InvalidDates(isValidDate, leaves)[i])
  {
    if leaves != [] {
      DateProblemsMessages(isValidDate, leaves[1..]);
      var rest := DateProblems(isValidDate, leaves[1..]);
      var bad := InvalidDates(isValidDate, leaves[1..]);
      if isValidDate(leaves[0]) {
        assert DateProblems(isValidDate, leaves) == rest;
        assert InvalidDates(isValidDate, leaves) == bad;
      } else {
        assert IsSet(leaves[0]);
        assert DateProblems(isValidDate, leaves) == [DateMessagePrefix + ElementString(leaves[0])] + rest;
        assert InvalidDates(isValidDate, leaves) == [leaves[0]] + bad;
      }
    }
  }

  /** The values at `path` are valid dates, and the walk there meets no null. */
  predicate ValidAt(obj: Json, path: Path, isValidDate: Json -> bool) {
    Leaves(obj, path).Ok? &&
    forall j :: 0 <= j < |Leaves(obj, path).value| ==> isValidDate(Leaves(obj, path).value[j])
  }

  /** The messages collected over all paths, or the argument error of the first
      path whose walk meets a null. The callback returns its argument, so every
      path is walked over the same document. */
  function DateErrors(obj: Json, paths: seq<Path>, isValidDate: Json -> bool): (r: Result<seq<string>, Error>)
    ensures r.Err? ==> r.error == NullArgument
    decreases |paths|
  {
    if paths == [] then Ok([])
    else
      var ms :- DateErrors(obj, paths[..|paths| - 1], isValidDate);
      var leaves :- Leaves(obj, paths[|paths| - 1]);
      Ok(ms + DateProblems(isValidDate, leaves))
  }

  /** The collection fails exactly when some path's walk meets a null. */
  lemma {:induction false} DateErrorsFail(obj: Json, paths: seq<Path>, isValidDate: Json -> bool)
    ensures DateErrors(obj, paths, isValidDate).Err? <==> exists i :: 0 <= i < |paths| && Leaves(obj, paths[i]).Err?
    decreases |paths|
  {
    if paths != [] {
      var init := paths[..|paths| - 1];
      DateErrorsFail(obj, init, isValidDate);
      assert forall i :: 0 <= i < |init| ==> init[i] == paths[i];
    }
  }

  /** No message is collected exactly when every path leads to valid dates only. */
  lemma DateErrorsNone(obj: Json, paths: seq<Path>, isValidDate: Json -> bool)
    ensures DateErrors(obj, paths, isValidDate) == Ok([]) <==>
      forall i :: 0 <= i < |paths| ==> ValidAt(obj, paths[i], isValidDate)
  {
    DateErrorsAllValid(obj, paths, isValidDate);
    AllValidEach(obj, paths, isValidDate);
  }

  /** Valid dates at every path, path by path from the last. */
  predicate AllValid(obj: Json, paths: seq<Path>, isValidDate: Json -> bool)
    decreases |paths|
  {
    paths == [] ||
    (AllValid(obj, paths[..|paths| - 1], isValidDate) && ValidAt(obj, paths[|paths| - 1], isValidDate))
  }

  lemma {:induction false} DateErrorsAllValid(obj: Json, paths: seq<Path>, isValidDate: Json -> bool)
    ensures DateErrors(obj, paths, isValidDate) == Ok([]) <==> AllValid(obj, paths, isValidDate)
    decreases |paths|
  {
    if paths != [] {
      DateErrorsAllValid(obj, paths[..|paths| - 1], isValidDate);
      DateErrorsLast(obj, paths, isValidDate);
    }
  }

  lemma {:induction false} AllValidEach(obj: Json, paths: seq<Path>, isValidDate: Json -> bool)
    ensures AllValid(obj, paths, isValidDate) <==> forall i :: 0 <= i < |paths| ==> ValidAt(obj, paths[i], isValidDate)
    decreases |paths|
  {
    if paths != [] {
      var init := paths[..|paths| - 1];
      AllValidEach(obj, init, isValidDate);
      assert forall i :: 0 <= i < |init| ==> init[i] == paths[i];
    }
  }

  lemma DateErrorsLast(obj: Json, paths: seq<Path>, isValidDate: Json -> bool)
    requires paths != []
    ensures DateErrors(obj, paths, isValidDate) == Ok([]) <==>
      DateErrors(obj, paths[..|paths| - 1], isValidDate) == Ok([]) && ValidAt(obj, paths[|paths| - 1], isValidDate)
  {
    var before := DateErrors(obj, paths[..|paths| - 1], isValidDate);
    var here := Leaves(obj, paths[|paths| - 1]);
    if before.Ok? && here.Ok? {
      var ms := DateProblems(isValidDate, here.value);
      assert before.value + ms == [] <==> before.value == [] && ms == [];
    }
  }

  /** `datesToStrings`' result: the document itself, the argument error, or a
      date validation error carrying every message. */
  function DatesOutcome(obj: Json, paths: seq<Path>, isValidDate: Json -> bool): (r: Result<Json, Error>)
    ensures r.Ok? <==> forall i :: 0 <= i < |paths| ==> ValidAt(obj, paths[i], isValidDate)
    ensures r.Ok? ==> r.value == obj
  {
    DateErrorsNone(obj, paths, isValidDate);
    match DateErrors(obj, paths, isValidDate)
    case Err(e) => Err(e)
    case Ok(ms) => if ms == [] then Ok(obj) else Err(DateValidation(ms))
  }

  lemma {:induction false} FoldApplyStuck(obj: Json, paths: seq<Path>, i: nat, fn: Transform)
    requires i <= |paths|
    requires FoldApply(obj, paths[..i], fn).Err?
    ensures FoldApply(obj, paths, fn) == FoldApply(obj, paths[..i], fn)
    decreases |paths| - i
  {
    if i < |paths| {
      assert paths[..i + 1][..i] == paths[..i];
      FoldApplyStuck(obj, paths, i + 1, fn);
    } else {
      assert paths[..i] == paths;
    }
  }

  lemma FoldApplyStep(obj: Json, paths: seq<Path>, i: nat, fn: Transform, cur: Json)
    requires i < |paths|
    requires FoldApply(obj, paths[..i], fn) == Ok(cur)
    ensures FoldApply(obj, paths[..i + 1], fn) == PathApply(cur, paths[i], fn)
  {
    assert paths[..i + 1][..i] == paths[..i];
    assert paths[..i + 1][i] == paths[i];
  }

  lemma DateErrorsStep(obj: Json, paths: seq<Path>, i: nat, isValidDate: Json -> bool, errs: seq<string>)
    requires i < |paths|
    requires DateErrors(obj, paths[..i], isValidDate) == Ok(errs)
    requires Leaves(obj, paths[i]).Ok?
    ensures DateErrors(obj, paths[..i + 1], isValidDate) ==
            Ok(errs + DateProblems(isValidDate, Leaves(obj, paths[i]).value))
  {
    assert paths[..i + 1][..i] == paths[..i];
    assert paths[..i + 1][i] == paths[i];
  }

  lemma DateErrorsStuck(obj: Json, paths: seq<Path>, i: nat, isValidDate: Json -> bool)
    requires i < |paths|
    requires Leaves(obj, paths[i]).Err?
    ensures DateErrors(obj, paths, isValidDate) == Err(NullArgument)
  {
    DateErrorsFail(obj, paths, isValidDate);
  }

  // ---------------------------------------------------------------------------
  // Validation

  /** The external JSON Schema validator: the report it gives for a document
      against a schema, empty when the document conforms. */
  type Validator = (Node, Json) -> seq<ReportEntry>

  const Separator: string := ", "

  /** The keys among `keys` that `declared` has no property for, in order. */
  function Undeclared(keys: seq<string>, declared: seq<Property>): (r: seq<string>)
    ensures forall x :: x in r <==> x in keys && FindProperty(declared, x).None?
  {
    if keys == [] then []
    else if FindProperty(declared, keys[0]).None? then [keys[0]] + Undeclared(keys[1..], declared)
    else Undeclared(keys[1..], declared)
  }

  lemma {:induction false} UndeclaredSnoc(keys: seq<string>, key: string, declared: seq<Property>)
    ensures Undeclared(keys + [key], declared) ==
      Undeclared(keys, declared) + (if FindProperty(declared, key).None? then [key] else [])
  {
    if keys == [] {
      assert keys + [key] == [key];
    } else {
      assert (keys + [key])[1..] == keys[1..] + [key];
      UndeclaredSnoc(keys[1..], key, declared);
    }
  }

  /** The top-level keys of a document that the schema does not declare. */
  function ExtraProperties(doc: Json, declared: seq<Property>): seq<string> {
    if doc.JObj? then Undeclared(Keys(doc.fields), declared) else []
  }

  /** Each key followed by the separator, as the detail loop accumulates them. */
  function Terminated(ks: seq<string>, sep: string): string {
    if ks == [] then "" else ks[0] + sep + Terminated(ks[1..], sep)
  }

  /** The keys separated by `sep`. */
  function Join(ks: seq<string>, sep: string): string {
    if ks == [] then "" else if |ks| == 1 then ks[0] else ks[0] + sep + Join(ks[1..], sep)
  }

  lemma {:induction false} TerminatedSnoc(ks: seq<string>, more: seq<string>, sep: string)
    ensures Terminated(ks + more, sep) == Terminated(ks, sep) + Terminated(more, sep)
  {
    if ks == [] {
      assert ks + more == more;
    } else {
      assert (ks + more)[1..] == ks[1..] + more;
      TerminatedSnoc(ks[1..], more, sep);
    }
  }

  /** Dropping the final separator from the accumulated string leaves the joined
      keys; nothing accumulates exactly when there are no keys. */
  lemma {:induction false} TerminatedJoin(ks: seq<string>, sep: string)
    requires sep != ""
    ensures ks == [] <==> Terminated(ks, sep) == ""
    ensures ks != [] ==> Terminated(ks, sep) == Join(ks, sep) + sep
  {
    if |ks| > 1 {
      TerminatedJoin(ks[1..], sep);
    }
  }

  /** One turn of the detail loop: an undeclared key adds itself and the
      separator, a declared one adds nothing. */
  lemma DetailStep(keys: seq<string>, i: nat, declared: seq<Property>)
    requires i < |keys|
    ensures Terminated(Undeclared(keys[..i + 1], declared), Separator) ==
      Terminated(Undeclared(keys[..i], declared), Separator) +
      (if FindProperty(declared, keys[i]).None? then keys[i] + Separator else "")
  {
    var before := Undeclared(keys[..i], declared);
    assert keys[..i + 1] == keys[..i] + [keys[i]];
    UndeclaredSnoc(keys[..i], keys[i], declared);
    if FindProperty(declared, keys[i]).None? {
      TerminatedSnoc(before, [keys[i]], Separator);
      assert Terminated([keys[i]], Separator) == keys[i] + Separator + "";
    } else {
      assert before + [] == before;
    }
  }

  /** The report with every `additionalProperties` entry's details replaced. */
  function Decorate(report: seq<ReportEntry>, detail: string): (r: seq<ReportEntry>)
    ensures |r| == |report|
    ensures forall i :: 0 <= i < |report| ==>
      r[i] == if report[i].attribute == "additionalProperties" then report[i].(details := detail) else report[i]
  {
    if report == [] then []
    else
      var e := report[|report| - 1];
      Decorate(report[..|report| - 1], detail) +
        [if e.attribute == "additionalProperties" then e.(details := detail) else e]
  }

  // ---------------------------------------------------------------------------

  class Schema {
    /** `_schema`: the input wrapped as the root object node. */
    const schema: Node
    /** `_jsonSchema`: the standard JSON Schema the validator is built from. */
    const jsonSchema: Node
    /** `_partialJsonSchema`: the same without `required` markers. */
    const partialJsonSchema: Node
    /** `name`, set when the options carry a non-empty one. */
    const name: Option<string>
    /** `_schema.properties`: the input object, `_id` included. */
    const properties: seq<Property>

    /** What the constructor establishes and every method relies on. */
    predicate Valid() {
      schema.kind == Object(Declared(properties)) &&
      jsonSchema == ToJsonSchema(schema) &&
      partialJsonSchema == ToPartialJsonSchema(jsonSchema)
    }

    /** `new Schema(input, options)`: inject `_id`, wrap, and derive both
        validator schemas. */
    constructor(input: seq<Property>, additionalProperties: bool, name: Option<string>)
      ensures schema == Wrap(input, additionalProperties)
      ensures jsonSchema == ToJsonSchema(schema)
      ensures partialJsonSchema == ToPartialJsonSchema(jsonSchema)
      ensures this.name == if name.Some? && name.value != "" then name else None
      ensures properties == WithId(input)
      ensures Valid()
    {
      var root := Wrap(input, additionalProperties);
      schema := root;
      properties := WithId(input);
      jsonSchema := ToJsonSchema(root);
      partialJsonSchema := ToPartialJsonSchema(ToJsonSchema(root));
      this.name := if name.Some? && name.value != "" then name else None;
    }

    /** `getJsonSchema()`: the rewritten schema, free of the extended kinds. */
    method GetJsonSchema() returns (s: Node)
      requires Valid()
      ensures s == jsonSchema && NoExtendedKinds(s)
    {
      s := jsonSchema;
    }

    /** The walk shared by `getObjectIdPaths` and `getDatePaths`: the paths, below
        `prefix`, at which kind `k` occurs in `node`. At an object node each
        property is examined in order: an object recurses, an array with items
        recurses into them below `'*'`, a property of kind `k` is a path. An array
        node adds one `'*'` and goes on with its items. */
    method Resolve(k: ExtendedKind, prefix: Path, node: Node) returns (paths: seq<Path>)
      ensures paths == Prepend(prefix, Paths(node, k))
      decreases node, 1
    {
      if node.kind.Object? {
        var props := node.kind.properties;
        var es: seq<Property> := if props.Declared? then props.entries else [];
        if props.Unspecified? {
          PathsNoProperties(node, k);
        }
        paths := [];
        var i := 0;
        while i < |es|
          invariant 0 <= i <= |es|
          invariant paths == Prepend(prefix, Paths(node.(kind := Object(Declared(es[..i]))), k))
        {
          var v := es[i];
          ghost var before := Paths(node.(kind := Object(Declared(es[..i]))), k);
          var sub := ResolveProperty(k, prefix, v, node);
          paths := paths + sub;
          PrependConcat(prefix, before, PropertyPaths(v, k));
          ObjectPathsSnoc(node, es[..i], v, k);
          assert es[..i + 1] == es[..i] + [v];
          i := i + 1;
        }
        assert es[..i] == es;
      } else if node.kind.Array? {
        // The source recurses with `schema.items` even when it is undefined,
        // which restarts the walk at the root (Resolver.ResolveAsWritten).
        var items := node.kind.items;
        if items.Some? {
          paths := Resolve(k, prefix + [Wildcard], items.value);
          PrependPrepend(prefix, [Wildcard], Paths(items.value, k));
        } else {
          paths := [];
        }
      } else if IsKind(node, k) {
        paths := [prefix];
        Prepend1(prefix, []);
        assert prefix + [] == prefix;
      } else {
        paths := [];
      }
    }

    /** The body of the loop over an object's properties (the `switch` on the
        property's type): the paths property `v` contributes below `prefix`. */
    method ResolveProperty(k: ExtendedKind, prefix: Path, v: Property, ghost parent: Node) returns (paths: seq<Path>)
      requires v.schema < parent
      ensures paths == Prepend(prefix, PropertyPaths(v, k))
      decreases parent, 0
    {
      var kind := v.schema.kind;
      if kind.Object? {
        paths := Resolve(k, prefix + [v.name], v.schema);
        PrependPrepend(prefix, [v.name], Paths(v.schema, k));
      } else if kind.Array? {
        if kind.items.Some? {
          paths := Resolve(k, prefix + [v.name, Wildcard], kind.items.value);
          assert prefix + [v.name, Wildcard] == prefix + [v.name] + [Wildcard];
          PrependPrepend(prefix + [v.name], [Wildcard], Paths(kind.items.value, k));
          PrependPrepend(prefix, [v.name], Paths(v.schema, k));
        } else {
          paths := [];
        }
      } else if IsKind(v.schema, k) {
        paths := [prefix + [v.name]];
        Prepend1([v.name], []);
        Prepend1(prefix, [v.name]);
        assert [v.name] + [] == [v.name];
      } else {
        paths := [];
      }
    }

    /** `getObjectIdPaths(prefix, schema)`; an absent schema means `_schema`. */
    method GetObjectIdPaths(prefix: Path, node: Option<Node>) returns (paths: seq<Path>)
      ensures paths == Prepend(prefix, Paths(if node.Some? then node.value else schema, IdKind))
    {
      paths := Resolve(IdKind, prefix, if node.Some? then node.value else schema);
    }

    /** `getDatePaths(prefix, schema)`; an absent schema means `_schema`. */
    method GetDatePaths(prefix: Path, node: Option<Node>) returns (paths: seq<Path>)
      ensures paths == Prepend(prefix, Paths(if node.Some? then node.value else schema, DateKind))
    {
      paths := Resolve(DateKind, prefix, if node.Some? then node.value else schema);
    }

    /** Fold `fn` over the paths of kind `k`, in order. */
    method ApplyAll(obj: Json, k: ExtendedKind, fn: Transform) returns (r: Result<Json, Error>)
      ensures r == FoldApply(obj, Paths(schema, k), fn)
    {
      var paths := Resolve(k, [], schema);
      PrependEmpty(Paths(schema, k));
      var cur := obj;
      for i := 0 to |paths|
        invariant FoldApply(obj, paths[..i], fn) == Ok(cur)
      {
        FoldApplyStep(obj, paths, i, fn, cur);
        var next := PathApply(cur, paths[i], fn);
        if next.Err? {
          FoldApplyStuck(obj, paths, i + 1, fn);
          return next;
        }
        cur := next.value;
      }
      assert paths[..|paths|] == paths;
      return Ok(cur);
    }

    /** `idsToStrings(obj)`. */
    method IdsToStrings(obj: Json) returns (r: Result<Json, Error>)
      ensures r == FoldApply(obj, Paths(schema, IdKind), IdToString)
      ensures UniqueKeys(schema) && r.Ok? ==>
        forall i :: 0 <= i < |Paths(schema, IdKind)| ==> AllReached(r.value, Paths(schema, IdKind)[i], IsString)
    {
      r := ApplyAll(obj, IdKind, IdToString);
      if UniqueKeys(schema) && r.Ok? {
        IdsToStringsGivesStrings(schema, obj, r.value);
      }
    }

    /** `stringsToIds(obj)`. */
    method StringsToIds(obj: Json, parseId: string -> Option<string>) returns (r: Result<Json, Error>)
      ensures r == FoldApply(obj, Paths(schema, IdKind), FromStrings(parseId))
      ensures UniqueKeys(schema) && r.Ok? ==>
        forall i :: 0 <= i < |Paths(schema, IdKind)| ==> AllReached(r.value, Paths(schema, IdKind)[i], IsObjectId)
    {
      r := ApplyAll(obj, IdKind, FromStrings(parseId));
      if UniqueKeys(schema) && r.Ok? {
        StringsToIdsGivesIds(schema, obj, parseId, r.value);
      }
    }

    /** `datesToStrings(obj)`: walk every date path with a callback that returns
        its argument and records a message for each value `isValidDate` rejects;
        throw them together at the end. */
    method DatesToStrings(obj: Json, isValidDate: Json -> bool) returns (r: Result<Json, Error>)
      ensures r == DatesOutcome(obj, Paths(schema, DateKind), isValidDate)
      ensures r.Ok? ==> r.value == obj
    {
      var paths := Resolve(DateKind, [], schema);
      PrependEmpty(Paths(schema, DateKind));
      var errs: seq<string> := [];
      var cur := obj;
      for i := 0 to |paths|
        invariant cur == obj
        invariant DateErrors(obj, paths[..i], isValidDate) == Ok(errs)
      {
        var next := PathApply(cur, paths[i], Keep);
        PathApplyIdentity(cur, paths[i], Keep);
        if next.Err? {
          DateErrorsStuck(obj, paths, i, isValidDate);
          return next;
        }
        DateErrorsStep(obj, paths, i, isValidDate, errs);
        errs := errs + DateProblems(isValidDate, Leaves(cur, paths[i]).value);
        cur := next.value;
      }
      assert paths[..|paths|] == paths;
      if errs != [] {
        return Err(DateValidation(errs));
      }
      return Ok(cur);
    }

    /** The document `validate` hands to the validator: a structural copy, checked
        for dates, with its ids turned into strings. */
    function Prepared(obj: Json, isValidDate: Json -> bool): (r: Result<Json, Error>)
      ensures DatesOutcome(Clone(obj), Paths(schema, DateKind), isValidDate).Err? ==>
        r == Err(DatesOutcome(Clone(obj), Paths(schema, DateKind), isValidDate).error)
      ensures r.Ok? ==> forall i :: 0 <= i < |Paths(schema, DateKind)| ==> ValidAt(Clone(obj), Paths(schema, DateKind)[i], isValidDate)
      ensures UniqueKeys(schema) && r.Ok? ==>
        forall i :: 0 <= i < |Paths(schema, IdKind)| ==> AllReached(r.value, Paths(schema, IdKind)[i], IsString)
    {
      var d :- DatesOutcome(Clone(obj), Paths(schema, DateKind), isValidDate);
      var r := FoldApply(d, Paths(schema, IdKind), IdToString);
      if UniqueKeys(schema) && r.Ok? then
        IdsToStringsGivesStrings(schema, d, r.value);
        r
      else r
    }

    /** The detail string of an `additionalProperties` report entry: the
        document's top-level keys that `_schema.properties` does not declare, in
        order, separated by ", ". */
    method ExtraPropertiesDetail(doc: Json) returns (details: string)
      ensures details == Join(ExtraProperties(doc, properties), Separator)
    {
      var keys := if doc.JObj? then Keys(doc.fields) else [];
      details := "";
      for i := 0 to |keys|
        invariant details == Terminated(Undeclared(keys[..i], properties), Separator)
      {
        DetailStep(keys, i, properties);
        if FindProperty(properties, keys[i]).None? {
          details := details + (keys[i] + Separator);
        }
      }
      assert keys[..|keys|] == keys;
      TerminatedJoin(Undeclared(keys, properties), Separator);
      if |details| > 0 {
        details := details[..|details| - 2];
      }
    }

    /** `validate(obj, validator)` against `target`: prepare the document, run the
        validator on it, and throw its report, with the `additionalProperties`
        entries given the extra keys as details, when it is not empty. */
    method Check(obj: Json, target: Node, validator: Validator, isValidDate: Json -> bool) returns (r: Result<(), Error>)
      requires Valid()
      ensures Prepared(obj, isValidDate).Err? ==> r == Err(Prepared(obj, isValidDate).error)
      ensures Prepared(obj, isValidDate).Ok? ==>
        var doc := Prepared(obj, isValidDate).value;
        var report := validator(target, doc);
        r == if report == [] then Ok(())
             else Err(SchemaValidation(Decorate(report, Join(ExtraProperties(doc, properties), Separator))))
    {
      var copy := Clone(obj);
      var dated := DatesToStrings(copy, isValidDate);
      if dated.Err? {
        return Err(dated.error);
      }
      var doc := IdsToStrings(dated.value);
      if doc.Err? {
        return Err(doc.error);
      }
      var report := validator(target, doc.value);
      if report == [] {
        return Ok(());
      }
      var detail := ExtraPropertiesDetail(doc.value);
      var errors := DecorateReport(report, detail);
      return Err(SchemaValidation(errors));
    }

    /** `report.errors.forEach(...)`: give each `additionalProperties` entry the
        detail string. */
    method DecorateReport(report: seq<ReportEntry>, detail: string) returns (errors: seq<ReportEntry>)
      ensures errors == Decorate(report, detail)
    {
      errors := [];
      for i := 0 to |report|
        invariant errors == Decorate(report[..i], detail)
      {
        var e := report[i];
        if e.attribute == "additionalProperties" {
          e := e.(details := detail);
        }
        assert report[..i + 1][..i] == report[..i];
        errors := errors + [e];
      }
      assert report[..|report|] == report;
    }

    /** `validate(obj)`: check against the standard schema. */
    method Validate(obj: Json, validator: Validator, isValidDate: Json -> bool) returns (r: Result<(), Error>)
      requires Valid()
      ensures r.Ok? <==> Prepared(obj, isValidDate).Ok? && validator(jsonSchema, Prepared(obj, isValidDate).value) == []
    {
      r := Check(obj, jsonSchema, validator, isValidDate);
    }

    /** `partialValidate(obj)`: check against the schema without `required`. */
    method PartialValidate(obj: Json, validator: Validator, isValidDate: Json -> bool) returns (r: Result<(), Error>)
      requires Valid()
      ensures r.Ok? <==> Prepared(obj, isValidDate).Ok? && validator(partialJsonSchema, Prepared(obj, isValidDate).value) == []
    {
      r := Check(obj, partialJsonSchema, validator, isValidDate);
    }
  }
}
