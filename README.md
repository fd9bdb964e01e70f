# mongoJsonSchema in Dafny

mongoJsonSchema is a schema layer for MongoDB records. A hand-written JSON
Schema can use two kinds that plain JSON Schema lacks: `objectid`, the driver's
`ObjectID`, and `date`. A `Schema` object built from such a schema does four
things:

- It injects an `_id` objectid property and wraps the input as the root
  object node.
- It compiles a standard JSON Schema. Extended kinds become strings with a hex
  or timestamp pattern.
- It derives a partial variant of that schema without `required` markers.
- It resolves the access paths of every objectid and every date position.

Along those paths it folds `pathApply` over a document. This turns ids into
strings and back (`idsToStrings`, `stringsToIds`) and collects date format
errors (`datesToStrings`). `validate` and `partialValidate` prepare a copy of the
document this way and hand it to an external validator. They then throw the
validator's report, with the `additionalProperties` entries given the
undeclared keys as details.

Modules, in dependency order:

- `Wrappers`: Option and Result.
- `Json`: the document values, field lookup and update, the `toString` of a
  value, and the serialize-and-parse clone.
- `SchemaTree`: schema nodes, paths, and the independence of a set of paths.
- `Compiler`: the constructor's `_id` injection, `toJsonSchema` and
  `toPartialJsonSchema`.
- `Resolver`: the path resolution shared by `getObjectIdPaths` and
  `getDatePaths`, as the specification function `Paths`.
- `PathApplier`: `pathApply` and its fold over a list of paths.
- `MongoSchema`: the callbacks and the `Schema` class. Its methods are proved
  against the functions above.

The key results:

- The resolved paths are exactly the positions of the kind sought, and they
  are pairwise independent.
- Folds over independent paths commute path by path. `stringsToIds` undoes
  `idsToStrings`, and both are idempotent.
- `datesToStrings` fails exactly when some date path holds an invalid value, or
  when the walk meets a null.
- `validate` succeeds exactly when the prepared document exists and the
  validator reports nothing.

## Behaviours of index.js worth knowing

The model follows index.js in each of these:

- `pathApply(null, [])` throws. The null check comes before the empty-path base
  case, so the base case does not apply the callback to null.
- The constructor always injects `_id` and wraps its input. This revision has no
  construction path that accepts a complete schema unchanged.
- `datesToStrings` converts nothing. Its callback returns each value as it is.
  The result is the document itself or an error.
- Values already in id form are not left untouched by `stringsToIds`. They are
  rebuilt, through `ObjectID(id.toString())`, as an id with the same hex string.

## Model

| member | source | states |
|---|---|---|
| Json.TruthyIsSet | index.js:167-169 | a truthy value is set: neither null nor undefined |
| Json.Update | index.js:196 | `obj[prop] = v` keeps every key in place, makes `prop` read `v`, leaves every other key as it was, and changes nothing when `prop` already holds `v` |
| Json.UpdateUpdate | index.js:196 | a second assignment to the same key overwrites the first |
| Json.UpdateCommute | index.js:196 | assignments to different keys commute |
| Json.ToStringCall | index.js:128 | `item.toString()` throws exactly on null; a string gives itself, an ObjectID its hex string |
| Json.Clone | index.js:56-58 | the copy has no ObjectID left: an id becomes its hex string; an array keeps its length; an object keeps its keys in order; a document without ids is copied unchanged |
| Json.CloneString | index.js:56-58 | the copy prints as the original: `toString` of a value and of its clone agree |
| Json.CloneLookup | index.js:56-58 | a key of the copy holds the copy of what it held, and a missing key stays missing |
| Compiler.WithId | index.js:13-15 | `input._id = {type: "objectid"}` makes `_id` look up the objectid node; every other name looks up the property it found before, at the same place; `_id` is added at the end only when it was absent |
| Compiler.WrapShape | index.js:13-20 | the root is an object node with the `additionalProperties` option; `["_id"]` leads to the objectid node; every other name leads where it led in the input |
| Compiler.ToJsonSchema | index.js:28-40 | every node the model carries is rewritten on its own: objectid and date become strings with their patterns, and `required` and `additionalProperties` are kept; no extended kind is left |
| Compiler.ToJsonSchemaAt | index.js:28-40 | the rewrite moves nothing: the node at any path of the result is the rewrite of the node at that path of the input |
| Compiler.ToPartialJsonSchema | index.js:42-50 | a truthy `required` is removed from every node the model carries and its other keywords are kept; no `required` is left |
| Compiler.ToPartialJsonSchemaAt | index.js:42-50 | the partial rewrite moves nothing either |
| Compiler.ToPartialJsonSchemaIdentity | index.js:42-50 | a tree without `required` markers is left exactly as it is |
| Compiler.ToPartialJsonSchemaIdempotent | index.js:42-50 | deriving the partial schema twice gives the same as once |
| Compiler.PartialKeepsStandard | index.js:22-23 | the partial schema of the standard schema still has no extended kinds |
| Compiler.PartialAsWrittenDropsProperty | index.js:43-46 | as written, the traversal deletes an object's property named "required", which the corrected rewrite keeps |
| Compiler.PartialAsWritten | index.js:42-50 | the as-written partial rewrite leaves no truthy `required` marker either |
| Compiler.PartialAsWrittenAgrees | index.js:42-50 | on a tree where no property is named "required", the as-written rewrite is the corrected one |
| Compiler.RequiredFieldDropped | index.js:42-50 | for a record with a string field named "required", the as-written partial schema loses that field and the corrected one keeps it |
| Resolver.PathsSound | index.js:202-296 | every resolved path leads to a node of the kind sought |
| Resolver.PathsComplete | index.js:202-296 | every path that leads to a node of the kind sought is resolved |
| Resolver.PathsExact | index.js:202-296 | a path is resolved if and only if it leads to a node of the kind sought |
| Resolver.PathsEmpty | index.js:243-245 | a tree yields no paths if and only if the kind occurs nowhere in it |
| Resolver.PathsHeads | index.js:215-231 | every path of an object starts with the name of a property below which the kind occurs |
| Resolver.PathsNoProperties | index.js:212-215 | an object without `properties` yields no paths |
| Resolver.PathsIndependent | index.js:215-231 | with unique property names, any two resolved paths diverge: no path is a prefix of another |
| Resolver.ObjectPathsSnoc | index.js:215-231 | adding a property at the end adds its paths at the end, in declaration order |
| Resolver.LeafPropertyPaths | index.js:227-229 | a property of the kind sought is the path `[name]`; another leaf gives nothing |
| Resolver.ArrayPropertyPaths | index.js:221-226 | an array of leaves of the kind sought gives `[name, "*"]` |
| Resolver.ArrayItemsPaths | index.js:238-241 | an array node adds one `"*"` before its items' paths |
| Resolver.SingleProperty | index.js:215-231 | an object with one property has that property's paths |
| Resolver.ObjectPaths4 | index.js:215-231 | an object of four properties has their paths in order |
| Resolver.SharedNestedPaths | test/index.js:26-33 | the nested object's objectid resolves to `["nested", "sub"]` |
| Resolver.SharedInputPaths | test/index.js:25-47 | the shared test schema's input resolves to `["nested","sub"]`, `["participants","*"]` for ids and `["date"]` for dates |
| Resolver.SharedSchemaPaths | test/index.js:122-129 | the shared schema's objectid paths are `[["nested","sub"],["participants","*"],["_id"]]` and its date paths `[["date"]]` |
| Resolver.NestedArrayOfIds | test/index.js:75-90 | an array of arrays of ids resolves to `[["arr","*","*"],["_id"]]` |
| Resolver.IdPathAlways | index.js:13-15 | `["_id"]` is always an objectid path of a constructed schema |
| Resolver.IdPathLast | index.js:13-15 | without an input `_id`, the injected one comes last among the objectid paths and adds no date path |
| Resolver.WrapUniqueKeys | index.js:13-20 | wrapping keeps property names unique |
| Resolver.ResolveAsWritten | index.js:202-248 | the resolver as written, with a stack bound: every path it returns starts with the prefix it was given |
| Resolver.PropertiesAsWritten | index.js:213-232 | the property loop as written: every path it returns starts with the prefix |
| Resolver.PropertyAsWritten | index.js:216-230 | one property's `switch` as written: every path it returns starts with the prefix |
| Resolver.AsWrittenAgrees | index.js:202-248 | on a tree where every array reached through the root-level array case has `items`, the resolver as written, where it returns, gives the corrected `Paths` with the prefix in front |
| Resolver.NestedBareArrayDiverges | index.js:206-208 | as written, an array whose items are an array without `items` makes resolution recurse without end, whatever the stack budget |
| Resolver.NestedBareArrayCorrected | index.js:238-241 | the corrected resolver gives `[["_id"]]` for that schema |
| Resolver.StandardHasNoPaths | index.js:28-40 | the standard schema has no objectid or date positions left |
| Resolver.NoExtendedNoOccurs | index.js:28-40 | a tree without extended kinds has no position of either kind |
| Resolver.StandardKeepsPositions | index.js:30-35 | every objectid path leads, in the standard schema, to a string with the hex pattern, and every date path to one with the timestamp pattern |
| Resolver.PartialSamePaths | index.js:42-50 | dropping `required` markers changes no resolved path |
| PathApplier.PathApply | index.js:171-200 | on a non-empty path the result has the same shape at the top as the input |
| PathApplier.MapApply | index.js:186-191 | the mapped array has as many elements as the input |
| PathApplier.SameTopTruthy | index.js:195-196 | a value of the same shape keeps its truthiness |
| PathApplier.Leaves | index.js:174-198 | the values the callback is called on are all set; the walk fails only with the null argument error |
| PathApplier.LeavesAll | index.js:186-191 | the same for every element of an array |
| PathApplier.MapApplyOk | index.js:186-191 | the mapped array is the callback walk of each element, element by element |
| PathApplier.WildcardOnArray | index.js:184-192 | `"*"` on an array maps the rest of the path over every element |
| PathApplier.PathApplyOkIff | index.js:171-200 | `pathApply` succeeds if and only if the walk meets no null and the callback succeeds on every value it reaches |
| PathApplier.MapApplyOkIff | index.js:186-191 | the same for every element |
| PathApplier.PathApplyLocal | index.js:171-200 | two callbacks that agree on the values reached give the same result |
| PathApplier.MapApplyLocal | index.js:186-191 | the same for every element |
| PathApplier.PathApplyIdentity | index.js:171-200 | a callback that returns its argument gives the document back, or the argument error |
| PathApplier.MapApplyIdentity | index.js:186-191 | the same for every element |
| PathApplier.PathApplyFrame | index.js:193-198 | a path through key `p` keeps the object's keys and leaves every other key's value as it was |
| PathApplier.PathApplyIdempotent | index.js:171-200 | a callback that is the identity on its results makes `pathApply` idempotent |
| PathApplier.PathApplyInverse | index.js:171-200 | when `g` undoes `f` on every value reached, applying `f` then `g` gives the document back |
| PathApplier.MapApplyInverse | index.js:186-191 | the same for every element |
| PathApplier.PathApplyCommute | index.js:171-200 | walks along two diverging paths commute |
| PathApplier.CommuteApart | index.js:193-198 | paths through different keys of an object commute |
| PathApplier.CommuteInArray | index.js:184-192 | paths that both pass `"*"` over one array commute |
| PathApplier.CommuteInObject | index.js:193-198 | paths that both pass one key of an object commute |
| PathApplier.TailsDiverge | index.js:183 | after the shared first segment is consumed, the rest of two diverging paths still diverge |
| PathApplier.PathApplyReached | index.js:171-200 | when every result of the callback is set and has a property `P`, every value the walk reaches in the result has `P` |
| PathApplier.MapApplyReached | index.js:186-191 | the same for every element |
| PathApplier.LeavesKept | index.js:183-198 | applying along one path leaves the values reached along a diverging path as they were |
| PathApplier.FoldApplyReached | index.js:126-130 | over independent paths, when every result of the callback has `P`, every value reached along every path of the folded document has `P` |
| PathApplier.FoldApplySameTop | index.js:126-130 | a fold over non-empty paths keeps the document's kind, its array length and its keys in order |
| PathApplier.FoldApply | index.js:126-130 | the `paths.forEach` that threads the document through `pathApply` path by path, stopping at the first error; the same fold serves index.js:137-141 and 149-157; its content is stated by the FoldApply lemmas below |
| PathApplier.FoldApplyFixed | index.js:126-130 | a fold whose callback returns every value with a property `P` as it is gives the document back when every walk meets no null and reaches only such values |
| PathApplier.FoldApplyFrame | index.js:126-130 | a fold over paths none of which starts with `k` keeps the keys and the value at `k` |
| PathApplier.FoldApplyIdentity | index.js:149-157 | folding a callback that returns its argument gives the document back exactly when no walk meets a null, and the argument error otherwise |
| PathApplier.FoldApplyCommute | index.js:126-130 | a path that diverges from every path of a fold commutes with the whole fold |
| PathApplier.FoldApplyInverse | index.js:123-143 | over independent paths, a fold undone at every value reached is undone by the reverse fold |
| PathApplier.FoldApplyIdempotent | index.js:123-143 | over independent paths, a callback that is the identity on its results gives an idempotent fold |
| MongoSchema.IdToString | index.js:127-129 | the callback fails exactly on null and otherwise gives a string: an ObjectID's hex string, or the string itself |
| MongoSchema.StringToId | index.js:138-140 | the callback gives only ObjectIDs: null throws the `toString` error; a string gives the id the driver reads from it or the driver's error; an id is rebuilt from its hex string |
| MongoSchema.IdsToStringsGivesStrings | index.js:123-132 | with unique property names, after `idsToStrings` every value reached along every objectid path is a string |
| MongoSchema.StringsToIdsGivesIds | index.js:134-143 | with unique property names, after `stringsToIds` every value reached along every objectid path is an ObjectID |
| MongoSchema.IdRoundTrip | index.js:123-143 | on an id the driver reads back from its own hex string, `ObjectID(id.toString())` undoes `id.toString()` |
| MongoSchema.IdToStringStable | index.js:127-129 | the string the callback returns maps to itself |
| MongoSchema.IdsRoundTrip | index.js:123-143 | `stringsToIds(idsToStrings(obj))` gives `obj` back when every objectid position holds such an id |
| MongoSchema.IdsToStringsKeepsStrings | index.js:123-132 | a document that already holds only strings at every objectid path, with no null on the way, comes back from `idsToStrings` unchanged |
| MongoSchema.IdsToStringsIdempotent | index.js:123-132 | `idsToStrings` is idempotent |
| MongoSchema.StringsToIdsIdempotent | index.js:134-143 | `stringsToIds` is idempotent when the driver reads every id it builds back as itself |
| MongoSchema.IdFoldFrame | test/index.js:569-589 | the id folds keep the document's keys and leave alone every top-level field below which no objectid is declared, such as `count: 42` |
| MongoSchema.InvalidDates | index.js:151 | the values the date check rejects: exactly those of the values reached that are not valid dates |
| MongoSchema.DateProblems | index.js:150-155 | no message is recorded if and only if every value is a valid date |
| MongoSchema.DateProblemsMessages | index.js:150-155 | one message per rejected value, in order, each "Incorrect date format - got " followed by the value's `toString` |
| MongoSchema.DateErrors | index.js:145-157 | the collection fails only with the null argument error |
| MongoSchema.DateErrorsFail | index.js:145-157 | the collection fails if and only if some path's walk meets a null |
| MongoSchema.DateErrorsNone | index.js:145-158 | no message is collected if and only if every path leads only to valid dates |
| MongoSchema.DateErrorsAllValid | index.js:149-157 | the same, stated path by path from the last |
| MongoSchema.AllValidEach | index.js:149-157 | that path-by-path condition holds if and only if every path is valid |
| MongoSchema.DateErrorsLast | index.js:149-157 | the last path adds no message if and only if it is valid |
| MongoSchema.DatesOutcome | index.js:145-165 | `datesToStrings` succeeds if and only if every date path leads to valid dates without meeting a null, and then returns the document unchanged |
| MongoSchema.Undeclared | index.js:76-80 | a key is listed if and only if it is in the document and not declared |
| MongoSchema.UndeclaredSnoc | index.js:76-80 | one more key adds itself when undeclared and nothing otherwise |
| MongoSchema.TerminatedSnoc | index.js:78 | accumulating keys with their separator distributes over concatenation |
| MongoSchema.TerminatedJoin | index.js:81-83 | removing the last separator from the accumulated string gives the keys joined by ", " |
| MongoSchema.DetailStep | index.js:76-80 | one turn of the detail loop adds an undeclared key with its separator and nothing for a declared one |
| MongoSchema.Decorate | index.js:72-75 | exactly the `additionalProperties` entries get the detail string; every other entry is kept |
| MongoSchema.Schema.constructor | index.js:7-26 | the stored schema is the wrapped input; the standard and partial schemas derive from it; a name is stored only when non-empty |
| MongoSchema.Schema.GetJsonSchema | index.js:52-54 | the stored standard schema, which has no extended kinds |
| MongoSchema.Schema.Resolve | index.js:202-248 | the paths found below `prefix` are `Paths` of the node with `prefix` in front |
| MongoSchema.Schema.ResolveProperty | index.js:215-231 | one property contributes its paths with `prefix` in front |
| MongoSchema.Schema.GetObjectIdPaths | index.js:202-248 | the objectid paths of the given node, or of the root when none is given |
| MongoSchema.Schema.GetDatePaths | index.js:250-296 | the date paths of the given node, or of the root when none is given |
| MongoSchema.Schema.ApplyAll | index.js:123-143 | the loop computes the fold of `pathApply` over the resolved paths, stopping at the first error |
| MongoSchema.Schema.IdsToStrings | index.js:123-132 | the fold of the id-to-string callback over the objectid paths; with unique property names, every objectid position of the result holds a string |
| MongoSchema.Schema.StringsToIds | index.js:134-143 | the fold of the string-to-id callback over the objectid paths; with unique property names, every objectid position of the result holds an ObjectID |
| MongoSchema.Schema.DatesToStrings | index.js:145-165 | the outcome `DatesOutcome` states, and on success the document unchanged |
| MongoSchema.Schema.Prepared | index.js:61-63 | the copy, date-checked and with ids turned to strings: a date error comes through; on success every date path of the copy is valid, and with unique property names every objectid position holds a string |
| MongoSchema.Schema.ExtraPropertiesDetail | index.js:74-83 | the document's undeclared top-level keys, in order, joined by ", " |
| MongoSchema.Schema.DecorateReport | index.js:72-109 | the report with its `additionalProperties` entries decorated |
| MongoSchema.Schema.Check | index.js:60-113 | the date or argument error of the preparation; otherwise success on an empty report, and else the decorated report |
| MongoSchema.Schema.Validate | index.js:115-117 | succeeds if and only if the document prepares and the standard schema's validator reports nothing |
| MongoSchema.Schema.PartialValidate | index.js:119-121 | succeeds if and only if the document prepares and the partial schema's validator reports nothing |

## Left out

- The JSON Schema validator (the JSV library) is a parameter `(schema, document) -> report`. Its checks are not modelled.
- The `type` and `pattern` report decorations (index.js:84-108) are left out. They walk the document along a URI and print JavaScript `typeof` names, and they swallow exceptions to the console. Only the `additionalProperties` detail is modelled.
- The error message strings that name the schema are left out; errors are constructors of `Error`. The date messages are kept with their exact prefix.
- `pretty` and testHelpers.js are not part of this model.
- The driver's `ObjectID(text)` is a parameter `parseId`: the hex string of the id it builds, or None when it throws. Its 12-byte and 24-hex-digit rules are not modelled.
- `new Date(item)` validity is a parameter `isValidDate`.
- The source mutates the caller's document and schema in place. Both are modelled as values, so aliasing between the argument and the result is not captured. This covers `input._id = ...`, `obj[prop] = ...`, the `path.shift()` inside `pathApply`, the `prefix.push('*')` of the root-level array case (index.js:240, 288), which changes the prefix array a caller passes to `getObjectIdPaths` or `getDatePaths`, and `traverse(...).map` on the compiler's copy.
- A schema node carries only `type`, `properties`, `items`, `required`, `additionalProperties` as a boolean, and `pattern`. A union type (`type: [...]`) is a list of names with no children, so the `items` or `properties` of a union node (as in test/index.js:452-459), a schema-valued `additionalProperties` and all other keywords are not modelled. Neither `toJsonSchema` nor `toPartialJsonSchema` is captured below such nodes, although both traversals (index.js:29-38, 43-47) visit them.
- The path argument is typed as a sequence of strings, so the `!_.isArray(path)` error (index.js:177-179) cannot arise.
- Property access on values other than plain objects is left out. Indexing an array or a string by a property name, and lookups that reach the prototype chain (as in `_schema.properties[property]` and `obj[prop]`), are read as "absent".
- A document field literally named `"*"` is not distinguished from the wildcard. The source has the same collision.
- JavaScript's enumeration order puts integer-like keys first; keys are kept in insertion order here.
- Numbers are integers.
- Date objects are not document values. In `validate` and `partialValidate` the serialize-and-parse clone turns them into strings first. A Date passed directly to `idsToStrings`, `stringsToIds` or `datesToStrings` is not modelled.
- MongoSchema.Schema.constructor: the partial schema is the corrected `toPartialJsonSchema` (`Compiler.ToPartialJsonSchema`), which keeps a property named "required". The code as written drops it (see Findings, `Compiler.PartialAsWritten`).
- MongoSchema.Schema.Resolve: this is the corrected resolver. An array node without `items` gives no paths; the code as written restarts from the root schema there and never returns (see Findings, `Resolver.ResolveAsWritten`).
- Resolver.ResolveAsWritten: the call stack is a `fuel` bound. None stands for a stack overflow.
- `Schema(input, options)` called without `new` is the same construction, so it is not modelled separately.

## Findings

| source | as written | input that shows it | evidently intended | confidence | as-written member | corrected member |
|---|---|---|---|---|---|---|
| index.js:238-241 | the root-level `array` case recurses with `schema.items` even when it is undefined, and the `!schema` default (index.js:206-208) then restarts from the root schema | `Schema({arr: {type: 'array', items: {type: 'array'}}}).getObjectIdPaths()` never returns | an array without `items` contributes no paths, as the property-level case (index.js:222) already does, giving `[["_id"]]` | not executed | Resolver.NestedBareArrayDiverges | Resolver.NestedBareArrayCorrected |
| index.js:43-46 | `traverse(schema).map` visits every value, including each `properties` map, where `value.required` is the property NAMED "required", and deletes it | `Schema({required: {type: 'string'}})`: the partial schema no longer declares `required`, so `partialValidate({required: 'x'})` reports an additional property | only the boolean `required` markers of schema nodes are removed | not executed | Compiler.PartialAsWrittenDropsProperty | Compiler.ToPartialJsonSchema |
