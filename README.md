# appmetrics-elk: a Dafny model of the connector's core

appmetrics-elk connects a Node.js metrics emitter to an Elasticsearch
datastore and a Kibana UI. This project models the deterministic core of
`lib/appmetrics-elk.js`:

- **the bulk buffer** (`Publisher`): `publishData` appends an action header
  and an envelope document to `bulkarray`, and the 5-second interval hands the
  whole array to one bulk write when it is not empty, then starts a fresh one.
  `BulkBuffer` is a class whose `bulk` field the methods reassign. A ghost list
  of publications ties the buffer to a specification function. `Run` replays
  any sequence of publications and ticks, and shows that every document goes
  to exactly one bulk write, in order, or is still buffered;
- **event reshaping** (`Events`): the fixed reshape of `memory` events, and the
  projection of every other event type onto the property names its mapping
  document declares;
- **version gating** (`Version`): the datastore's major version is the number
  before the first `.` of its version string. Field types are backported for
  major version 2 or lower. Saved UI documents are backported for major
  version 5 or lower;
- **the legacy field-type backport** (`FieldTypes`): `backportFieldTypes` on a
  mapping tree, both as a function and as a method that loops over keys the
  way the source does. The model also covers the `putMappings` callback
  (`mapping.index = index`, then the gated backport);
- **the saved-document backport** (`KibanaDocs`): `backportKibanaDoc`, the
  id and title stamping of index patterns in `putIndexes`, and the gated
  preparation of dashboards and charts.

JavaScript values are the datatype `JsValues.Value`: undefined, null,
booleans, integers, strings, arrays, objects as maps, and an opaque `Date`.
Reading a property of null or undefined is a `TypeError`. So is writing a
property of a primitive, because the file is in strict mode. A coercion the
model does not follow gives `Unsupported`, for example a non-string
`body.type` used as a property name.

The source updates documents in place. The model does this in two ways:

- as functions on values, which the lemmas are about;
- as methods that do the same updates statement by statement (`RewriteLoop`,
  `Project`, `BackportKibanaDoc`, `PutIndexPattern`, `BulkBuffer`). Each
  method is proved equal to its function. `BackportKibanaDoc` also shows the
  partial update left behind when it throws halfway.

## Model

| member | source | states |
|---|---|---|
| `Publisher.Envelope` | lib/appmetrics-elk.js:86-93 | The document has exactly the keys type, @timestamp, host, pid, app and the event type. The payload sits under the event type and wins over a fixed key of the same name. Each fixed key holds its value unless the payload overwrote it. The document is never the action header. |
| `Publisher.BatchLength` | lib/appmetrics-elk.js:94 | After n publications the buffer holds exactly 2n entries, so its length stays even. |
| `Publisher.BatchAt` | lib/appmetrics-elk.js:84-95 | Entry 2i of the buffer is the action header `{index:{}}`. Entry 2i+1 is the envelope of the i-th publication, so call order is kept. |
| `Publisher.BatchAppend` | lib/appmetrics-elk.js:94 | Publishing a then b fills the buffer with the batch of a followed by the batch of b. |
| `Publisher.BulkBuffer.constructor` | lib/appmetrics-elk.js:30 | The buffer starts empty, with the index and the origin (host, pid, app) fixed. |
| `Publisher.BulkBuffer.PublishData` | lib/appmetrics-elk.js:84-95 | Appends the action header, then the envelope, to the end of the buffer. Earlier entries are untouched and the buffer invariant is kept. |
| `Publisher.BulkBuffer.Tick` | lib/appmetrics-elk.js:71-76 | An empty buffer issues no write. A non-empty buffer issues one write with the configured index, type "doc" and the whole buffer in order. Either way the buffer is empty afterwards. |
| `Publisher.Run` | lib/appmetrics-elk.js:71-95 | For any sequence of publications and ticks, the written bodies in order, followed by what is still buffered, equal the batch of every publication. No document is lost or sent twice. Every write has the configured index, type "doc" and a non-empty body. |
| `Events.OnMemory` | lib/appmetrics-elk.js:38-51 | A memory event is published as type "memory" with the event's time. It throws exactly when the payload is null or undefined. |
| `Events.MemoryReadingsRelocated` | lib/appmetrics-elk.js:39-49 | The memory data holds `process` {private, physical, virtual} and `system` {physical, total}, and nothing else. `physical_used` and `physical_total` are renamed to physical and total under `system`. |
| `Events.DeclaredKeys` | lib/appmetrics-elk.js:57-58 | Reading `body.properties[type].properties` throws a TypeError exactly when the mapping or a value on that path is null or undefined. When the value read is an object, the declared names are its keys. A boolean, number or date declares no names. It succeeds only for an object mapping. |
| `Events.Project` | lib/appmetrics-elk.js:56-60 | The loop builds data whose keys are exactly the declared names, each holding the event's value (undefined where the event lacks it). Undeclared event properties are dropped. |
| `Events.OnDeclared` | lib/appmetrics-elk.js:55-62 | A declared event publishes the projection with its type and time. It fails exactly when the mapping's declared properties cannot be read or the event is null or undefined. |
| `Events.OnEvent` | lib/appmetrics-elk.js:53-64 | "memory" always goes to the memory listener, even when a mapping for it exists. Any other name has a listener exactly when a mapping document has that name. |
| `Events.MemoryExample` | lib/appmetrics-elk.js:38-51 | A concrete memory event is reshaped into exactly the expected object. |
| `Events.HttpExample` | lib/appmetrics-elk.js:53-62 | An http event with an undeclared extra property is published with the declared property alone. |
| `Version.MajorPrefix` | lib/appmetrics-elk.js:122 | `split('.')[0]` is a dot-free prefix of the version string that stops at the first dot. |
| `Version.Number` | lib/appmetrics-elk.js:122 | A digit string, and only a digit string, converts to a number. The empty string is 0. |
| `Version.ParseMajorOfDotted` | lib/appmetrics-elk.js:122 | Parsing the version string "major.rest" gives back major, whatever rest is. |
| `Version.GatesOfDotted` | lib/appmetrics-elk.js:176-189 | For version "major.rest", field types are backported iff major <= 2 and saved documents iff major <= 5. |
| `Version.NonNumericMajorSkipsBackports` | lib/appmetrics-elk.js:122 | In this model a major part that is not a digit string is NaN, so neither backport runs (see "Left out" for the forms JavaScript still converts). |
| `FieldTypes.BackportFieldTypes` | lib/appmetrics-elk.js:238-258 | The backport as written. A falsy mapping is returned as it is. With a truthy `body`, it rewrites `body.properties` and changes nothing else; without `properties` it returns the mapping unchanged. A completed rewrite keeps the field names at every level, down through `body.properties` and the properties of nested fields. |
| `FieldTypes.BackportMapping` | lib/appmetrics-elk.js:238-258 | The corrected backport, with the same guarantees. With a truthy `body`, it rewrites the fields of `body.properties` with `body` no longer special, and changes nothing else. Field names are kept at every level. |
| `FieldTypes.RewriteLoop` | lib/appmetrics-elk.js:243-257 | The loop over keys that rewrites and writes back one field at a time computes exactly the recursive rewrite. This includes throwing at the first null or undefined field. |
| `FieldTypes.RewriteFieldStep` | lib/appmetrics-elk.js:244-256 | The `switch (value.type)` on one field computes exactly the per-field rewrite. |
| `FieldTypes.FieldTypeRules` | lib/appmetrics-elk.js:245-256 | Per-type rules. keyword gets type "string" and index "not_analyzed". text gets type "string" and no index. nested gets its properties rewritten. Every other key and every other field is unchanged. |
| `FieldTypes.NullishFieldThrows` | lib/appmetrics-elk.js:244-245 | A field whose value is null or undefined makes the rewrite throw. |
| `FieldTypes.DefinedRewriteOk` | lib/appmetrics-elk.js:238-258 | A mapping with no null or undefined anywhere is rewritten without throwing. |
| `FieldTypes.RewriteFieldKeepsTruthiness` | lib/appmetrics-elk.js:244-256 | A rewritten field value is truthy exactly when the original was. |
| `FieldTypes.BackportFieldTypesIdempotent` | lib/appmetrics-elk.js:238-258 | Applying the backport as written twice gives the same mapping as applying it once. |
| `FieldTypes.BackportMappingIdempotent` | lib/appmetrics-elk.js:238-258 | Applying the corrected backport twice gives the same mapping as applying it once. |
| `FieldTypes.AsWrittenAgreesWithCorrected` | lib/appmetrics-elk.js:240-242 | When no field level has a truthy `body` key, the as-written and the corrected backport give the same result. |
| `FieldTypes.BodyFieldSkipsSiblings` | lib/appmetrics-elk.js:240-241 | As written, a mapping whose properties include a field named `body` comes back unchanged. Its `text` sibling stays `text`. |
| `FieldTypes.BodyFieldRewrittenWhenCorrected` | lib/appmetrics-elk.js:240-241 | The corrected backport rewrites both fields of that same mapping. |
| `FieldTypes.CorrectedRewritesEveryField` | lib/appmetrics-elk.js:243-256 | The corrected backport applies the per-type rules to every field of `body.properties`, whatever the field's name. |
| `FieldTypes.PreparedMapping` | lib/appmetrics-elk.js:174-178 | The mapping gets `index` set to the index name. When major <= 2 it then gets the corrected backport, and otherwise nothing more. Writing to null, undefined or a primitive throws. The top-level keys are those of the mapping plus `index`. |
| `FieldTypes.PreparedMappingAsWritten` | lib/appmetrics-elk.js:174-178 | On every mapping with no field named `body`, the prepared mapping is what the backport as written gives, which is what the source calls. |
| `FieldTypes.PreparedMappingBackportsFields` | lib/appmetrics-elk.js:176-177 | For major <= 2, every keyword field of the prepared mapping becomes type "string" with index "not_analyzed", and every text field becomes type "string". |
| `FieldTypes.RewriteSameNames` | lib/appmetrics-elk.js:243-248 | A completed rewrite adds or removes no field name at any level of the tree. |
| `FieldTypes.BackportKeepsOtherTopLevel` | lib/appmetrics-elk.js:175-177 | The backport never changes a top-level property that is neither `body` nor an object, so the stamped `index` survives it. |
| `FieldTypes.DefinedMappingPrepared` | lib/appmetrics-elk.js:174-178 | A mapping object without null values is always prepared without throwing. |
| `KibanaDocs.Slice` | lib/appmetrics-elk.js:231 | `id.slice(n)` is what remains after the first n characters, or empty when n reaches the end. |
| `KibanaDocs.BackportedDoc` | lib/appmetrics-elk.js:226-233 | Succeeds exactly when `body` is an object, `body.type` a string and `id` a string. The result's keys are the document's plus type, id and body. Every other property is unchanged. |
| `KibanaDocs.BackportEffect` | lib/appmetrics-elk.js:227-232 | type becomes the old `body.type`. Exactly `body.type.length + 1` leading characters are stripped from id. body becomes the old `body[body.type]`. |
| `KibanaDocs.BackportStripsTypePrefix` | lib/appmetrics-elk.js:228-231 | An id of the form `type + ":" + rest` comes back as rest. |
| `KibanaDocs.BackportTo5` | lib/appmetrics-elk.js:223-233 | The backport turns the 6.x form of any saved document into its 5.x form. |
| `KibanaDocs.StampedIndexPattern` | lib/appmetrics-elk.js:187-188 | Sets id to "index-pattern:" + index and the inner title to index. It succeeds exactly when `body[body.type]` is an object. Nothing else changes: not the document's other properties, not the other properties of `body`, and not the other attributes. |
| `KibanaDocs.PreparedIndexPattern` | lib/appmetrics-elk.js:186-191 | When major <= 5 the result is the backport of the stamped document. Otherwise it is the stamped document. It fails exactly when stamping fails, with the same error. |
| `KibanaDocs.IndexPatternIdRoundTrip` | lib/appmetrics-elk.js:187-190 | For an index pattern with major <= 5, the backport undoes the id prefix. The result has id index, type "index-pattern" and title index. |
| `KibanaDocs.PreparedSavedObject` | lib/appmetrics-elk.js:199-202 | Dashboards and charts are backported exactly when major <= 5, and are otherwise unchanged. |
| `KibanaDocs.BackportKibanaDoc` | lib/appmetrics-elk.js:226-233 | The statements on the document in place reach the backported document, or throw the same error. A throw leaves `type` already set, unless `body` was null or undefined. |
| `KibanaDocs.PutIndexPattern` | lib/appmetrics-elk.js:186-191 | The statements on the document in place reach the prepared index pattern, or throw the same error. The id stamp has already happened when they throw. |
| `JsValues.Read` | lib/appmetrics-elk.js:57 | Reading a property throws exactly on null and undefined. Otherwise it gives the own property, and undefined on anything but an object. |

## Left out

- Datastore client calls are not modelled: `search`, `indices.create`, `indices.exists`, `indices.putMapping`, `index`, `bulk`, `info` and the promise chain that orders them (lib/appmetrics-elk.js:107-147). They are remote I/O. A bulk write is the `BulkRequest` that `Tick` hands out, and the prepared documents are the values the writes would carry.
- Reading fixture directories (`getJSONfromDir`) and `JSON.parse` are not modelled. Mapping and saved documents are input values; a mapping catalog is a map from file base name to document.
- The `setInterval` timer and the interleaving of asynchronous callbacks are not modelled. A tick is an explicit `Tick` call, and `Run` takes any interleaving of publications and ticks as a list.
- `os.hostname()`, `process.pid`, `opts.app` and `new Date(time)` are parameters. `Date` is an opaque value.
- The `searchSourceJSON` rewrite in `putCharts` (lib/appmetrics-elk.js:211-213) is JSON text round-tripping. `putCharts` is called without its `index` argument at lib/appmetrics-elk.js:132. Only the gated backport of charts is modelled (`PreparedSavedObject`).
- Logging, and the swallowing of failed writes, are not modelled. They have no data effect: the buffer is already empty when a bulk write fails.
- Option merging with defaults (lib/appmetrics-elk.js:23-26) is not modelled. The index name and the app are parameters.
- `Version.NonNumericMajorSkipsBackports` holds of the model only. JavaScript also converts majors such as " 2", "+2", "0x2" and "2e0" to 2, and then runs the backports. The model treats them as NaN.
- `Version.Number` covers only digit strings: whitespace, signs, exponents and hexadecimal forms are not modelled. Fractions, NaN arithmetic and floating point are not modelled either, since numbers are integers.
- The order of object keys is not modelled, because objects are maps. So the order in which the key loops visit fields is not fixed. The loops are proved correct for any order.
- Built-in properties of primitives and arrays (`length`, array indices) are not read through `Get`. The coercions the connector would need from them give `Unsupported`. These are: a non-string `body.type`, a non-string `id` that is an array, arrays or strings as a declared `properties` object, arrays or dates as index-pattern attributes, and array or date mapping documents.
- Aliasing is not modelled: the field-type backport works on values, while the source mutates nested objects shared with the caller. For saved documents only the top-level object is updated in place (`JsObject`). Its nested objects are values.
- `KibanaDocs.BackportEffect` strips `|type| + 1` characters, counting Unicode code points. JavaScript's `length` and `slice` count UTF-16 code units. The two differ for a type name outside the Basic Multilingual Plane. The same holds for `KibanaDocs.BackportedDoc` and `KibanaDocs.Slice`. Strings are sequences of code points throughout the model.
- JSON serialisation of the bulk body (for example, dropping undefined properties) is not modelled; undefined stays a value.

## Findings

| source | as written | input that shows it | evidently intended | confidence | as-written member | corrected member |
|---|---|---|---|---|---|---|
| lib/appmetrics-elk.js:240-241 | `mapping.body` is checked at every level of the recursion, including the properties objects of `body` and of nested fields | `{body: {properties: {body: {type: "keyword"}, name: {type: "text"}}}}`: the field named `body` is taken for the document body, so neither field is rewritten and `name` stays `text` | follow `body` only at the root of the mapping document, and treat every key below it as a field name | medium, not executed | `FieldTypes.BodyFieldSkipsSiblings` | `FieldTypes.BodyFieldRewrittenWhenCorrected` |

The provisioning path (`FieldTypes.PreparedMapping`) uses the corrected
backport. `FieldTypes.AsWrittenAgreesWithCorrected` and
`FieldTypes.PreparedMappingAsWritten` show that the corrected and the
as-written backport agree on every mapping with no field named `body`.
