# DTDL v2 to Thing Model converter, in Dafny

This project models the conversion engine of `DigitalTwinsConverter.js`. The engine turns a
Digital Twins Definition Language v2 interface into a W3C Web of Things Thing Model whose
context is `https://www.w3.org/2019/wot/td/v1`. The DTDL `contents` hold telemetry, properties
and commands. These become the Thing Model's `events`, `properties` and `actions`. The model
covers five parts:

- **`typeDictionary`**: a fixed table from nine DTDL primitive names to Thing Model types
  (`type_dictionary.dfy`).
- **`__dataMapper`**: maps a primitive name, or a one-level `"Object"` schema with `fields`, to a
  `{type, properties}` descriptor (`schema_mapper.dfy`).
- **`__getContentMapper`**: dispatches on `@type`, using the first element when `@type` is an
  array. Anything unknown throws `{error: true, message: "This type of content is not supported"}`
  (`content_mappers.dfy`).
- **The three content mappers**: telemetry to events, property to properties, and command to
  actions (`content_mappers.dfy`).
- **`convert()`**: seeds the metadata, then folds every content item into its bucket under the
  item's name (`converter.dfy`).

JavaScript `undefined` becomes `Option.None`. A key that is absent and a key that holds
`undefined` are not told apart, because `JSON.stringify` writes neither. A thrown value becomes
`Result.Failure`. The clock reading `Date.now()` is the parameter `now`. The source is
duck-typed, so a content item is one record holding every key that any mapper reads. The
dispatcher only decides which of those keys get used.

Some behaviour is kept exactly as the code is written, even where it looks unintended:

- A command's `output.name` is taken from `request.name`, not from the response.
- A command that has a `response` but no `request` therefore throws a TypeError. It is modelled
  as the fault `ResponseWithoutRequest`.
- The telemetry and property mappers index the table directly and do not go through
  `__dataMapper`. An `"Object"` schema therefore gives them no type.
- An object field whose own schema is an object has no type, because the fields are looked up
  in the table directly. Only one level of object nesting is mapped.
- In an object schema, a later field overwrites an earlier field with the same name. Field order
  matters only when names repeat (`SchemaMapper.FieldOrderIrrelevant`).

## Model

| member | source | states |
|---|---|---|
| `TypeDictionary.Lookup` | DigitalTwinsConverter.js:21-31 | each of the nine primitive names yields exactly its table type (`double` to `number`, `dateTime` to `string`, …); a type is present iff the name is one of the nine, and any type is one of boolean/number/date/integer/string |
| `TypeDictionary.SchemaType` | DigitalTwinsConverter.js:99 | indexing the table with a `schema` value gives a type iff the schema is a string naming a known primitive, and then it is that primitive's table type |
| `SchemaMapper.FieldProperties` | DigitalTwinsConverter.js:50-56 | the `reduce` over `fields` has one key per distinct field name, each entry sits under its own name, and the entry for a name is `{name, type}` of the last field carrying it |
| `SchemaMapper.MapSchema` | DigitalTwinsConverter.js:42-60 | a string maps to its table type with no `properties`; an `"Object"` schema maps to type `object` whose `properties` keys are exactly the field names, typed from the last field of each name; every other shape yields nothing |
| `SchemaMapper.FieldOrderIrrelevant` | DigitalTwinsConverter.js:50-56 | when field names are distinct, any rearrangement of the fields (which then has distinct names too) gives the same `properties` |
| `ContentMappers.GetContentMapper` | DigitalTwinsConverter.js:69-82 | dispatch succeeds iff the effective `@type` (`EffectiveKind`: the first element of an array `@type`, none for an empty array, otherwise the `@type` itself) is `Telemetry`, `Property` or `Command`, and the chosen kind is the one with that name; otherwise it fails with `{error: true, message: "This type of content is not supported"}` |
| `ContentMappers.FirstTagDecides` | DigitalTwinsConverter.js:70-72 | an array `@type` dispatches exactly as its first element alone would; an empty array is unsupported |
| `ContentMappers.DispatchByName` | DigitalTwinsConverter.js:73-81 | a kind is selected iff the effective `@type` is exactly that kind's name |
| `ContentMappers.TelemetryMapper` | DigitalTwinsConverter.js:93-102 | the target key is `events`; the payload keeps the description and nests the type under `data.data`; that type is present iff the schema is a known primitive name, and then it is its table type |
| `ContentMappers.PropertyMapper` | DigitalTwinsConverter.js:112-122 | the target key is `properties`; the payload keeps the description and `writable`; the type is present iff the schema is a known primitive name, and then it is its table type |
| `ContentMappers.Spread` | DigitalTwinsConverter.js:139-142 | `{...__dataMapper(schema), name}` carries the given name and the data mapper's descriptor, or only the name when the data mapper yields nothing |
| `ContentMappers.CommandMapper` | DigitalTwinsConverter.js:132-153 | the command fails iff it has a response but no request; otherwise the target key is `actions`, `input` is present iff `request` is and is built from the request, and `output` is present iff `response` is and is built from the response schema with the request's name |
| `ContentMappers.ApplyMapper` | DigitalTwinsConverter.js:168-169 | the selected mapper writes to that kind's bucket, under the item's name, with that bucket's payload shape; only the command mapper can fail |
| `ContentMappers.MapContent` | DigitalTwinsConverter.js:168-169 | mapping an item fails iff its kind is unsupported or it is a command with a response and no request; an unsupported kind fails with the unsupported-content object; a success targets the bucket of the dispatched kind |
| `ContentMappers.TableOnlyForEventsAndProperties` | DigitalTwinsConverter.js:93-122 | for a string schema, telemetry and property types agree with `__dataMapper`; for an `"Object"` schema, `__dataMapper` says `object` but both mappers give no type |
| `ContentMappers.OutputNamedAfterRequest` | DigitalTwinsConverter.js:144-148 | with both a request and a response, both `input.name` and `output.name` are the request's name |
| `ContentMappers.UnmappableRequestGivesNameOnly` | DigitalTwinsConverter.js:138-143 | a request whose schema `__dataMapper` cannot map gives `input = {name}` |
| `Converter.Seed` | DigitalTwinsConverter.js:14-19 | the target model starts with the three buckets empty |
| `Converter.Merge` | DigitalTwinsConverter.js:170-173 | merging writes `{name, ...data}` under the name in the bucket named by `targetKey`; every other key of that bucket, the other two buckets and the metadata stay unchanged |
| `Converter.MergeKeepsWellFormed` | DigitalTwinsConverter.js:170-173 | merging a payload of the bucket's own shape keeps every entry under its own name and of its bucket's shape |
| `Converter.Assemble` | DigitalTwinsConverter.js:167-174 | the loop over `contents` never touches the metadata and keeps buckets well-formed |
| `Converter.Convert` | DigitalTwinsConverter.js:159-176 | a converted model has `@type` `ThingModel` and the single-element TD context; `description` and `title` are copied from `description` and `displayName`; `created` and `modified` are both the one instant; every bucket entry sits under its own name with its bucket's payload shape |
| `Converter.AssembleSucceedsIff` | DigitalTwinsConverter.js:167-174 | the fold returns a model iff every item maps |
| `Converter.AssembleFirstFault` | DigitalTwinsConverter.js:167-174 | the fold fails with the fault of the first item that does not map |
| `Converter.AssembleKeys` | DigitalTwinsConverter.js:167-174 | after the fold each bucket's keys are the starting keys plus the names of the items mapped into it |
| `Converter.AssembleLastWins` | DigitalTwinsConverter.js:167-174 | after the fold the entry under a name is that of the last item mapped to that bucket and name |
| `Converter.ConvertAllOrNothing` | DigitalTwinsConverter.js:167-175 | `convert()` returns a model iff every content item is supported and mappable, and returns no model otherwise |
| `Converter.ConvertFirstFault` | DigitalTwinsConverter.js:167-169 | the fault `convert()` throws is the one from the first unmappable item |
| `Converter.UnsupportedItemAborts` | DigitalTwinsConverter.js:81 | one item with an unsupported `@type` anywhere in `contents` makes the conversion fail |
| `Converter.ConvertBucketKeys` | DigitalTwinsConverter.js:15-19 | each bucket of a converted model has exactly the names of the items mapped into it, over the initially empty buckets |
| `Converter.ConvertLastWins` | DigitalTwinsConverter.js:170-173 | the entry under a name is `{name, ...data}` of the last item with that name in that bucket |
| `Converter.AssembleIgnoresTimestamps` | DigitalTwinsConverter.js:165-174 | changing the seed's instant changes only `created`/`modified` of the result, never whether or how the fold fails |
| `Converter.ConvertIgnoresTimestampElsewhere` | DigitalTwinsConverter.js:160-166 | converting at two instants gives the same outcome, and models that differ only in `created`/`modified` |
| `Converter.ConvertInPlace` | DigitalTwinsConverter.js:159-176 | the in-place loop that throws out of its body computes the same result as the fold |
| `Examples.TelemetryBecomesEvent` | DigitalTwinsConverter.js:93-101 | a `double` telemetry `temp` becomes `events.temp = {name, data: {type: number}}`, with `properties` and `actions` empty |
| `Examples.SemanticTypeUsesFirstTag` | DigitalTwinsConverter.js:70-72 | a `["Telemetry", "Temperature"]` item is converted as a telemetry |
| `Examples.WritablePropertyKeepsFlag` | DigitalTwinsConverter.js:112-121 | a writable `boolean` property `on` becomes `properties.on = {name, type: boolean, writable: true}` |
| `Examples.CommandWithRequestOnly` | DigitalTwinsConverter.js:138-149 | a command with only an `integer` request has `input = {type: integer, name}` and no `output` |
| `Examples.RelationshipIsUnsupported` | DigitalTwinsConverter.js:80-81 | a `Relationship` item makes the whole conversion fail with the unsupported-content object |
| `Examples.LaterFieldOverwrites` | DigitalTwinsConverter.js:50-56 | an object schema with two fields of the same name leaves a single property, the later field's |
| `Examples.SecondOfSameNameWins` | DigitalTwinsConverter.js:170-173 | of two telemetries named `temp`, only the second one's event remains |

## Left out

- `index.js` is not modelled. It is the command-line entry point: it serialises with tab
  indentation and writes `generated-thing-model.json`. This is I/O.
- `utils/index.js` is not modelled. It reads and parses the file and checks `process.argv`.
  This is file and process I/O.
- `Date.now()` is not modelled. It is the parameter `now` (milliseconds), used for both
  `created` and `modified`. The code stores `new Date(Date.now())`, a `Date` object that
  serialisation writes as an ISO-8601 string; the model keeps the millisecond count and does
  not model that formatting.
- The base class `./Converter` is not part of this model. Only what the constructor hands it is
  modelled: the empty `properties`, `actions` and `events` that become `targetModel`. Calling
  `convert()` twice on one instance, which would reuse that mutated object, is not modelled.
- The `lodash` import is not modelled. It is unused.
- Runtime TypeErrors other than a response without a request are not modelled. The model's
  input types cannot express the inputs that cause them:
  - a `null` content item, whose `@type` is read at `DigitalTwinsConverter.js:70`;
  - a `null` schema, which `typeof` reports as an object, so its `@type` is read;
  - an `"Object"` schema whose `fields` is not an array;
  - a `null` or `undefined` entry of `fields`, whose `name` is read;
  - missing `contents`.
- A field entry that is a number or a string does not throw. Its `name` and `schema` read as
  `undefined`, so it stores `{name: undefined, type: undefined}` under the key `"undefined"`.
  This is not modelled: every `Field` has a string name.
- `Object.prototype` names such as `constructor` or `toString` used as a schema name are not
  modelled. The table lookup would return an inherited function, and serialisation then drops
  it, so the model treats such a name as unknown (no type).
- An array used as a schema key is not modelled. JavaScript would turn it into a string, so
  `["double"]` would find `number`. In the model an array schema is `Other`, and
  `TypeDictionary.SchemaType` gives no table type to any schema that is not `Primitive`.
- A non-string element of an array `@type` is not modelled separately. It is represented by any
  string other than the three kinds, because exact comparison fails for both.
- The names of content items, command payloads and object fields are always plain strings in
  the model; only `displayName` and `description` may be absent. A missing `name`, which
  JavaScript would file under the key `"undefined"`, is not modelled. Localised (map-valued)
  DTDL strings are not modelled either.
- Key order in the serialised output is not modelled. Buckets and `properties` are maps.
- `SchemaMapper.MapSchema`: for an object schema its contract states only the `type` of each
  property. The full `{name, type}` entries are stated by `SchemaMapper.FieldProperties`.
- Two statements about object schemas hold only when field names are distinct: that field
  order does not affect the result, and that there is one property per field. With repeated
  names the code keeps one property per distinct name, the last field's. The model follows the
  code.
