/** The source side: a DTDL v2 interface as the converter reads it after JSON parsing.
    Only the keys the converter looks at are represented. */
module Dtdl {
  import opened Wrappers

  /** A DTDL data schema as found under a `schema` key. */
  datatype Schema =
    | Primitive(name: string)          // a JSON string, e.g. "double"
    | ObjectSchema(fields: seq<Field>) // an object whose "@type" is exactly "Object"
    | Other                            // anything else: absent, a number, an array, another "@type"

  /** One entry of an object schema's `fields`. */
  datatype Field = Field(name: string, schema: Schema)

  /** The `@type` of a content item: one string, an array of strings, or neither. */
  datatype KindTag = Tag(name: string) | TagList(names: seq<string>) | Untagged

  /** The `request` or `response` of a command. */
  datatype CommandPayload = CommandPayload(name: string, schema: Schema)

  /** One element of the interface's `contents`. The converter is duck-typed: every mapper
      reads the keys it needs from whatever item it is given, so all keys live in one record. */
  datatype ContentItem = ContentItem(
    tag: KindTag,
    name: string,
    description: Option<string>,
    schema: Schema,
    writable: Option<bool>,
    request: Option<CommandPayload>,
    response: Option<CommandPayload>)

  /** The whole DTDL interface document. */
  datatype Interface = Interface(
    displayName: Option<string>,
    description: Option<string>,
    contents: seq<ContentItem>)
}
