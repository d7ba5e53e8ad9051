/** The converter's fixed table from DTDL primitive schema names to Thing Model types. */
module TypeDictionary {
  import opened Wrappers
  import opened Dtdl

  const Table: map<string, string> := map[
    "boolean" := "boolean",
    "double" := "number",
    "date" := "date",
    "duration" := "string",
    "float" := "number",
    "integer" := "integer",
    "long" := "integer",
    "string" := "string",
    "dateTime" := "string"
  ]

  /** The nine DTDL primitive names the table recognises. */
  const PrimitiveNames: set<string> :=
    {"boolean", "double", "date", "duration", "float", "integer", "long", "string", "dateTime"}

  /** The Thing Model types the table can produce. */
  const TargetTypes: set<string> := {"boolean", "number", "date", "integer", "string"}

  /** `typeDictionary[name]`: the Thing Model type of a primitive name, absent for any other name. */
  function Lookup(name: string): (r: Option<string>)
    ensures r.Some? <==> name in PrimitiveNames
    ensures r.Some? ==> r.value in TargetTypes
    ensures name == "boolean" ==> r == Some("boolean")
    ensures name == "double" ==> r == Some("number")
    ensures name == "date" ==> r == Some("date")
    ensures name == "duration" ==> r == Some("string")
    ensures name == "float" ==> r == Some("number")
    ensures name == "integer" ==> r == Some("integer")
    ensures name == "long" ==> r == Some("integer")
    ensures name == "string" ==> r == Some("string")
    ensures name == "dateTime" ==> r == Some("string")
  {
    if name in Table then Some(Table[name]) else None
  }

  /** `typeDictionary[x.schema]`, the lookup the telemetry and property mappers and the object
      fields use: only a string schema can hit the table, every other shape gives no type. */
  function SchemaType(schema: Schema): (r: Option<string>)
    ensures r.Some? <==> schema.Primitive? && schema.name in PrimitiveNames
    ensures r.Some? ==> r == Lookup(schema.name) && r.value in TargetTypes
  {
    match schema
    case Primitive(name) => Lookup(name)
    case _ => None
  }
}
