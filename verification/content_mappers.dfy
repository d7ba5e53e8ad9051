/** `__getContentMapper` and the three content mappers it dispatches to. */
module ContentMappers {
  import opened Wrappers
  import opened Dtdl
  import opened Thing
  import opened TypeDictionary
  import opened SchemaMapper

  const UnsupportedMessage := "This type of content is not supported"

  /** What can be thrown out of a conversion. `Thrown` is the object the dispatcher throws;
      `ResponseWithoutRequest` is the TypeError raised when a command's output reads
      `request.name` from a command that has no request. */
  datatype Fault = Thrown(error: bool, message: string) | ResponseWithoutRequest

  /** `{error: true, message: "This type of content is not supported"}` */
  const Unsupported := Thrown(true, UnsupportedMessage)

  /** The three content kinds the converter supports. */
  datatype Kind = Telemetry | Property | Command

  /** The `@type` string that selects a kind. */
  function KindName(k: Kind): string {
    match k
    case Telemetry => "Telemetry"
    case Property => "Property"
    case Command => "Command"
  }

  /** The bucket a kind's mapper writes to. */
  function TargetOf(k: Kind): TargetKey {
    match k
    case Telemetry => Events
    case Property => Properties
    case Command => Actions
  }

  /** The intermediate `{targetKey, name, data}` a content mapper returns. */
  datatype Mapped = Mapped(targetKey: TargetKey, name: string, data: Payload)

  /** The `@type` value the dispatcher switches on: the first element of an array (`undefined`
      for an empty one), otherwise the value itself. */
  function EffectiveKind(tag: KindTag): Option<string> {
    match tag
    case Tag(name) => Some(name)
    case TagList(names) => if |names| > 0 then Some(names[0]) else None
    case Untagged => None
  }

  /** `__getContentMapper(item)`: picks the mapper whose name is the effective `@type`, compared
      exactly; every other value throws the unsupported-content object. */
  function GetContentMapper(item: ContentItem): (r: Result<Kind, Fault>)
    ensures r.Success? <==> EffectiveKind(item.tag) in {Some("Telemetry"), Some("Property"), Some("Command")}
    ensures r.Success? ==> EffectiveKind(item.tag) == Some(KindName(r.value))
    ensures r.Failure? ==> r.error == Unsupported
  {
    match EffectiveKind(item.tag)
    case Some(kind) =>
      if kind == "Telemetry" then Success(Telemetry)
      else if kind == "Property" then Success(Property)
      else if kind == "Command" then Success(Command)
      else Failure(Unsupported)
    case None => Failure(Unsupported)
  }

  /** `__telemetryMapper`: an event whose value type sits one level down, under `data.data`,
      looked up in the table directly (so only a primitive schema name yields a type). */
  function TelemetryMapper(item: ContentItem): (r: Mapped)
    ensures r.targetKey == Events && r.name == item.name
    ensures r.data.EventData? && r.data.description == item.description
    ensures r.data.data.dataType.Some? <==> item.schema.Primitive? && item.schema.name in PrimitiveNames
    ensures r.data.data.dataType.Some? ==> r.data.data.dataType == Lookup(item.schema.name)
  {
    Mapped(Events, item.name, EventData(item.description, EventValue(SchemaType(item.schema))))
  }

  /** `__propertyMapper`: a property with the table's type for the schema and the item's
      `writable` copied as is. */
  function PropertyMapper(item: ContentItem): (r: Mapped)
    ensures r.targetKey == Properties && r.name == item.name
    ensures r.data.PropertyData? && r.data.description == item.description && r.data.writable == item.writable
    ensures r.data.dataType.Some? <==> item.schema.Primitive? && item.schema.name in PrimitiveNames
    ensures r.data.dataType.Some? ==> r.data.dataType == Lookup(item.schema.name)
  {
    Mapped(Properties, item.name, PropertyData(item.description, SchemaType(item.schema), item.writable))
  }

  /** A command payload: the keys of the data mapper's descriptor plus a `name`. When the
      data mapper yields nothing, the spread adds no keys and only the name remains. */
  function Spread(schema: Schema, name: string): (r: Io)
    ensures r.name == name
    ensures schema.Other? ==> r.shape == EmptyDescriptor
    ensures !schema.Other? ==> Some(r.shape) == MapSchema(schema)
  {
    Io(MapSchema(schema).GetOr(EmptyDescriptor), name)
  }

  /** `__commandMapper`: an action whose `input` comes from the request and whose `output`
      comes from the response's schema but, as written, takes its `name` from the request.
      `input` is evaluated first, so a response without a request reaches `request.name`
      on `undefined` and throws. */
  function CommandMapper(item: ContentItem): (r: Result<Mapped, Fault>)
    ensures r.Failure? <==> item.response.Some? && item.request.None?
    ensures r.Failure? ==> r.error == ResponseWithoutRequest
    ensures r.Success? ==>
              && r.value.targetKey == Actions && r.value.name == item.name
              && r.value.data.ActionData?
              && r.value.data.description == item.description
              && r.value.data.writable == item.writable
              && (r.value.data.input.Some? <==> item.request.Some?)
              && (r.value.data.output.Some? <==> item.response.Some?)
    ensures r.Success? && item.request.Some? ==>
              r.value.data.input == Some(Spread(item.request.value.schema, item.request.value.name))
    ensures r.Success? && item.response.Some? ==>
              r.value.data.output == Some(Spread(item.response.value.schema, item.request.value.name))
  {
    var input := match item.request
      case Some(req) => Some(Spread(req.schema, req.name))
      case None => None;
    match item.response
    case Some(resp) =>
      (match item.request
       case Some(req) =>
         Success(Mapped(Actions, item.name,
           ActionData(item.description, input, Some(Spread(resp.schema, req.name)), item.writable)))
       case None => Failure(ResponseWithoutRequest))
    case None =>
      Success(Mapped(Actions, item.name, ActionData(item.description, input, None, item.writable)))
  }

  /** Calling the mapper the dispatcher returned. */
  function ApplyMapper(kind: Kind, item: ContentItem): (r: Result<Mapped, Fault>)
    ensures r.Success? ==> r.value.targetKey == TargetOf(kind) && r.value.name == item.name
    ensures r.Success? ==> Fits(r.value.targetKey, r.value.data)
    ensures r.Failure? ==> kind == Command
  {
    match kind
    case Telemetry => Success(TelemetryMapper(item))
    case Property => Success(PropertyMapper(item))
    case Command => CommandMapper(item)
  }

  /** One iteration of the conversion loop before the merge: dispatch, then map. */
  function MapContent(item: ContentItem): (r: Result<Mapped, Fault>)
    ensures r.Success? ==> GetContentMapper(item).Success?
    ensures r.Success? ==> r.value.targetKey == TargetOf(GetContentMapper(item).value)
    ensures r.Success? ==> r.value.name == item.name && Fits(r.value.targetKey, r.value.data)
    ensures r.Failure? <==>
              || GetContentMapper(item).Failure?
              || (GetContentMapper(item) == Success(Command) && item.response.Some? && item.request.None?)
    ensures GetContentMapper(item).Failure? ==> r == Failure(Unsupported)
  {
    match GetContentMapper(item)
    case Failure(e) => Failure(e)
    case Success(kind) => ApplyMapper(kind, item)
  }

  /** An array `@type` dispatches exactly as its first element would on its own; an empty
      array is unsupported. */
  lemma FirstTagDecides(item: ContentItem)
    requires item.tag.TagList?
    ensures |item.tag.names| > 0 ==>
              GetContentMapper(item) == GetContentMapper(item.(tag := Tag(item.tag.names[0])))
    ensures |item.tag.names| == 0 ==> GetContentMapper(item) == Failure(Unsupported)
  {
  }

  /** Dispatch is by exact name: the three names select their kinds and nothing else does. */
  lemma DispatchByName(item: ContentItem, kind: Kind)
    ensures GetContentMapper(item) == Success(kind) <==> EffectiveKind(item.tag) == Some(KindName(kind))
  {
  }

  /** The telemetry and property mappers bypass `__dataMapper`: they agree with it on a string
      schema, but an `"Object"` schema that `__dataMapper` would type as `"object"` gets no type. */
  lemma TableOnlyForEventsAndProperties(item: ContentItem)
    ensures item.schema.Primitive? ==>
              && TelemetryMapper(item).data.data.dataType == MapSchema(item.schema).value.dataType
              && PropertyMapper(item).data.dataType == MapSchema(item.schema).value.dataType
    ensures item.schema.ObjectSchema? ==>
              && MapSchema(item.schema).value.dataType == Some("object")
              && TelemetryMapper(item).data.data.dataType.None?
              && PropertyMapper(item).data.dataType.None?
  {
  }

  /** A command's `output` is named after the request, whatever the response is called. */
  lemma OutputNamedAfterRequest(item: ContentItem)
    requires item.request.Some? && item.response.Some?
    ensures CommandMapper(item).Success?
    ensures CommandMapper(item).value.data.output.value.name == item.request.value.name
    ensures CommandMapper(item).value.data.input.value.name == item.request.value.name
  {
  }

  /** A request whose schema `__dataMapper` cannot map contributes only `{name}`. */
  lemma UnmappableRequestGivesNameOnly(item: ContentItem)
    requires item.request.Some? && item.request.value.schema.Other?
    ensures CommandMapper(item).Success?
    ensures CommandMapper(item).value.data.input == Some(Io(EmptyDescriptor, item.request.value.name))
  {
  }
}
