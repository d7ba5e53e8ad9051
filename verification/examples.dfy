/** Worked conversions of small DTDL interfaces. */
module Examples {
  import opened Wrappers
  import opened Dtdl
  import opened Thing
  import opened ContentMappers
  import opened Converter
  import opened TypeDictionary
  import opened SchemaMapper

  function Item(tag: KindTag, name: string, schema: Schema): ContentItem {
    ContentItem(tag, name, None, schema, None, None, None)
  }

  /** A single telemetry becomes an event whose value type sits under `data`; the other
      buckets stay empty. */
  lemma TelemetryBecomesEvent(now: int)
    ensures
      var r := Convert(Interface(Some("Sensor"), None, [Item(Tag("Telemetry"), "temp", Primitive("double"))]), now);
      && r.Success?
      && r.value.title == Some("Sensor")
      && r.value.events == map["temp" := Entry("temp", EventData(None, EventValue(Some("number"))))]
      && r.value.properties == map[]
      && r.value.actions == map[]
  {
  }

  /** A semantic-typed telemetry `["Telemetry", "Temperature"]` is dispatched on its first tag. */
  lemma SemanticTypeUsesFirstTag(now: int)
    ensures
      var r := Convert(Interface(None, None, [Item(TagList(["Telemetry", "Temperature"]), "temp", Primitive("float"))]), now);
      r.Success? && r.value.events == map["temp" := Entry("temp", EventData(None, EventValue(Some("number"))))]
  {
  }

  /** A writable boolean property keeps its `writable` flag. */
  lemma WritablePropertyKeepsFlag(now: int)
    ensures
      var on := ContentItem(Tag("Property"), "on", None, Primitive("boolean"), Some(true), None, None);
      var r := Convert(Interface(None, None, [on]), now);
      r.Success? && r.value.properties == map["on" := Entry("on", PropertyData(None, Some("boolean"), Some(true)))]
  {
  }

  /** A command with a request and no response has an `input` and no `output`. */
  lemma CommandWithRequestOnly(now: int)
    ensures
      var reboot := ContentItem(Tag("Command"), "reboot", None, Other, None,
                                Some(CommandPayload("delaySec", Primitive("integer"))), None);
      var r := Convert(Interface(None, None, [reboot]), now);
      && r.Success?
      && r.value.actions["reboot"].data.input == Some(Io(TypeDescriptor(Some("integer"), None), "delaySec"))
      && r.value.actions["reboot"].data.output.None?
  {
  }

  /** A `Relationship` anywhere in `contents` fails the whole conversion. */
  lemma RelationshipIsUnsupported(now: int)
    ensures
      var r := Convert(Interface(None, None, [Item(Tag("Telemetry"), "temp", Primitive("double")),
                                               Item(Tag("Relationship"), "parent", Other)]), now);
      r == Failure(Thrown(true, "This type of content is not supported"))
  {
    var source := Interface(None, None, [Item(Tag("Telemetry"), "temp", Primitive("double")),
                                         Item(Tag("Relationship"), "parent", Other)]);
    ConvertFirstFault(source, now, 1);
  }

  /** Two telemetries with the same name leave only the second one's event. */
  lemma SecondOfSameNameWins(now: int)
    ensures
      var r := Convert(Interface(None, None, [Item(Tag("Telemetry"), "temp", Primitive("double")),
                                               Item(Tag("Telemetry"), "temp", Primitive("string"))]), now);
      r.Success? && r.value.events == map["temp" := Entry("temp", EventData(None, EventValue(Some("string"))))]
  {
    var items := [Item(Tag("Telemetry"), "temp", Primitive("double")),
                  Item(Tag("Telemetry"), "temp", Primitive("string"))];
    var seed := Seed(Interface(None, None, items), now);
    var prefix := items[..1];
    assert prefix[..0] == [];
    assert MapContent(items[0]).Success?;
    assert Assemble(seed, prefix) == Success(Merge(seed, MapContent(items[0]).value));
    assert items[..|items| - 1] == prefix;
  }

  /** An object schema with two fields of the same name keeps a single property, the later one's. */
  lemma LaterFieldOverwrites(a: Field, b: Field)
    requires a.name == b.name
    ensures MapSchema(ObjectSchema([a, b])).value.properties.value
            == map[b.name := FieldEntry(b.name, SchemaType(b.schema))]
  {
    var fields := [a, b];
    assert IsLastNamed(fields, 1);
    assert FieldProperties(fields).Keys == {b.name} by {
      assert fields[0].name == b.name && fields[1].name == b.name;
    }
  }
}
