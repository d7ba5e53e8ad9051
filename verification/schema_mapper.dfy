/** `__dataMapper`: a DTDL data schema to a Thing Model type descriptor. */
module SchemaMapper {
  import opened Wrappers
  import opened Dtdl
  import opened Thing
  import opened TypeDictionary

  /** The names carried by a field sequence. */
  function FieldNames(fields: seq<Field>): set<string> {
    set i | 0 <= i < |fields| :: fields[i].name
  }

  /** Field `i` is the last one in `fields` carrying its name. */
  predicate IsLastNamed(fields: seq<Field>, i: int) {
    0 <= i < |fields| && forall j :: i < j < |fields| ==> fields[j].name != fields[i].name
  }

  /** No two fields share a name. */
  predicate DistinctNames(fields: seq<Field>) {
    forall i, j :: 0 <= i < j < |fields| ==> fields[i].name != fields[j].name
  }

  /** The `reduce` over an object schema's fields: starting from `{}`, each field in order sets
      `properties[field.name] = {name, type}`, so one key per name and the last field wins. */
  function FieldProperties(fields: seq<Field>): (r: map<string, FieldEntry>)
    ensures r.Keys == FieldNames(fields)
    ensures forall n :: n in r ==> r[n].name == n
    ensures forall i :: IsLastNamed(fields, i) ==>
              r[fields[i].name] == FieldEntry(fields[i].name, SchemaType(fields[i].schema))
    decreases |fields|
  {
    if |fields| == 0 then map[]
    else
      var init := fields[..|fields| - 1];
      var f := fields[|fields| - 1];
      FieldNamesOfInit(fields);
      LastNamedInInit(fields);
      FieldProperties(init)[f.name := FieldEntry(f.name, SchemaType(f.schema))]
  }

  lemma FieldNamesOfInit(fields: seq<Field>)
    requires |fields| > 0
    ensures FieldNames(fields) == FieldNames(fields[..|fields| - 1]) + {fields[|fields| - 1].name}
  {
    var init := fields[..|fields| - 1];
    forall n | n in FieldNames(fields) ensures n in FieldNames(init) + {fields[|fields| - 1].name} {
      var i :| 0 <= i < |fields| && fields[i].name == n;
      if i < |init| { assert init[i] == fields[i]; }
    }
    forall n | n in FieldNames(init) ensures n in FieldNames(fields) {
      var i :| 0 <= i < |init| && init[i].name == n;
      assert fields[i] == init[i];
    }
  }

  lemma LastNamedInInit(fields: seq<Field>)
    requires |fields| > 0
    ensures forall i :: IsLastNamed(fields, i) && i < |fields| - 1 ==>
              IsLastNamed(fields[..|fields| - 1], i) && fields[i].name != fields[|fields| - 1].name
  {
  }

  /** `__dataMapper(schema)`: a string maps through the table with no `properties`, an
      `"Object"` schema maps to type `"object"` with one property per field name, and any other
      shape yields nothing (`undefined`). */
  function MapSchema(schema: Schema): (r: Option<TypeDescriptor>)
    ensures r.None? <==> schema.Other?
    ensures schema.Primitive? ==>
              r.value.properties.None? && (r.value.dataType.Some? <==> schema.name in PrimitiveNames)
    ensures schema.Primitive? && r.value.dataType.Some? ==> r.value.dataType == Lookup(schema.name)
    ensures schema.ObjectSchema? ==>
              && r.value.dataType == Some("object")
              && r.value.properties.Some?
              && r.value.properties.value.Keys == FieldNames(schema.fields)
    ensures schema.ObjectSchema? ==>
              forall i :: IsLastNamed(schema.fields, i) ==>
                r.value.properties.value[schema.fields[i].name].dataType == SchemaType(schema.fields[i].schema)
  {
    match schema
    case Primitive(name) => Some(TypeDescriptor(Lookup(name), None))
    case ObjectSchema(fields) => Some(TypeDescriptor(Some("object"), Some(FieldProperties(fields))))
    case Other => None
  }

  lemma DistinctAreLast(fields: seq<Field>)
    requires DistinctNames(fields)
    ensures forall i :: 0 <= i < |fields| ==> IsLastNamed(fields, i)
  {
  }

  /** A field of one sequence sits at some position of any rearrangement of it. */
  lemma FieldPosition(a: seq<Field>, b: seq<Field>, i: int) returns (j: int)
    requires multiset(a) == multiset(b) && 0 <= i < |a|
    ensures 0 <= j < |b| && b[j] == a[i]
  {
    assert a[i] in multiset(b);
    j :| 0 <= j < |b| && b[j] == a[i];
  }

  /** A field that occurs twice is counted twice. */
  lemma RepeatedFieldCountsTwice(b: seq<Field>, i: int, j: int)
    requires 0 <= i < j < |b| && b[i] == b[j]
    ensures multiset(b)[b[i]] >= 2
  {
    assert b == b[..j] + [b[j]] + b[j + 1..];
    assert b[i] in b[..j];
  }

  /** Under distinct names every field occurs once. */
  lemma DistinctFieldCountsOnce(a: seq<Field>, p: int)
    requires DistinctNames(a) && 0 <= p < |a|
    ensures multiset(a)[a[p]] == 1
  {
    assert a == a[..p] + [a[p]] + a[p + 1..];
    var before := a[..p];
    forall x | x in before ensures x != a[p] {
      var k :| 0 <= k < |before| && before[k] == x;
      assert x == a[k];
    }
    var after := a[p + 1..];
    forall x | x in after ensures x != a[p] {
      var k :| 0 <= k < |after| && after[k] == x;
      assert x == a[p + 1 + k];
    }
  }

  /** Any rearrangement of fields with distinct names has distinct names. */
  lemma RearrangedStayDistinct(a: seq<Field>, b: seq<Field>)
    requires DistinctNames(a) && multiset(a) == multiset(b)
    ensures DistinctNames(b)
  {
    forall i, j | 0 <= i < j < |b| ensures b[i].name != b[j].name {
      var p := FieldPosition(b, a, i);
      var q := FieldPosition(b, a, j);
      if p == q {
        RepeatedFieldCountsTwice(b, i, j);
        DistinctFieldCountsOnce(a, p);
        assert false;
      }
      if p < q { assert a[p].name != a[q].name; } else { assert a[q].name != a[p].name; }
    }
  }

  /** With distinct names, a rearrangement maps every name of `a` as `a` does. */
  lemma SameEntries(a: seq<Field>, b: seq<Field>)
    requires DistinctNames(a)
    requires multiset(a) == multiset(b)
    ensures forall n :: n in FieldProperties(a) ==> n in FieldProperties(b) && FieldProperties(a)[n] == FieldProperties(b)[n]
  {
    RearrangedStayDistinct(a, b);
    DistinctAreLast(a);
    DistinctAreLast(b);
    forall n | n in FieldProperties(a) ensures n in FieldProperties(b) && FieldProperties(a)[n] == FieldProperties(b)[n] {
      var i :| 0 <= i < |a| && a[i].name == n;
      var j := FieldPosition(a, b, i);
      assert IsLastNamed(a, i) && IsLastNamed(b, j);
    }
  }

  /** Without duplicate names the order of the fields does not matter: any rearrangement
      yields the same `properties`. */
  lemma FieldOrderIrrelevant(a: seq<Field>, b: seq<Field>)
    requires DistinctNames(a)
    requires multiset(a) == multiset(b)
    ensures FieldProperties(a) == FieldProperties(b)
  {
    RearrangedStayDistinct(a, b);
    SameEntries(a, b);
    SameEntries(b, a);
  }
}
