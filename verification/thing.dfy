/** The target side: a W3C Web of Things Thing Model as the converter builds it. */
module Thing {
  import opened Wrappers

  /** An entry of an object type's `properties`: `{name, type}`. */
  datatype FieldEntry = FieldEntry(name: string, dataType: Option<string>)

  /** A type descriptor `{type, properties}`; `properties` is present only for objects. */
  datatype TypeDescriptor = TypeDescriptor(dataType: Option<string>, properties: Option<map<string, FieldEntry>>)

  /** The empty object `{}`: what spreading `undefined` contributes. */
  const EmptyDescriptor := TypeDescriptor(None, None)

  /** A command's `input` or `output`: a type descriptor extended with a `name`. */
  datatype Io = Io(shape: TypeDescriptor, name: string)

  /** The value `{type}` an event keeps under its own `data` key. */
  datatype EventValue = EventValue(dataType: Option<string>)

  /** The bucket-specific payload a content mapper produces. */
  datatype Payload =
    | EventData(description: Option<string>, data: EventValue)
    | PropertyData(description: Option<string>, dataType: Option<string>, writable: Option<bool>)
    | ActionData(description: Option<string>, input: Option<Io>, output: Option<Io>, writable: Option<bool>)

  /** The three buckets of a Thing Model, named as the mappers' `targetKey`. */
  datatype TargetKey = Properties | Actions | Events

  /** A bucket entry `{name, ...data}`. */
  datatype Entry = Entry(name: string, data: Payload)

  /** The payload shape each bucket holds. */
  predicate Fits(k: TargetKey, p: Payload) {
    match k
    case Events => p.EventData?
    case Properties => p.PropertyData?
    case Actions => p.ActionData?
  }

  /** The Thing Model document; `created` and `modified` are instants in milliseconds. */
  datatype ThingModel = ThingModel(
    modelType: string,
    context: seq<string>,
    description: Option<string>,
    title: Option<string>,
    created: int,
    modified: int,
    properties: map<string, Entry>,
    actions: map<string, Entry>,
    events: map<string, Entry>)
  {
    /** The bucket a `targetKey` names. */
    function Bucket(k: TargetKey): map<string, Entry> {
      match k
      case Properties => properties
      case Actions => actions
      case Events => events
    }
  }

  /** Every entry sits under its own name and has its bucket's payload shape. */
  predicate WellFormed(tm: ThingModel) {
    forall k: TargetKey, n :: n in tm.Bucket(k) ==> tm.Bucket(k)[n].name == n && Fits(k, tm.Bucket(k)[n].data)
  }

  /** Two models agree on everything outside the three buckets. */
  predicate SameMetadata(a: ThingModel, b: ThingModel) {
    && a.modelType == b.modelType
    && a.context == b.context
    && a.description == b.description
    && a.title == b.title
    && a.created == b.created
    && a.modified == b.modified
  }
}
