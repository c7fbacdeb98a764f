/**
 * The JSON converter that the event base type is annotated with: it says which
 * types it handles, reads one event from the current token and writes a single
 * event or an array of events.
 */
module EventJsonConverter {
  import opened Wrappers
  import opened Events
  import opened Json
  import opened EventSerialization

  /** The runtime types `CanConvert` is asked about. */
  datatype ClrType =
    | StorageUpdateEventType           // the abstract base type itself
    | EventVariantType(tag: string)    // one of the concrete event records
    | ArrayType(element: ClrType)
    | OtherType(name: string)

  /**
   * True for the event base type and for arrays of it; not for the concrete
   * variant types, nor for arrays of them or nested arrays.
   */
  function CanConvert(objectType: ClrType): (r: bool)
    ensures r <==> objectType in {StorageUpdateEventType, ArrayType(StorageUpdateEventType)}
  {
    if objectType == StorageUpdateEventType then true
    else objectType.ArrayType? && objectType.element == StorageUpdateEventType
  }

  /**
   * The token the reader stands on. For an object or array token the reader's
   * `Load` has already produced the whole token.
   */
  datatype ReaderToken =
    | NullToken
    | PropertyNameToken(name: string)
    | StartObjectToken(loadedObject: Properties)
    | StartArrayToken(loadedArray: seq<JToken>)
    | OtherToken(kind: string)

  /** What `ReadJson` returns: null, the reader's raw value, or one event. */
  datatype ReadValue =
    | NullValue
    | RawValue(value: string)
    | EventValue(event: StorageUpdateEvent)

  function ToReadValue(r: Option<StorageUpdateEvent>): ReadValue {
    match r
    case None => NullValue
    case Some(e) => EventValue(e)
  }

  /** The converter's view of a codec outcome: null or the event, or the same exception. */
  function Lift(r: ReadResult): Result<ReadValue, Exception> {
    match r
    case Success(e) => Success(ToReadValue(e))
    case Failure(error) => Failure(error)
  }

  /**
   * Dispatches on the token kind. Object and array tokens go to the codec, so
   * an array token yields at most one event, never an array.
   */
  function ReadJson(token: ReaderToken): (r: Result<ReadValue, Exception>)
    ensures token.NullToken? ==> r == Success(NullValue)
    ensures token.PropertyNameToken? ==> r == Success(RawValue(token.name))
    ensures token.OtherToken? ==> r == Failure(NotSupported)
    ensures r.Success? && r.value.EventValue? ==> token.StartObjectToken? || token.StartArrayToken?
    ensures token.StartObjectToken? ==> r == Lift(ReadObject(token.loadedObject))
    ensures token.StartArrayToken? ==> r == Lift(ReadArray(token.loadedArray))
  {
    match token
    case NullToken => Success(NullValue)
    case PropertyNameToken(name) => Success(RawValue(name))
    case StartObjectToken(o) =>
      var e :- ReadObject(o);
      Success(ToReadValue(e))
    case StartArrayToken(items) =>
      var e :- ReadToken(JArray(items));
      Success(ToReadValue(e))
    case OtherToken(_) => Failure(NotSupported)
  }

  /** The value handed to `WriteJson`. */
  datatype WriteValue =
    | NullWriteValue
    | SingleEvent(event: StorageUpdateEvent)
    | EventArray(events: seq<StorageUpdateEvent>)
    | OtherWriteValue(typeName: string)

  /**
   * Writes a value: nothing for null, the codec's object for one event, an
   * array of the codec's objects (same length, same order) for an event array,
   * and not-supported otherwise. The writer is modelled by the token returned.
   * The null-placeholder branch of the array loop is unreachable, since `Write`
   * always returns an object.
   */
  method WriteJson(value: WriteValue) returns (r: Result<Option<JToken>, Exception>)
    ensures value.NullWriteValue? ==> r == Success(None)
    ensures value.SingleEvent? ==> r == Success(Some(JObject(Write(value.event))))
    ensures value.EventArray? ==>
      && r.Success? && r.value.Some? && r.value.value.JArray?
      && |r.value.value.items| == |value.events|
      && forall i :: 0 <= i < |value.events| ==> r.value.value.items[i] == JObject(Write(value.events[i]))
    ensures value.OtherWriteValue? ==> r == Failure(NotSupported)
  {
    match value
    case NullWriteValue =>
      r := Success(None);
    case SingleEvent(e) =>
      r := Success(Some(JObject(Write(e))));
    case EventArray(events) =>
      var items: seq<JToken> := [];
      var i := 0;
      while i < |events|
        invariant 0 <= i <= |events|
        invariant |items| == i
        invariant forall j :: 0 <= j < i ==> items[j] == JObject(Write(events[j]))
      {
        items := items + [JObject(Write(events[i]))];
        i := i + 1;
      }
      r := Success(Some(JArray(items)));
    case OtherWriteValue(_) =>
      r := Failure(NotSupported);
  }

  /**
   * A single folder event with non-blank ids, written and read back through
   * the converter, is the same event.
   */
  lemma SingleEventRoundTrip(e: StorageUpdateEvent)
    requires IsWellFormedFolderEvent(e)
    ensures ReadJson(StartObjectToken(Write(e))) == Success(EventValue(e))
  {
    WriteThenRead(e);
  }

  /** A file update written through the converter does not read back. */
  lemma FileUpdateEventDoesNotReadBack(e: StorageUpdateEvent)
    requires e.FileUpdateEvent?
    ensures ReadJson(StartObjectToken(Write(e))) == Failure(ArgumentNull(WorkingFolderIdProperty))
  {
    FileUpdateEventDoesNotRoundTrip(e);
  }

  /**
   * Reading back an array written by `WriteJson` is reading back its first
   * event alone, whatever follows it: the written first event never reads as
   * null, so the scan stops there. For a well-formed first event the result is
   * that event, so the array of events does not round-trip.
   */
  lemma EventArrayReadsBackFirstOnly(events: seq<StorageUpdateEvent>, items: seq<JToken>)
    requires |events| == |items| > 0
    requires forall i :: 0 <= i < |events| ==> items[i] == JObject(Write(events[i]))
    ensures ReadJson(StartArrayToken(items)) == ReadJson(StartObjectToken(Write(events[0])))
    ensures IsWellFormedFolderEvent(events[0]) ==> ReadJson(StartArrayToken(items)) == Success(EventValue(events[0]))
  {
    var e := events[0];
    WrittenEventIsNeverNull(e);
    WriteThenRead(e);
    assert ReadToken(items[0]) == ReadObject(Write(e));
  }

  /** A written event reads back as an event or an exception, never as null. */
  lemma WrittenEventIsNeverNull(e: StorageUpdateEvent)
    ensures ReadObject(Write(e)) != Success(None)
  {
  }
}
