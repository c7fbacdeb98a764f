/**
 * The JSON codec for storage update events: `Write` turns an event into a JSON
 * object, `ReadObject` validates an object and decodes it back, and
 * `ReadToken` dispatches on the token kind, scanning an array for its first
 * element that decodes to an event.
 */
module EventSerialization {
  import opened Wrappers
  import opened Events
  import opened Json

  const EventIdProperty: string := "eventId"
  const StorableItemIdProperty: string := "storableItemId"
  const WorkingFolderIdProperty: string := "workingFolderId"
  const StorableItemNameProperty: string := "storableItemName"
  const OverwriteProperty: string := "overwrite"

  /** The outcome of decoding: an event, `null` (`None`), or an exception. */
  type ReadResult = Result<Option<StorageUpdateEvent>, Exception>

  // ---------------------------------------------------------------------------
  // Guards

  /** The characters .NET's `char.IsWhiteSpace` accepts. */
  predicate IsWhiteSpace(c: char) {
    || ('\U{9}' <= c <= '\U{D}')
    || c == ' ' || c == '\U{85}' || c == '\U{A0}' || c == '\U{1680}'
    || ('\U{2000}' <= c <= '\U{200A}')
    || c == '\U{2028}' || c == '\U{2029}' || c == '\U{202F}' || c == '\U{205F}' || c == '\U{3000}'
  }

  /** Empty or made of whitespace only. */
  predicate IsBlank(s: string) {
    forall i :: 0 <= i < |s| ==> IsWhiteSpace(s[i])
  }

  /** `string.IsNullOrWhiteSpace`. */
  predicate IsNullOrWhiteSpace(s: Option<string>) {
    s.None? || IsBlank(s.value)
  }

  /** `Guard.IsNotNullOrWhiteSpace`: null and blank strings throw, with different exceptions. */
  function GuardNotNullOrWhiteSpace(s: Option<string>, name: string): (r: Result<string, Exception>)
    ensures r.Success? <==> !IsNullOrWhiteSpace(s)
    ensures r.Success? ==> s == Some(r.value)
    ensures r.Failure? ==> r.error == (if s.None? then ArgumentNull(name) else ArgumentWhiteSpace(name))
  {
    match s
    case None => Failure(ArgumentNull(name))
    case Some(v) => if IsBlank(v) then Failure(ArgumentWhiteSpace(name)) else Success(v)
  }

  /** `Guard.IsNotNull`. */
  function GuardNotNull<T>(x: Option<T>, name: string): (r: Result<T, Exception>)
    ensures r.Success? <==> x.Some?
    ensures r.Success? ==> x == Some(r.value)
    ensures r.Failure? ==> r.error == ArgumentNull(name)
  {
    match x
    case None => Failure(ArgumentNull(name))
    case Some(v) => Success(v)
  }

  // ---------------------------------------------------------------------------
  // Property access

  /**
   * `jObject[name]?.Value<string>()`: a missing property and a JSON null both
   * read as null; a token of another kind is a cast failure.
   */
  function StringValue(o: Properties, name: string): Result<Option<string>, Exception> {
    if name !in o then Success(None)
    else match o[name]
      case JNull => Success(None)
      case JString(s) => Success(Some(s))
      case _ => Failure(InvalidCast(name))
  }

  /**
   * `jObject[name]?.Value<bool>()`: a missing property reads as null; a JSON
   * null or a token of another kind is a cast failure.
   */
  function BoolValue(o: Properties, name: string): Result<Option<bool>, Exception> {
    if name !in o then Success(None)
    else match o[name]
      case JBool(b) => Success(Some(b))
      case _ => Failure(InvalidCast(name))
  }

  /** The string a property holds, if it holds one: the kind-agnostic view used in contracts. */
  function StringField(o: Properties, name: string): Option<string> {
    if name in o && o[name].JString? then Some(o[name].s) else None
  }

  // ---------------------------------------------------------------------------
  // Encoding

  /** The property names `Write` may emit; `newContentId` is not among them. */
  const WrittenPropertyNames: set<string> :=
    {EventIdProperty, StorableItemIdProperty, WorkingFolderIdProperty, StorableItemNameProperty, OverwriteProperty}

  /**
   * Builds the JSON object for an event, one `AddFirst` at a time. It never
   * fails (it never adds a name twice) and never returns null.
   */
  function Write(e: StorageUpdateEvent): (o: Properties)
    ensures EventIdProperty in o && o[EventIdProperty] == JString(EventId(e))
    ensures StorableItemIdProperty in o && o[StorableItemIdProperty] == JString(e.storableItemId)
    ensures WorkingFolderIdProperty in o <==> e.IsFolderUpdateEvent()
    ensures e.IsFolderUpdateEvent() ==> o[WorkingFolderIdProperty] == JString(e.workingFolderId)
    ensures StorableItemNameProperty in o <==> e.IsFolderUpdateEvent()
    ensures e.IsFolderUpdateEvent() ==> o[StorableItemNameProperty] == JString(e.storableItemName)
    ensures OverwriteProperty in o <==> e.IsCreateEvent()
    ensures e.IsCreateEvent() ==> o[OverwriteProperty] == JBool(e.overwrite)
    ensures o.Keys <= WrittenPropertyNames
  {
    var o := AddFirst(map[], EventIdProperty, JString(EventId(e)));
    var o := AddFirst(o, StorableItemIdProperty, JString(e.storableItemId));
    match e
    case FileUpdateEvent(_, _) => o
    case CreateFileInFolderEvent(folder, _, name, overwrite) =>
      var o := AddFirst(o, WorkingFolderIdProperty, JString(folder));
      var o := AddFirst(o, StorableItemNameProperty, JString(name));
      AddFirst(o, OverwriteProperty, JBool(overwrite))
    case CreateFolderInFolderEvent(folder, _, name, overwrite) =>
      var o := AddFirst(o, WorkingFolderIdProperty, JString(folder));
      var o := AddFirst(o, StorableItemNameProperty, JString(name));
      AddFirst(o, OverwriteProperty, JBool(overwrite))
    case DeleteFromFolderEvent(folder, _, name) =>
      var o := AddFirst(o, WorkingFolderIdProperty, JString(folder));
      AddFirst(o, StorableItemNameProperty, JString(name))
  }

  // ---------------------------------------------------------------------------
  // Decoding

  /** The three ids `ReadObject` guards are present and not blank. */
  predicate HasIds(o: Properties) {
    && !IsNullOrWhiteSpace(StringField(o, EventIdProperty))
    && !IsNullOrWhiteSpace(StringField(o, WorkingFolderIdProperty))
    && !IsNullOrWhiteSpace(StringField(o, StorableItemIdProperty))
  }

  /** The tags `ReadObject` decodes; every other tag reads as null. */
  predicate IsFolderTag(tag: string) {
    tag == CreateFileInFolderTag || tag == CreateFolderInFolderTag || tag == DeletedFromFolderTag
  }

  predicate IsCreateTag(tag: string) {
    tag == CreateFileInFolderTag || tag == CreateFolderInFolderTag
  }

  /**
   * Validates and decodes one JSON object. The four string properties are read
   * first, then the three ids are guarded (before the tag is looked at), then
   * the tag selects the variant; an unknown tag is null, not an error.
   */
  function ReadObject(o: Properties): (r: ReadResult)
    ensures r.Success? ==> HasIds(o)
    ensures r.Success? && r.value.None? ==> !IsFolderTag(StringField(o, EventIdProperty).value)
    ensures r.Success? && r.value.Some? ==>
      var e := r.value.value;
      && e.IsFolderUpdateEvent()
      && Some(EventId(e)) == StringField(o, EventIdProperty)
      && Some(e.workingFolderId) == StringField(o, WorkingFolderIdProperty)
      && Some(e.storableItemId) == StringField(o, StorableItemIdProperty)
      && Some(e.storableItemName) == StringField(o, StorableItemNameProperty)
      && (e.IsCreateEvent() ==> OverwriteProperty in o && o[OverwriteProperty] == JBool(e.overwrite))
  {
    var eventId :- StringValue(o, EventIdProperty);
    var workingFolderId :- StringValue(o, WorkingFolderIdProperty);
    var storableItemId :- StringValue(o, StorableItemIdProperty);
    var storableItemName :- StringValue(o, StorableItemNameProperty);
    var tag :- GuardNotNullOrWhiteSpace(eventId, EventIdProperty);
    var folder :- GuardNotNullOrWhiteSpace(workingFolderId, WorkingFolderIdProperty);
    var item :- GuardNotNullOrWhiteSpace(storableItemId, StorableItemIdProperty);
    if tag == CreateFileInFolderTag then
      var name :- GuardNotNull(storableItemName, StorableItemNameProperty);
      var overwrite :- BoolValue(o, OverwriteProperty);
      var overwrite :- GuardNotNull(overwrite, OverwriteProperty);
      Success(Some(CreateFileInFolderEvent(folder, item, name, overwrite)))
    else if tag == CreateFolderInFolderTag then
      var name :- GuardNotNull(storableItemName, StorableItemNameProperty);
      var overwrite :- BoolValue(o, OverwriteProperty);
      var overwrite :- GuardNotNull(overwrite, OverwriteProperty);
      Success(Some(CreateFolderInFolderEvent(folder, item, name, overwrite)))
    else if tag == DeletedFromFolderTag then
      var name :- GuardNotNull(storableItemName, StorableItemNameProperty);
      Success(Some(DeleteFromFolderEvent(folder, item, name)))
    else
      Success(None)
  }

  /**
   * Decodes a token: an object is validated and decoded, an array yields its
   * first element that decodes to an event, any other kind is not supported.
   */
  function ReadToken(t: JToken): (r: ReadResult)
    ensures !(t.JObject? || t.JArray?) ==> r == Failure(NotSupported)
    ensures r.Success? && r.value.Some? ==> r.value.value.IsFolderUpdateEvent()
    decreases t
  {
    match t
    case JArray(items) => ReadArray(items)
    case JObject(properties) => ReadObject(properties)
    case _ => Failure(NotSupported)
  }

  /**
   * `Select(Read).PruneNull().FirstOrDefault()`, taken as a left-to-right
   * scan that stops at the first element that decodes to an event or throws.
   * An empty array reads as null, and whatever event an array yields, however
   * deeply nested, is a folder event.
   */
  function ReadArray(items: seq<JToken>): (r: ReadResult)
    ensures items == [] ==> r == Success(None)
    ensures r.Success? && r.value.Some? ==> r.value.value.IsFolderUpdateEvent()
    decreases items
  {
    if |items| == 0 then Success(None)
    else
      var head := ReadToken(items[0]);
      if head.Failure? || head.value.Some? then head else ReadArray(items[1..])
  }

  // ---------------------------------------------------------------------------
  // Properties of the codec

  /** A folder event whose ids `ReadObject` accepts: the events that round-trip. */
  predicate IsWellFormedFolderEvent(e: StorageUpdateEvent) {
    e.IsFolderUpdateEvent() && !IsBlank(e.workingFolderId) && !IsBlank(e.storableItemId)
  }

  /** No discriminator tag is blank, so the `eventId` guard never rejects a written event. */
  lemma EventIdIsNotBlank(e: StorageUpdateEvent)
    ensures !IsBlank(EventId(e))
  {
    assert !IsWhiteSpace(EventId(e)[0]);
  }

  /**
   * Reading back what `Write` produced gives the same event exactly for the
   * folder events with non-blank ids.
   */
  lemma WriteThenRead(e: StorageUpdateEvent)
    ensures ReadObject(Write(e)) == Success(Some(e)) <==> IsWellFormedFolderEvent(e)
  {
    EventIdIsNotBlank(e);
  }

  /**
   * A file update is written without `workingFolderId` (or `newContentId`),
   * so reading it back fails the `workingFolderId` guard.
   */
  lemma FileUpdateEventDoesNotRoundTrip(e: StorageUpdateEvent)
    requires e.FileUpdateEvent?
    ensures ReadObject(Write(e)) == Failure(ArgumentNull(WorkingFolderIdProperty))
  {
    EventIdIsNotBlank(e);
  }

  /**
   * An object whose properties have the kinds the conversions take: the four
   * strings are strings or null, and `overwrite`, if present, is a boolean.
   */
  predicate IsWellKinded(o: Properties) {
    && StringValue(o, EventIdProperty).Success?
    && StringValue(o, WorkingFolderIdProperty).Success?
    && StringValue(o, StorableItemIdProperty).Success?
    && StringValue(o, StorableItemNameProperty).Success?
    && (OverwriteProperty in o ==> o[OverwriteProperty].JBool?)
  }

  /**
   * The exact outcome of `ReadObject` on a well-kinded object. It fails iff an
   * id is missing, null or blank (whatever the tag), or the tag is a folder
   * tag and the name is missing (an empty name is accepted), or the tag is a
   * create tag and `overwrite` is missing. It is null iff the ids are present
   * and the tag is not a folder tag (`file_update` included).
   */
  lemma ReadObjectOutcome(o: Properties)
    requires IsWellKinded(o)
    ensures ReadObject(o).Failure? <==>
      || !HasIds(o)
      || (IsFolderTag(StringField(o, EventIdProperty).value) && StringField(o, StorableItemNameProperty).None?)
      || (IsCreateTag(StringField(o, EventIdProperty).value) && OverwriteProperty !in o)
    ensures !HasIds(o) ==>
      && ReadObject(o).Failure?
      && (ReadObject(o).error.ArgumentNull? || ReadObject(o).error.ArgumentWhiteSpace?)
      && ReadObject(o).error.paramName in {EventIdProperty, WorkingFolderIdProperty, StorableItemIdProperty}
    ensures ReadObject(o) == Success(None) <==> HasIds(o) && !IsFolderTag(StringField(o, EventIdProperty).value)
  {
  }

  /** Every element before index `k` decodes to null. */
  ghost predicate AllNullBefore(items: seq<JToken>, k: int)
    requires 0 <= k <= |items|
  {
    forall j :: 0 <= j < k ==> ReadToken(items[j]) == Success(None)
  }

  /**
   * Reading an array is the outcome of its first element that does not decode
   * to null (an event or an exception), or null when every element decodes to
   * null. Elements after that one are never read.
   */
  lemma {:induction false} ReadArrayIsFirstNonNull(items: seq<JToken>)
    ensures ReadArray(items) == Success(None) <==> AllNullBefore(items, |items|)
    ensures ReadArray(items) != Success(None) ==>
      exists k :: 0 <= k < |items| && AllNullBefore(items, k) && ReadArray(items) == ReadToken(items[k])
  {
    if |items| > 0 {
      if ReadToken(items[0]) == Success(None) {
        var rest := items[1..];
        ReadArrayIsFirstNonNull(rest);
        assert ReadArray(items) == ReadArray(rest);
        assert AllNullBefore(items, |items|) <==> AllNullBefore(rest, |rest|) by {
          forall j | 1 <= j < |items| ensures items[j] == rest[j - 1] { }
        }
        if ReadArray(items) != Success(None) {
          var k :| 0 <= k < |rest| && AllNullBefore(rest, k) && ReadArray(rest) == ReadToken(rest[k]);
          assert items[k + 1] == rest[k];
          assert AllNullBefore(items, k + 1) by {
            forall j | 1 <= j < k + 1 ensures ReadToken(items[j]) == Success(None) {
              assert items[j] == rest[j - 1];
            }
          }
        }
      } else {
        assert AllNullBefore(items, 0);
      }
    }
  }
}
