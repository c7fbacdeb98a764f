# Nomad storage: event schema, JSON codec and handler base state

This project is a Dafny model of two parts of OwlCore.Nomad.Storage. That
library materialises a file/folder tree by replaying append-only event
streams written by several independent sources.

1. **The storage update event schema and its JSON codec.**
   - `Events`: the closed set of event records as one datatype. Each variant's
     discriminator tag is a function (`file_update`, `create_file_in_folder`,
     `create_folder_in_folder`, `deleted_from_folder`). Every variant carries a
     `storableItemId`; only the three folder variants carry a
     `workingFolderId`. Datatype equality is the record equality. The tag is the default each
     record passes to its base; a reassigned tag is left out (see below).
   - `Json`: JSON tokens as a datatype. An object is a `map` from property name
     to token.
   - `EventSerialization`: the serialization helpers. `Write` builds the
     object one `AddFirst` at a time. `ReadObject` reads four string
     properties, guards the three ids, then decodes by tag. `ReadToken`
     dispatches on token kind; `ReadArray` is a left-to-right scan
     standing for `Select(...).PruneNull().FirstOrDefault()`.
   - `EventJsonConverter`: the JSON converter. `CanConvert` decides by type,
     `ReadJson` dispatches on the reader's token kind, and `WriteJson` writes
     one event or, in a loop, an array of events.
2. **The base state of a materialised folder or file handler.**
   - `Storage`: the shared registry of listening handlers (a class holding a
     `seq`), the children a folder lists, the `StorableType` kind filter, and
     the specification of a filtered listing.
   - `ReadOnlyFolders.ReadOnlyNomadFolder`: a class. Init-only properties are
     `const` fields; `EventStreamPosition` and `Items` are `var` fields.
   - `ReadOnlyFiles.ReadOnlyNomadFile`: a class with the same state, minus the
     children. `Name` is a `var` field because it is settable.

C# `null` becomes `Option`, and a thrown exception becomes the `Failure` case
of `Result`, with the exception's kind and argument name. An event-stream entry
is a type parameter `Entry` of the handler classes.

Three behaviours of the reader are easy to miss:
- a well-formed object with an unknown tag, `file_update` included, decodes to
  null rather than failing;
- an array decodes to its first element that is not null, not to every element;
- an empty `storableItemName` is accepted, because it is only checked for null.

## Model

| member | source | states |
|---|---|---|
| Events.EventId | src/Models/StorageUpdateEvent.cs:19-42 | each variant has its own fixed tag, and each tag belongs to exactly one variant (both directions) |
| Events.SameEventIdSameVariant | src/Models/StorageUpdateEvent.cs:19-42 | two events have equal tags iff they are the same variant, so the tag alone determines the variant |
| EventSerialization.GuardNotNullOrWhiteSpace | src/Models/FolderUpdateEventSerializationHelpers.cs:64-66 | passes exactly the non-null, non-blank strings; null throws argument-null, a blank string throws an argument exception, both naming the argument |
| EventSerialization.GuardNotNull | src/Models/FolderUpdateEventSerializationHelpers.cs:70-73 | passes exactly the non-null values, otherwise throws argument-null naming the argument |
| EventSerialization.Write | src/Models/FolderUpdateEventSerializationHelpers.cs:12-41 | never fails and never returns null; always emits `eventId` (the tag) and `storableItemId`; emits `workingFolderId` and `storableItemName` iff the event is a folder event, and `overwrite` iff it is a create event; emits nothing else (no `newContentId`) |
| EventSerialization.ReadObject | src/Models/FolderUpdateEventSerializationHelpers.cs:57-95 | success implies the three ids are present and not blank; null implies the tag is not a folder tag; a decoded event is a folder event whose tag, ids, name and overwrite flag are the object's own |
| EventSerialization.ReadToken | src/Models/FolderUpdateEventSerializationHelpers.cs:43-55 | any token other than an object or an array fails with not-supported; any event it yields is a folder event |
| EventSerialization.ReadArray | src/Models/FolderUpdateEventSerializationHelpers.cs:45-49 | an empty array reads as null; any event it yields, however deeply the arrays nest, is a folder event |
| EventSerialization.EventIdIsNotBlank | src/Models/StorageUpdateEvent.cs:19-42 | no event tag is blank, so the `eventId` guard never rejects a written event |
| EventSerialization.WriteThenRead | src/Models/FolderUpdateEventSerializationHelpers.cs:12-92 | reading back `Write(e)` gives `e` iff `e` is a create-file, create-folder or delete event with non-blank `workingFolderId` and `storableItemId` (any name, the empty one included) |
| EventSerialization.FileUpdateEventDoesNotRoundTrip | src/Models/FolderUpdateEventSerializationHelpers.cs:12-66 | a file update is written without `workingFolderId`, so reading it back throws argument-null for `workingFolderId` |
| EventSerialization.ReadObjectOutcome | src/Models/FolderUpdateEventSerializationHelpers.cs:57-94 | for objects whose properties have the expected kinds, decoding fails iff an id is missing, null or blank (the error then names an id, whatever the tag), or the tag is a folder tag and the name is missing, or the tag is a create tag and `overwrite` is missing; it yields null iff the ids are good and the tag is not a folder tag |
| EventJsonConverter.WrittenEventIsNeverNull | src/Models/FolderUpdateEventSerializationHelpers.cs:12-92 | an object written for any event reads back as an event or an exception, never as null, because every written tag is either a folder tag or the file-update tag whose object lacks `workingFolderId` |
| EventSerialization.ReadArrayIsFirstNonNull | src/Models/FolderUpdateEventSerializationHelpers.cs:45-49 | reading an array yields null iff every element reads as null; otherwise it is the outcome (event or exception) of the first element that does not read as null, with every earlier element reading as null |
| EventJsonConverter.CanConvert | src/Models/NomadEventJsonConverter.cs:13-23 | true exactly for the event base type and for arrays of it |
| EventJsonConverter.ReadJson | src/Models/NomadEventJsonConverter.cs:32-55 | a null token gives null; a property-name token gives the raw name; other token kinds fail with not-supported; an object token gives exactly the codec's `ReadObject` outcome and an array token exactly its `ReadArray` outcome, the same exception on failure and null or the same event on success |
| EventJsonConverter.WriteJson | src/Models/NomadEventJsonConverter.cs:58-87 | null writes nothing; one event writes the codec's object for it; an event array writes an array of the same length whose i-th element is the codec's object for the i-th event; any other value fails with not-supported |
| EventJsonConverter.SingleEventRoundTrip | src/Models/NomadEventJsonConverter.cs:42-66 | a folder event with non-blank ids, written by the converter and read back, is the same event |
| EventJsonConverter.FileUpdateEventDoesNotReadBack | src/Models/NomadEventJsonConverter.cs:42-66 | a file update written by the converter fails to read back, with argument-null for `workingFolderId` |
| EventJsonConverter.EventArrayReadsBackFirstOnly | src/Models/NomadEventJsonConverter.cs:48-81 | reading back an array written for any non-empty list of events is reading back its first event alone, whatever follows it; for a well-formed first event that is the first event, so the list does not round-trip |
| Storage.HandlerRegistry.Add | src/ReadOnlyNomadFolder.cs:25 | appends the handler to the shared list |
| Storage.FilteredConcat | src/ReadOnlyNomadFolder.cs:71-78 | filtering two halves and joining them is filtering the whole |
| Storage.FilteredMembership | src/ReadOnlyNomadFolder.cs:71-78 | an item is listed iff it is among the items and the kind requested is `All`, or it is a file and `File` is requested, or it is a folder and `Folder` is requested |
| Storage.FilteredIsSubsequence | src/ReadOnlyNomadFolder.cs:71-78 | the listing is an order-preserving subsequence of the items |
| Storage.FilteredAll | src/ReadOnlyNomadFolder.cs:71-78 | listing `All` keeps every item, in order |
| Storage.FilteredPrefix | src/ReadOnlyNomadFolder.cs:71-78 | the listing of a prefix of the items is a prefix of the full listing |
| ReadOnlyFolders.FirstWithId | src/ReadOnlyNomadFolder.cs:84 | the index of the first child with the id; absent iff no child has it |
| ReadOnlyFolders.ReadOnlyNomadFolder.constructor | src/ReadOnlyNomadFolder.cs:23-52 | the registry grows by exactly the new folder, at the end; the folder keeps that same registry object; nothing has been replayed yet |
| ReadOnlyFolders.ReadOnlyNomadFolder.ResetEventStreamPosition | src/ReadOnlyNomadFolder.cs:55-61 | position becomes null and the items empty; id, name, sources, parent and registry are unchanged |
| ReadOnlyFolders.ReadOnlyNomadFolder.GetItems | src/ReadOnlyNomadFolder.cs:67-79 | yields the kind-filtered items, in order, of the items before the point where cancellation is first seen (all of them without cancellation), without error when nothing changes the items during the listing |
| ReadOnlyFolders.ReadOnlyNomadFolder.GetItem | src/ReadOnlyNomadFolder.cs:82-89 | returns the first item with the id; fails with not-found iff no item has it; reads the items without changing them |
| ReadOnlyFolders.ReadOnlyNomadFolder.GetParent | src/ReadOnlyNomadFolder.cs:95 | returns the stored parent unchanged, null for a parentless folder |
| ReadOnlyFolders.ListAllWithoutCancellation | src/ReadOnlyNomadFolder.cs:71-78 | without cancellation, listing `All` yields exactly the items, in order |
| ReadOnlyFolders.CancelledListingIsPrefix | src/ReadOnlyNomadFolder.cs:71-78 | a listing cut short by cancellation is a prefix of the uncancelled listing |
| ReadOnlyFolders.ResetTwice | src/ReadOnlyNomadFolder.cs:55-61 | resetting twice leaves the folder as resetting once does: no position and no items after the first reset, and the second changes neither |
| ReadOnlyFiles.ReadOnlyNomadFile.constructor | src/ReadOnlyNomadFile.cs:22-53 | the registry grows by exactly the new file, at the end; the file keeps that same registry object; nothing has been replayed yet |
| ReadOnlyFiles.ReadOnlyNomadFile.ResetEventStreamPosition | src/ReadOnlyNomadFile.cs:43-47 | position becomes null; name, id, sources, parent and registry are unchanged |
| ReadOnlyFiles.ReadOnlyNomadFile.SetName | src/ReadOnlyNomadFile.cs:35 | the name can be reassigned after construction, and nothing else changes (id and sources are constants) |
| ReadOnlyFiles.ReadOnlyNomadFile.GetParent | src/ReadOnlyNomadFile.cs:69 | returns the stored parent, which is never null for a file |
| ReadOnlyFiles.ResetTwice | src/ReadOnlyNomadFile.cs:43-47 | resetting twice leaves the file as resetting once does: no position and the name as before after the first reset, and the second changes neither |
| ReadOnlyFiles.SharedRegistry | src/ReadOnlyNomadFile.cs:22-26 | a folder and then a file built on any registry are appended to it, in construction order, after what it already held, and both hold that same registry object |

## Left out

- The replay and merge logic is not modelled. That covers
  `TryAdvanceEventStreamAsync`, `ApplyEntryUpdateAsync`, `CreateFileAsync`,
  `CreateFolderAsync`, `DeleteAsync`, `AppendNewEntryAsync`, `OpenStreamAsync`
  and `GetFolderWatcherAsync`. They are declared abstract and have no body, so
  src/NomadFolder.cs and src/NomadFile.cs contribute nothing to model.
- The second set of records in src/Models/FolderUpdateEvent.cs is not
  modelled. It uses `nameof` tags and a converter that is not part of this
  model. The reader shown would decode those tags to null.
- src/Models/NomadFolderData.cs, NomadFileData.cs and NomadStorableData.cs are
  not modelled. They hold plain fields with no behaviour.
- ReadObject: Newtonsoft's `Value<T>()` coercions are not modelled. A string
  property that holds a number, or a boolean given as a string, becomes an
  `InvalidCast` failure. Newtonsoft would convert some of these.
- EventSerialization.ReadObjectOutcome is stated only for objects whose
  properties already have the expected kinds, for the reason above.
- Null strings inside events are not modelled. Record fields are non-nullable
  strings, so `Write` of an event with a null id is out of the model, and so is
  a null element in an event array passed to `WriteJson`.
- Events from outside the closed set are not modelled. The event base type is
  abstract but not sealed in C#.
- The JSON reader and writer are not modelled. `ReadJson` receives the token
  the reader stands on, with the object or array already loaded.
  `WriteJson` returns the token it would write.
- Events.EventId: the tag is taken to be the value each record passes to its
  base constructor. `EventId` is an `init` property, so an object initializer
  or a `with` expression can reassign it (a delete event tagged `file_update`,
  say); `Write` would then emit the reassigned tag and the event would read
  back as null. Such events are not modelled, so `WriteThenRead` does not
  cover them.
- ReadOnlyFolders.ReadOnlyNomadFolder.GetItems: the listing is modelled as one
  atomic read of `Items`. The source is a lazy async iterator over the list;
  a change to `Items` between two yields (a reset clearing it, say) makes the
  list enumerator throw `InvalidOperationException`, and that is not modelled.
- Async scheduling is not modelled. That covers `Task.Yield`, tasks and the
  cancellation token itself. Cancellation is an input: the index before which
  the token is first seen cancelled.
- EventSerialization.ReadArray: the scan stops at the first element that
  decodes to an event or throws, which holds if `PruneNull` (from
  OwlCore.Extensions, not part of this model) is a lazy filter. Were it eager,
  an exception from a later element would make the whole read fail even after
  an event had been found.
- ReadOnlyFolders.ReadOnlyNomadFolder.ResetEventStreamPosition: `Items.Clear()`
  empties the folder's list object in place, and that object is publicly
  reachable. The model reassigns `items := []`, so other holders of the old
  list, which would see it emptied, are not modelled.
- Folder items are modelled as values (id, name, and whether the item is a
  file and/or a folder), not as live objects. Their identity and aliasing are
  not captured.
- A file's `Parent` is typed as the folder class of this model. In C# it is
  any folder.
- Whitespace is the set of characters .NET's `char.IsWhiteSpace` accepts,
  written out in the model.
- The registry stands for any `ICollection`. It is modelled as a list, so `Add`
  appends.
- The content store, stream opening and the publication key name
  (`LocalEventStreamKeyName`) are I/O against external services and are not
  modelled.
