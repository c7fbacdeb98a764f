/**
 * The storage update event schema: a closed set of positional records, each
 * variant fixing its own discriminator tag (`EventId`).
 *
 * Every variant carries `storableItemId`; exactly the three folder variants
 * carry `workingFolderId`; the create variants carry a name and an overwrite
 * flag, the delete variant a name only, and the file update only the new
 * content pointer. Dafny's structural equality on datatype values is the C#
 * record equality: two events are equal exactly when they are the same variant
 * with equal positional fields.
 */
module Events {

  /** An immutable content pointer (a CID); only equality and transport matter. */
  datatype ContentPointer = ContentPointer(cid: string)

  datatype StorageUpdateEvent =
    | FileUpdateEvent(storableItemId: string, newContentId: ContentPointer)
    | CreateFileInFolderEvent(workingFolderId: string, storableItemId: string, storableItemName: string, overwrite: bool)
    | CreateFolderInFolderEvent(workingFolderId: string, storableItemId: string, storableItemName: string, overwrite: bool)
    | DeleteFromFolderEvent(workingFolderId: string, storableItemId: string, storableItemName: string)
  {
    /** The variants that derive from the abstract `FolderUpdateEvent` record. */
    predicate IsFolderUpdateEvent() {
      !FileUpdateEvent?
    }

    /** The two variants that carry an `Overwrite` flag. */
    predicate IsCreateEvent() {
      CreateFileInFolderEvent? || CreateFolderInFolderEvent?
    }
  }

  const FileUpdateTag: string := "file_update"
  const CreateFileInFolderTag: string := "create_file_in_folder"
  const CreateFolderInFolderTag: string := "create_folder_in_folder"
  const DeletedFromFolderTag: string := "deleted_from_folder"

  /**
   * The discriminator each variant passes to its base record. The four tags are
   * pairwise distinct, so the tag alone identifies the variant.
   */
  function EventId(e: StorageUpdateEvent): (tag: string)
    ensures tag == FileUpdateTag <==> e.FileUpdateEvent?
    ensures tag == CreateFileInFolderTag <==> e.CreateFileInFolderEvent?
    ensures tag == CreateFolderInFolderTag <==> e.CreateFolderInFolderEvent?
    ensures tag == DeletedFromFolderTag <==> e.DeleteFromFolderEvent?
  {
    match e
    case FileUpdateEvent(_, _) => FileUpdateTag
    case CreateFileInFolderEvent(_, _, _, _) => CreateFileInFolderTag
    case CreateFolderInFolderEvent(_, _, _, _) => CreateFolderInFolderTag
    case DeleteFromFolderEvent(_, _, _) => DeletedFromFolderTag
  }

  /** Two events with the same tag are the same variant, and conversely. */
  lemma SameEventIdSameVariant(a: StorageUpdateEvent, b: StorageUpdateEvent)
    ensures EventId(a) == EventId(b) <==>
      && (a.FileUpdateEvent? <==> b.FileUpdateEvent?)
      && (a.CreateFileInFolderEvent? <==> b.CreateFileInFolderEvent?)
      && (a.CreateFolderInFolderEvent? <==> b.CreateFolderInFolderEvent?)
      && (a.DeleteFromFolderEvent? <==> b.DeleteFromFolderEvent?)
  {
  }
}
