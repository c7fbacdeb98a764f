/**
 * The base state of a materialised file: its identity, a renameable name, its
 * parent folder, its replay position, and the shared registry it joined when
 * it was constructed. Opening the content and applying entries are declared
 * abstract in the source and are not part of this model.
 */
module ReadOnlyFiles {
  import opened Wrappers
  import opened Events
  import opened Storage
  import opened ReadOnlyFolders

  class ReadOnlyNomadFile<Entry> {
    /** The shared registry this file added itself to: the same object, not a copy. */
    const listeningEventStreamHandlers: HandlerRegistry
    const id: string
    /** Settable after construction, unlike the id and the sources. */
    var name: string
    /** The parent folder; a file always has one. */
    const parent: ReadOnlyNomadFolder<Entry>
    const sources: seq<ContentPointer>
    /** The last applied entry; null when nothing has been replayed. */
    var eventStreamPosition: Option<Entry>

    /** Appends the new file to the shared registry and keeps that registry. */
    constructor (listeningEventStreamHandlers: HandlerRegistry, id: string, name: string,
                 parent: ReadOnlyNomadFolder<Entry>, sources: seq<ContentPointer>)
      modifies listeningEventStreamHandlers
      ensures this.listeningEventStreamHandlers == listeningEventStreamHandlers
      ensures listeningEventStreamHandlers.handlers == old(listeningEventStreamHandlers.handlers) + [this]
      ensures this.id == id && this.name == name && this.parent == parent && this.sources == sources
      ensures eventStreamPosition == None
    {
      this.listeningEventStreamHandlers := listeningEventStreamHandlers;
      this.id := id;
      this.name := name;
      this.parent := parent;
      this.sources := sources;
      eventStreamPosition := None;
      new;
      listeningEventStreamHandlers.Add(this);
    }

    /**
     * Back to "nothing replayed". Only the position changes: the name, the
     * parent and the registry are untouched, so a second reset changes nothing.
     */
    method ResetEventStreamPosition()
      modifies this`eventStreamPosition
      ensures eventStreamPosition == None
      ensures name == old(name)
      ensures unchanged(listeningEventStreamHandlers)
    {
      eventStreamPosition := None;
    }

    /** The `Name` setter: only the name changes. */
    method SetName(newName: string)
      modifies this`name
      ensures name == newName
      ensures eventStreamPosition == old(eventStreamPosition)
    {
      name := newName;
    }

    /** The stored parent, which is never null for a file. */
    function GetParent(): (p: ReadOnlyNomadFolder<Entry>)
      ensures p == parent
    {
      parent
    }
  }

  /**
   * Resetting twice leaves the file as resetting once does: the outputs are
   * the state after the first reset, and the second reset changes none of it.
   */
  method ResetTwice<Entry>(file: ReadOnlyNomadFile<Entry>)
    returns (positionAfterFirst: Option<Entry>, nameAfterFirst: string)
    modifies file
    ensures file.eventStreamPosition == positionAfterFirst && file.name == nameAfterFirst
    ensures positionAfterFirst == None && nameAfterFirst == old(file.name)
  {
    file.ResetEventStreamPosition();
    positionAfterFirst, nameAfterFirst := file.eventStreamPosition, file.name;
    file.ResetEventStreamPosition();
  }

  /**
   * A folder and then a file built on any registry are appended to it, in
   * construction order, after whatever it already held, and both hold that
   * very registry.
   */
  method SharedRegistry<Entry>(registry: HandlerRegistry, folderId: string, folderName: string,
                               folderSources: seq<ContentPointer>, parent: ReadOnlyNomadFolder?<Entry>,
                               fileId: string, fileName: string, fileSources: seq<ContentPointer>)
    returns (folder: ReadOnlyNomadFolder<Entry>, file: ReadOnlyNomadFile<Entry>)
    modifies registry
    ensures registry.handlers == old(registry.handlers) + [folder, file]
    ensures fresh(folder) && fresh(file)
    ensures folder.listeningEventStreamHandlers == registry && file.listeningEventStreamHandlers == registry
    ensures file.GetParent() == folder && folder.GetParent() == parent
  {
    folder := new ReadOnlyNomadFolder<Entry>(registry, folderId, folderName, folderSources, parent, []);
    file := new ReadOnlyNomadFile<Entry>(registry, fileId, fileName, folder, fileSources);
  }
}
