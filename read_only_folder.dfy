/**
 * The base state of a materialised folder: its identity, its replay position,
 * the items it holds at that position, and the shared registry it joined when
 * it was constructed. How an entry changes the items is declared abstract in
 * the source and is not part of this model.
 */
module ReadOnlyFolders {
  import opened Wrappers
  import opened Events
  import opened Storage

  /** Where a listing first sees its cancellation token cancelled: before item `k`, or never. */
  function StopIndex(cancelledBefore: Option<nat>, count: nat): (k: nat)
    ensures k <= count
  {
    match cancelledBefore
    case None => count
    case Some(c) => if c < count then c else count
  }

  /** The index of the first child with the given id, if there is one. */
  function FirstWithId(s: seq<StorableChild>, id: string): (r: Option<nat>)
    ensures r.None? <==> forall i :: 0 <= i < |s| ==> s[i].id != id
    ensures r.Some? ==> r.value < |s| && s[r.value].id == id
    ensures r.Some? ==> forall j :: 0 <= j < r.value ==> s[j].id != id
  {
    if s == [] then None
    else if s[0].id == id then Some(0)
    else match FirstWithId(s[1..], id)
      case None => None
      case Some(i) => Some(i + 1)
  }

  class ReadOnlyNomadFolder<Entry> {
    /** The shared registry this folder added itself to: the same object, not a copy. */
    const listeningEventStreamHandlers: HandlerRegistry
    const id: string
    const name: string
    const sources: seq<ContentPointer>
    /** The parent folder, or null for a parentless folder. */
    const parent: ReadOnlyNomadFolder?<Entry>
    /** The last applied entry; null when nothing has been replayed. */
    var eventStreamPosition: Option<Entry>
    /** The items in this folder at the current replay position. */
    var items: seq<StorableChild>

    /** Appends the new folder to the shared registry and keeps that registry. */
    constructor (listeningEventStreamHandlers: HandlerRegistry, id: string, name: string,
                 sources: seq<ContentPointer>, parent: ReadOnlyNomadFolder?<Entry>, items: seq<StorableChild>)
      modifies listeningEventStreamHandlers
      ensures this.listeningEventStreamHandlers == listeningEventStreamHandlers
      ensures listeningEventStreamHandlers.handlers == old(listeningEventStreamHandlers.handlers) + [this]
      ensures this.id == id && this.name == name && this.sources == sources && this.parent == parent
      ensures eventStreamPosition == None && this.items == items
    {
      this.listeningEventStreamHandlers := listeningEventStreamHandlers;
      this.id := id;
      this.name := name;
      this.sources := sources;
      this.parent := parent;
      eventStreamPosition := None;
      this.items := items;
      new;
      listeningEventStreamHandlers.Add(this);
    }

    /**
     * Back to "nothing replayed": no position and no items. Identity, sources,
     * parent and the registry are untouched, and the new state does not depend
     * on the old one, so a second reset changes nothing.
     */
    method ResetEventStreamPosition()
      modifies this
      ensures eventStreamPosition == None && items == []
      ensures unchanged(listeningEventStreamHandlers)
    {
      eventStreamPosition := None;
      items := [];
    }

    /**
     * Lists the items of the requested kind, in order, stopping without error
     * before item `k` when cancellation is first seen there.
     */
    method GetItems(kind: StorableType, cancelledBefore: Option<nat>) returns (listed: seq<StorableChild>)
      ensures listed == Filtered(items[..StopIndex(cancelledBefore, |items|)], kind)
    {
      listed := [];
      var i := 0;
      while i < |items|
        invariant 0 <= i <= StopIndex(cancelledBefore, |items|)
        invariant listed == Filtered(items[..i], kind)
      {
        if cancelledBefore == Some(i) {
          break;
        }
        var item := items[i];
        assert items[..i + 1] == items[..i] + [item];
        FilteredConcat(items[..i], [item], kind);
        if IsRequested(item, kind) {
          listed := listed + [item];
        }
        i := i + 1;
      }
    }

    /** The first item with the given id; not-found when there is none. */
    function GetItem(id: string): (r: Result<StorableChild, Exception>)
      reads this
      ensures r.Failure? <==> forall i :: 0 <= i < |items| ==> items[i].id != id
      ensures r.Failure? ==> r.error == FileNotFound
      ensures r.Success? ==>
        exists i :: 0 <= i < |items| && items[i] == r.value && r.value.id == id
          && forall j :: 0 <= j < i ==> items[j].id != id
    {
      match FirstWithId(items, id)
      case None => Failure(FileNotFound)
      case Some(i) => Success(items[i])
    }

    /** The stored parent, returned as is: null for a parentless folder. */
    function GetParent(): (p: ReadOnlyNomadFolder?<Entry>)
      ensures p == parent
    {
      parent
    }
  }

  /** Without cancellation, listing everything yields the items exactly, in order. */
  method ListAllWithoutCancellation<Entry>(folder: ReadOnlyNomadFolder<Entry>) returns (listed: seq<StorableChild>)
    ensures listed == folder.items
  {
    listed := folder.GetItems(All, None);
    assert folder.items[..|folder.items|] == folder.items;
    FilteredAll(folder.items);
  }

  /** A cancelled listing is a prefix of the uncancelled one. */
  method CancelledListingIsPrefix<Entry>(folder: ReadOnlyNomadFolder<Entry>, kind: StorableType, k: nat)
    returns (partial: seq<StorableChild>, full: seq<StorableChild>)
    ensures partial <= full
    ensures full == Filtered(folder.items, kind)
  {
    partial := folder.GetItems(kind, Some(k));
    full := folder.GetItems(kind, None);
    assert folder.items[..|folder.items|] == folder.items;
    FilteredPrefix(folder.items, StopIndex(Some(k), |folder.items|), kind);
  }

  /**
   * Resetting twice leaves the folder as resetting once does: the outputs are
   * the state after the first reset, and the second reset changes none of it.
   */
  method ResetTwice<Entry>(folder: ReadOnlyNomadFolder<Entry>)
    returns (positionAfterFirst: Option<Entry>, itemsAfterFirst: seq<StorableChild>)
    modifies folder
    ensures folder.eventStreamPosition == positionAfterFirst && folder.items == itemsAfterFirst
    ensures positionAfterFirst == None && itemsAfterFirst == []
  {
    folder.ResetEventStreamPosition();
    positionAfterFirst, itemsAfterFirst := folder.eventStreamPosition, folder.items;
    folder.ResetEventStreamPosition();
  }
}
