/**
 * Shared pieces of the materialised storage tree: the registry of listening
 * event stream handlers, the children a folder lists, and the kind filter.
 */
module Storage {

  /**
   * The shared, mutable collection every live handler adds itself to when it
   * is constructed. It is a list: `Add` appends.
   */
  class HandlerRegistry {
    var handlers: seq<object>

    constructor ()
      ensures handlers == []
    {
      handlers := [];
    }

    method Add(handler: object)
      modifies this
      ensures handlers == old(handlers) + [handler]
    {
      handlers := handlers + [handler];
    }
  }

  /**
   * A child of a folder, as the folder's item list sees it: its id and name,
   * and whether it is a file, a folder, or (as a type test allows) both.
   */
  datatype StorableChild = StorableChild(id: string, name: string, isFile: bool, isFolder: bool)

  /** The `StorableType` flags: `All` is `File | Folder`. */
  datatype StorableType = StorableType(file: bool, folder: bool)

  const All: StorableType := StorableType(true, true)

  /** The listing keeps an item iff everything is asked for or the item has a requested kind. */
  predicate IsRequested(item: StorableChild, kind: StorableType) {
    kind == All || (item.isFile && kind.file) || (item.isFolder && kind.folder)
  }

  /** The items a listing of the given kind keeps, in their order. */
  function Filtered(s: seq<StorableChild>, kind: StorableType): seq<StorableChild> {
    if s == [] then []
    else (if IsRequested(s[0], kind) then [s[0]] else []) + Filtered(s[1..], kind)
  }

  /** `sub` is `s` with some elements left out, the rest kept in order. */
  ghost predicate IsSubsequence<T>(sub: seq<T>, s: seq<T>)
    decreases s
  {
    if sub == [] then true
    else if s == [] then false
    else (sub[0] == s[0] && IsSubsequence(sub[1..], s[1..])) || IsSubsequence(sub, s[1..])
  }

  /** Filtering the two halves of a sequence and joining them is filtering the whole. */
  lemma {:induction false} FilteredConcat(a: seq<StorableChild>, b: seq<StorableChild>, kind: StorableType)
    ensures Filtered(a + b, kind) == Filtered(a, kind) + Filtered(b, kind)
  {
    if a != [] {
      assert (a + b)[0] == a[0] && (a + b)[1..] == a[1..] + b;
      FilteredConcat(a[1..], b, kind);
    } else {
      assert a + b == b;
    }
  }

  /** An item is listed iff it is in the list and of a requested kind. */
  lemma {:induction false} FilteredMembership(s: seq<StorableChild>, kind: StorableType, x: StorableChild)
    ensures x in Filtered(s, kind) <==> x in s && IsRequested(x, kind)
  {
    if s != [] {
      FilteredMembership(s[1..], kind, x);
      assert s == [s[0]] + s[1..];
    }
  }

  /** The listing is an order-preserving subsequence of the items. */
  lemma {:induction false} FilteredIsSubsequence(s: seq<StorableChild>, kind: StorableType)
    ensures IsSubsequence(Filtered(s, kind), s)
  {
    if s != [] {
      FilteredIsSubsequence(s[1..], kind);
      if IsRequested(s[0], kind) {
        assert Filtered(s, kind)[1..] == Filtered(s[1..], kind);
      } else {
        assert Filtered(s, kind) == Filtered(s[1..], kind);
      }
    }
  }

  /** Asking for everything lists every item, in order. */
  lemma {:induction false} FilteredAll(s: seq<StorableChild>)
    ensures Filtered(s, All) == s
  {
    if s != [] {
      FilteredAll(s[1..]);
      assert s == [s[0]] + s[1..];
    }
  }

  /** A listing cut short before item `k` is a prefix of the full listing. */
  lemma FilteredPrefix(s: seq<StorableChild>, k: nat, kind: StorableType)
    requires k <= |s|
    ensures Filtered(s[..k], kind) <= Filtered(s, kind)
  {
    assert s == s[..k] + s[k..];
    FilteredConcat(s[..k], s[k..], kind);
  }
}
