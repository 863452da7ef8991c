/** recycle_bin.go: recycle bin entries, the accessors that decode the deleted
    item, and the list, restore and permanent-delete endpoints. */
module RecycleBin {
  import opened Wrappers
  import opened Text
  import opened Errors
  import opened Json
  import opened Models
  import opened Client

  /** A recycle bin entry; `deletable` is the raw JSON of the deleted item.
      The timestamps are not modelled. */
  datatype RecycleBinItem = RecycleBinItem(id: int, deletedBy: int, deletableType: string,
                                           deletableID: int, deletable: seq<byte>)

  /** The DeletableType tags the server uses. */
  const DeletedBook := "book"
  const DeletedChapter := "chapter"
  const DeletedShelf := "bookshelf"
  const DeletedPage := "page"

  /** The four type names are pairwise different, so a deletable_type names
      one record type. */
  lemma DeletedTypesDistinct()
    ensures DeletedBook != DeletedChapter && DeletedBook != DeletedShelf && DeletedBook != DeletedPage
    ensures DeletedChapter != DeletedShelf && DeletedChapter != DeletedPage && DeletedShelf != DeletedPage
  {
    assert DeletedBook[0] == 'b' && DeletedChapter[0] == 'c' && DeletedPage[0] == 'p';
    assert |DeletedBook| == 4 && |DeletedShelf| == 9;
  }

  /** A Go pointer result: nil, or a pointer to a value. */
  datatype Ref<T> = Nil | Ptr(target: T)

  /** Book, Chapter, Shelf and Page: ParseSingle of the raw item for the
      requested record type, returned by pointer with true unless ParseSingle
      fails. The accessor for a type is this function with that type's decoder. */
  function Deletable<T>(i: RecycleBinItem, decode: Decoder<T>): (r: (Ref<T>, bool))
    ensures r.1 && r.0 == Ptr(decode(i.deletable).value)
  {
    var (result, err) := ParseSingle(i.deletable, decode);
    if err.Some? then (Nil, false) else (Ptr(result), true)
  }

  /** The accessors never look at DeletableType: asking a page entry for a
      book still succeeds, with whatever the book decoder made of the page. */
  lemma DeletableIgnoresType<T>(i: RecycleBinItem, decode: Decoder<T>, tag: string)
    ensures Deletable(i.(deletableType := tag), decode) == Deletable(i, decode)
  {
  }

  /** Even bytes the decoder rejects give a pointer and true. */
  lemma DeletableNeverFails<T>(i: RecycleBinItem, decode: Decoder<T>)
    requires decode(i.deletable).err.Some?
    ensures Deletable(i, decode).1 && Deletable(i, decode).0.Ptr?
  {
  }

  /** ListRecycleBinItems: the request's error, else ParseMultiple's result
      or error, unchanged. */
  method ListRecycleBinItems(b: Bookstack, transport: Transport, envelope: Decoder<Response>,
                             decode: Decoder<seq<RecycleBinItem>>)
    returns (list: seq<RecycleBinItem>, err: Option<Error>)
    ensures var (raw, e) := Outcome(transport(BlankRequest(b, Get, "/recycle-bin")), envelope);
      && (e.Some? ==> list == [] && err == e)
      && (e.None? ==> match ParseMultiple(raw, envelope, decode)
                      case Success(items) => list == items && err.None?
                      case Failure(pe) => list == [] && err == Some(pe))
  {
    var _, raw, e := b.Request(Get, "/recycle-bin", Success(BlankForm()), transport, envelope);
    if e.Some? {
      return [], e;
    }
    var parsed := ParseMultiple(raw, envelope, decode);
    if parsed.Failure? {
      return [], Some(parsed.error);
    }
    return parsed.value, None;
  }

  /** Restoring an item, or deleting it for good. */
  datatype BinAction = Restore | Purge

  function ActionVerb(a: BinAction): Verb {
    match a
    case Restore => Put
    case Purge => Delete
  }

  /** The reply field that holds the count. */
  function CountKey(a: BinAction): string {
    match a
    case Restore => "restore_count"
    case Purge => "delete_count"
  }

  function ItemPath(id: int): string {
    "/recycle-bin/" + Itoa(id)
  }

  /** RestoreRecyleBinItem and DeleteRecycleBinItem. `count(key)` decodes a
      reply into struct{ Count int } whose field is tagged `key`; the action
      picks the key. A failed request or decode gives 0 and the error;
      otherwise the count. */
  method BinItemCount(b: Bookstack, a: BinAction, id: int, transport: Transport,
                      envelope: Decoder<Response>, count: string -> Decoder<int>)
    returns (n: int, err: Option<Error>)
    ensures var (raw, e) := Outcome(transport(BlankRequest(b, ActionVerb(a), ItemPath(id))), envelope);
      var reply := count(CountKey(a))(raw);
      && (e.Some? ==> n == 0 && err == e)
      && (e.None? && reply.err.Some? ==> n == 0 && err == reply.err)
      && (e.None? && reply.err.None? ==> n == reply.value && err.None?)
  {
    var _, raw, e := b.Request(ActionVerb(a), ItemPath(id), Success(BlankForm()), transport, envelope);
    if e.Some? {
      return 0, e;
    }
    var reply := count(CountKey(a))(raw);
    if reply.err.Some? {
      return 0, reply.err;
    }
    return reply.value, None;
  }
}
