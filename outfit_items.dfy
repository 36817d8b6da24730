/**
 * The outfit-log routes: entries that record a rating or a like for one of
 * the user's clothing items, listed, added, updated and deleted per owner.
 */
module OutfitItems {
  import opened Common
  import opened Tables
  import opened Response

  /** A stored log entry (its id and owner live in the enclosing `Doc`). */
  datatype LogEntry = LogEntry(itemId: Id, rating: Option<int>, description: Option<string>, liked: bool)

  type Entry = Doc<LogEntry>

  /** The body of POST /add. `itemId` is `None` when absent or empty. */
  datatype LogBody = LogBody(itemId: Option<Id>, rating: Option<int>, description: Option<string>, liked: Option<bool>)

  /** The body of PUT /update/:id: every field it names is written over the stored one. */
  datatype LogPatch = LogPatch(
    userId: Option<Id>, itemId: Option<Id>, rating: Option<int>, description: Option<string>, liked: Option<bool>)

  /** The `data` of the success envelopes these routes send. */
  datatype Payload = Entries(entries: seq<Entry>) | Saved(message: string, entry: Entry) | Note(text: string)

  const MissingItemDescription: string := "itemId is required."
  const UpdateNotFoundDescription: string := "Could not find the outfit item to update."
  const DeleteNotFoundDescription: string := "Item not found or you are not authorized to delete it."
  const AddedMessage: string := "Outfit item added successfully"
  const UpdatedMessage: string := "Outfit item updated successfully"
  const DeletedMessage: string := "Outfit item deleted successfully"

  /**
   * The entry POST /add saves: owned by the requester, with `liked` stored as
   * false whenever the body's value is absent or false (`liked || false`).
   */
  function NewEntry(id: Id, owner: Id, itemId: Id, body: LogBody): (e: Entry)
    ensures e.id == id && e.userId == owner && e.body.itemId == itemId
    ensures e.body.rating == body.rating && e.body.description == body.description
    ensures e.body.liked <==> body.liked == Some(true)
  {
    Doc(id, owner, LogEntry(itemId, body.rating, body.description, body.liked.GetOr(false)))
  }

  /** The document `findOneAndUpdate` stores: fields named in the patch overwrite, all others stay. */
  function ApplyPatch(d: Entry, p: LogPatch): (r: Entry)
    ensures r.id == d.id && r.userId == p.userId.GetOr(d.userId)
    ensures r.body.itemId == p.itemId.GetOr(d.body.itemId) && r.body.liked == p.liked.GetOr(d.body.liked)
    ensures r.body.rating == (if p.rating.Some? then p.rating else d.body.rating)
    ensures r.body.description == (if p.description.Some? then p.description else d.body.description)
  {
    Doc(d.id, p.userId.GetOr(d.userId),
      LogEntry(p.itemId.GetOr(d.body.itemId),
               if p.rating.Some? then p.rating else d.body.rating,
               if p.description.Some? then p.description else d.body.description,
               p.liked.GetOr(d.body.liked)))
  }

  /** An update body naming no field leaves the entry as it was. */
  lemma EmptyPatchKeeps(d: Entry)
    ensures ApplyPatch(d, LogPatch(None, None, None, None, None)) == d
  {
  }

  /**
   * Sending the same update twice stores what sending it once stores, and two
   * updates in a row store what one update naming both sets of fields stores,
   * the later value winning where both name a field.
   */
  lemma PatchesCompose(d: Entry, p: LogPatch, q: LogPatch)
    ensures ApplyPatch(ApplyPatch(d, p), p) == ApplyPatch(d, p)
    ensures ApplyPatch(ApplyPatch(d, p), q) == ApplyPatch(d, Merge(p, q))
  {
  }

  /** One update body naming every field either body names; `later` wins where both do. */
  function Merge(earlier: LogPatch, later: LogPatch): LogPatch {
    LogPatch(
      if later.userId.Some? then later.userId else earlier.userId,
      if later.itemId.Some? then later.itemId else earlier.itemId,
      if later.rating.Some? then later.rating else earlier.rating,
      if later.description.Some? then later.description else earlier.description,
      if later.liked.Some? then later.liked else earlier.liked)
  }

  /** The update applied by PUT /update/:id, as a function on documents. */
  function Patcher(p: LogPatch): Entry -> Entry {
    d => ApplyPatch(d, p)
  }

  /** The outfit-log collection. */
  class OutfitLog {
    var entries: seq<Entry>
    var nextId: Id

    ghost predicate Valid()
      reads this
    {
      Keyed(entries, nextId)
    }

    constructor ()
      ensures Valid() && entries == []
    {
      entries := [];
      nextId := 0;
    }

    /** GET /: the requester's entries and no one else's. */
    method List(requester: Id) returns (reply: Reply<Payload>)
      ensures reply == Accepted(OK, Entries(OwnedBy(entries, requester)))
      ensures forall d :: d in reply.body.data.entries ==> d.userId == requester
    {
      reply := Accepted(OK, Entries(OwnedBy(entries, requester)));
    }

    /** POST /add. */
    method Add(requester: Id, body: LogBody) returns (reply: Reply<Payload>)
      requires Valid()
      modifies this
      ensures Valid()
      ensures body.itemId.None? ==> reply == Rejected(BAD_REQUEST, MissingItemDescription) && unchanged(this)
      ensures body.itemId.Some? ==>
        var saved := NewEntry(old(nextId), requester, body.itemId.value, body);
        && entries == old(entries) + [saved]
        && nextId == old(nextId) + 1
        && reply == Accepted(CREATED, Saved(AddedMessage, saved))
    {
      if body.itemId.None? {
        return Rejected(BAD_REQUEST, MissingItemDescription);
      }
      var saved := NewEntry(nextId, requester, body.itemId.value, body);
      InsertKeyed(entries, nextId, saved);
      entries := entries + [saved];
      nextId := nextId + 1;
      reply := Accepted(CREATED, Saved(AddedMessage, saved));
    }

    /** PUT /update/:id: only the requester's entry with that id changes. */
    method Update(requester: Id, id: Id, patch: LogPatch) returns (reply: Reply<Payload>)
      requires Valid()
      modifies this`entries
      ensures Valid()
      ensures entries == UpdateOwned(old(entries), id, requester, Patcher(patch))
      ensures FindOwned(old(entries), id, requester).None? ==>
        reply == Rejected(NOT_FOUND, UpdateNotFoundDescription) && entries == old(entries)
      ensures FindOwned(old(entries), id, requester).Some? ==>
        reply == Accepted(OK, Saved(UpdatedMessage, ApplyPatch(FindOwned(old(entries), id, requester).value, patch)))
    {
      var found := FindOwned(entries, id, requester);
      UpdateOwnedKeyed(entries, nextId, id, requester, Patcher(patch));
      if found.None? {
        UpdateOwnedMiss(entries, id, requester, Patcher(patch));
      }
      entries := UpdateOwned(entries, id, requester, Patcher(patch));
      if found.None? {
        reply := Rejected(NOT_FOUND, UpdateNotFoundDescription);
      } else {
        reply := Accepted(OK, Saved(UpdatedMessage, ApplyPatch(found.value, patch)));
      }
    }

    /** DELETE /delete/:id: the null check comes before any use of the result. */
    method Delete(requester: Id, id: Id) returns (reply: Reply<Payload>)
      requires Valid()
      modifies this`entries
      ensures Valid()
      ensures entries == DeleteOwned(old(entries), id, requester)
      ensures FindOwned(entries, id, requester).None?
      ensures FindOwned(old(entries), id, requester).None? ==>
        reply == Rejected(NOT_FOUND, DeleteNotFoundDescription) && entries == old(entries)
      ensures FindOwned(old(entries), id, requester).Some? ==>
        reply == Accepted(OK, Note(DeletedMessage)) && |entries| == |old(entries)| - 1
    {
      var found := FindOwned(entries, id, requester);
      DeleteOwnedKeyed(entries, nextId, id, requester);
      if found.None? {
        DeleteOwnedMiss(entries, id, requester);
      } else {
        DeleteOwnedHit(entries, nextId, id, requester);
      }
      entries := DeleteOwned(entries, id, requester);
      if found.None? {
        reply := Rejected(NOT_FOUND, DeleteNotFoundDescription);
      } else {
        reply := Accepted(OK, Note(DeletedMessage));
      }
    }
  }

  /**
   * An update that keeps the entry with its owner leaves the entry findable
   * under the same id and owner, and changes no other user's listing.
   */
  lemma UpdateKeepsEntryScoped(entries: seq<Entry>, id: Id, requester: Id, patch: LogPatch, other: Id)
    requires patch.userId.None? || patch.userId == Some(requester)
    requires other != requester
    requires FindOwned(entries, id, requester).Some?
    ensures FindOwned(UpdateOwned(entries, id, requester, Patcher(patch)), id, requester)
         == Some(ApplyPatch(FindOwned(entries, id, requester).value, patch))
    ensures OwnedBy(UpdateOwned(entries, id, requester, Patcher(patch)), other) == OwnedBy(entries, other)
  {
    FindAfterUpdate(entries, id, requester, Patcher(patch));
    UpdateOwnedIsolation(entries, id, requester, Patcher(patch), other);
  }
}
