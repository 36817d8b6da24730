/**
 * The wardrobe routes: list, add, update and delete clothing items, each
 * scoped to the user named by the request's token.
 */
module Clothes {
  import opened Common
  import opened Tables
  import opened Response

  /** The descriptive fields of a clothing item. */
  datatype Field =
    | Name | Category | SubCategory | OccasionId | Description | Size | Color
    | ImageUrl | ImagePublicId | Material | Brand | Season | TemperatureRange

  /** The fields POST /add takes from the request body; the image fields come from the upload. */
  const BodyFields: set<Field> :=
    {Name, Category, SubCategory, OccasionId, Description, Size, Color, Material, Brand, Season, TemperatureRange}

  /** The fields POST /add refuses to do without. */
  const RequiredFields: set<Field> := {Name, Category, Color, OccasionId, Season}

  /** A stored clothing item (its id and owner live in the enclosing `Doc`). */
  datatype Cloth = Cloth(fields: map<Field, string>, isActive: bool)

  type Item = Doc<Cloth>

  /** What became of the uploaded image before the item is saved. */
  datatype Upload =
    | NoFile                                   // no `image` part in the request
    | Stored(secureUrl: string, publicId: string)
    | UploadFailed                             // the image host rejected the upload

  /** The body of PUT /update/:id: every field it names is written over the stored one. */
  datatype ClothPatch = ClothPatch(userId: Option<Id>, isActive: Option<bool>, fields: map<Field, string>)

  /** The `data` of the success envelopes these routes send. */
  datatype Payload = Items(items: seq<Item>) | Saved(message: string, item: Item) | Note(text: string)

  const MissingFieldsDescription: string := "Name, Category, SubCategory, Season and OccasionId are required."
  const UpdateNotFoundDescription: string := "Could not find the clothing item to update."
  const AddedMessage: string := "Clothing item added successfully"
  const UpdatedMessage: string := "Item updated successfully"
  const DeletedMessage: string := "Item deleted successfully"

  /** The value of field `f` in a body or an item, if any. */
  function Given(fields: map<Field, string>, f: Field): Option<string> {
    if f in fields then Some(fields[f]) else None
  }

  /** The guard of POST /add: name, category, color, occasionId and season are all truthy. */
  predicate HasRequiredFields(body: map<Field, string>) {
    Present(Given(body, Name)) && Present(Given(body, Category)) && Present(Given(body, Color))
    && Present(Given(body, OccasionId)) && Present(Given(body, Season))
  }

  /** The guard checks exactly the required fields; sub-category is not among them. */
  lemma RequiredFieldsChecked(body: map<Field, string>)
    ensures HasRequiredFields(body) <==> forall f :: f in RequiredFields ==> Present(Given(body, f))
    ensures SubCategory !in RequiredFields
  {
    if forall f :: f in RequiredFields ==> Present(Given(body, f)) {
      assert Name in RequiredFields && Category in RequiredFields && Color in RequiredFields;
      assert OccasionId in RequiredFields && Season in RequiredFields;
    }
  }

  /**
   * The item POST /add saves: the body's descriptive fields, the uploaded
   * image, the requester as owner and `isActive` set, whatever the body says.
   */
  function NewCloth(id: Id, owner: Id, body: map<Field, string>, url: string, publicId: string): (d: Item)
    ensures d.id == id && d.userId == owner && d.body.isActive
    ensures Given(d.body.fields, ImageUrl) == Some(url) && Given(d.body.fields, ImagePublicId) == Some(publicId)
    ensures forall f :: f in BodyFields ==> Given(d.body.fields, f) == Given(body, f)
  {
    var kept := map f | f in body && f in BodyFields :: body[f];
    Doc(id, owner, Cloth(kept[ImageUrl := url][ImagePublicId := publicId], true))
  }

  /** The document `findOneAndUpdate` stores: fields named in the patch overwrite, all others stay. */
  function ApplyPatch(d: Item, p: ClothPatch): (r: Item)
    ensures r.id == d.id
    ensures r.userId == p.userId.GetOr(d.userId) && r.body.isActive == p.isActive.GetOr(d.body.isActive)
    ensures forall f :: f in p.fields ==> Given(r.body.fields, f) == Some(p.fields[f])
    ensures forall f :: f !in p.fields ==> Given(r.body.fields, f) == Given(d.body.fields, f)
  {
    Doc(d.id, p.userId.GetOr(d.userId), Cloth(d.body.fields + p.fields, p.isActive.GetOr(d.body.isActive)))
  }

  /** The update applied by PUT /update/:id, as a function on documents. */
  function Patcher(p: ClothPatch): Item -> Item {
    d => ApplyPatch(d, p)
  }

  /** The clothing collection. */
  class Wardrobe {
    var items: seq<Item>
    var nextId: Id

    ghost predicate Valid()
      reads this
    {
      Keyed(items, nextId)
    }

    constructor ()
      ensures Valid() && items == []
    {
      items := [];
      nextId := 0;
    }

    /** GET /: the requester's items and no one else's. */
    method List(requester: Id) returns (reply: Reply<Payload>)
      ensures reply == Accepted(OK, Items(OwnedBy(items, requester)))
      ensures forall d :: d in reply.body.data.items ==> d.userId == requester
    {
      reply := Accepted(OK, Items(OwnedBy(items, requester)));
    }

    /** POST /add. */
    method Add(requester: Id, body: map<Field, string>, upload: Upload) returns (reply: Reply<Payload>)
      requires Valid()
      modifies this
      ensures Valid()
      ensures !HasRequiredFields(body) ==>
        reply == Rejected(BAD_REQUEST, MissingFieldsDescription) && unchanged(this)
      ensures HasRequiredFields(body) && upload.NoFile? ==> reply == NotSent && unchanged(this)
      ensures HasRequiredFields(body) && upload.UploadFailed? ==> reply == Crashed() && unchanged(this)
      ensures HasRequiredFields(body) && upload.Stored? ==>
        var saved := NewCloth(old(nextId), requester, body, upload.secureUrl, upload.publicId);
        && items == old(items) + [saved]
        && nextId == old(nextId) + 1
        && reply == Accepted(CREATED, Saved(AddedMessage, saved))
    {
      if !HasRequiredFields(body) {
        return Rejected(BAD_REQUEST, MissingFieldsDescription);
      }
      match upload
      case NoFile =>
        // the handler returns the error envelope instead of sending it
        reply := NotSent;
      case UploadFailed =>
        reply := Crashed();
      case Stored(url, publicId) =>
        var saved := NewCloth(nextId, requester, body, url, publicId);
        InsertKeyed(items, nextId, saved);
        items := items + [saved];
        nextId := nextId + 1;
        reply := Accepted(CREATED, Saved(AddedMessage, saved));
    }

    /** PUT /update/:id: only the requester's item with that id changes. */
    method Update(requester: Id, id: Id, patch: ClothPatch) returns (reply: Reply<Payload>)
      requires Valid()
      modifies this`items
      ensures Valid()
      ensures items == UpdateOwned(old(items), id, requester, Patcher(patch))
      ensures FindOwned(old(items), id, requester).None? ==>
        reply == Rejected(NOT_FOUND, UpdateNotFoundDescription) && items == old(items)
      ensures FindOwned(old(items), id, requester).Some? ==>
        reply == Accepted(OK, Saved(UpdatedMessage, ApplyPatch(FindOwned(old(items), id, requester).value, patch)))
    {
      var found := FindOwned(items, id, requester);
      UpdateOwnedKeyed(items, nextId, id, requester, Patcher(patch));
      if found.None? {
        UpdateOwnedMiss(items, id, requester, Patcher(patch));
      }
      items := UpdateOwned(items, id, requester, Patcher(patch));
      if found.None? {
        reply := Rejected(NOT_FOUND, UpdateNotFoundDescription);
      } else {
        reply := Accepted(OK, Saved(UpdatedMessage, ApplyPatch(found.value, patch)));
      }
    }

    /**
     * DELETE /delete/:id. The handler reads `imagePublicId` of the query's
     * result before checking it for null, so a missing or foreign id ends in
     * the catch branch (500) and the 404 answer is never sent.
     */
    method Delete(requester: Id, id: Id) returns (reply: Reply<Payload>)
      requires Valid()
      modifies this`items
      ensures Valid()
      ensures items == DeleteOwned(old(items), id, requester)
      ensures FindOwned(old(items), id, requester).None? ==> reply == Crashed() && items == old(items)
      ensures FindOwned(old(items), id, requester).Some? ==>
        reply == Accepted(OK, Note(DeletedMessage)) && |items| == |old(items)| - 1
      ensures reply.Sent? && reply.status != NOT_FOUND
    {
      var found := FindOwned(items, id, requester);
      DeleteOwnedKeyed(items, nextId, id, requester);
      if found.None? {
        DeleteOwnedMiss(items, id, requester);
      } else {
        DeleteOwnedHit(items, nextId, id, requester);
      }
      items := DeleteOwned(items, id, requester);
      if found.None? {
        reply := Crashed();
      } else {
        reply := Accepted(OK, Note(DeletedMessage));
      }
    }
  }

  /**
   * An update whose body names no other owner cannot change what any other
   * user's listing shows.
   */
  lemma UpdateKeepingOwnerIsolated(items: seq<Item>, id: Id, requester: Id, patch: ClothPatch, other: Id)
    requires other != requester
    requires patch.userId.None? || patch.userId == Some(requester)
    ensures OwnedBy(UpdateOwned(items, id, requester, Patcher(patch)), other) == OwnedBy(items, other)
  {
    UpdateOwnedIsolation(items, id, requester, Patcher(patch), other);
  }

  /**
   * The update route does not protect `userId`: a body that names another
   * owner moves the requester's item into that user's listing.
   */
  lemma {:induction false} UpdateCanReassignOwner(items: seq<Item>, id: Id, requester: Id, patch: ClothPatch, other: Id)
    requires FindOwned(items, id, requester).Some?
    requires patch.userId == Some(other) && other != requester
    ensures ApplyPatch(FindOwned(items, id, requester).value, patch) in OwnedBy(UpdateOwned(items, id, requester, Patcher(patch)), other)
    ensures FindOwned(UpdateOwned(items, id, requester, Patcher(patch)), id, requester).None?
  {
    var d := FindOwned(items, id, requester).value;
    var r := UpdateOwned(items, id, requester, Patcher(patch));
    var i :| 0 <= i < |items| && items[i] == d;
    assert r[i] == ApplyPatch(d, patch);
    assert r[i] in r;
  }
}
