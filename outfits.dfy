/**
 * The outfit lifecycle: generating a suggested outfit from the requester's
 * wardrobe while telling the generator which outfits to avoid, and moving an
 * outfit between the statuses suggested, worn and disliked.
 */
module Outfits {
  import opened Common
  import opened Tables
  import opened Response
  import Clothes

  datatype Status = Suggested | Worn | Disliked

  /** The string stored and accepted for each status. */
  function StatusName(s: Status): string {
    match s
    case Suggested => "suggested"
    case Worn => "worn"
    case Disliked => "disliked"
  }

  /**
   * The status check of the update handler: a missing status, or one outside
   * the three accepted strings, is refused.
   */
  function ParseStatus(s: Option<string>): (r: Option<Status>)
    ensures r.Some? <==> s.Some? && (s.value == "suggested" || s.value == "worn" || s.value == "disliked")
    ensures r.Some? ==> StatusName(r.value) == s.value
  {
    if s == Some("suggested") then Some(Suggested)
    else if s == Some("worn") then Some(Worn)
    else if s == Some("disliked") then Some(Disliked)
    else None
  }

  /** Every status is accepted under its own name. */
  lemma ParseStatusName(st: Status)
    ensures ParseStatus(Some(StatusName(st))) == Some(st)
  {
  }

  /** An outfit as the controller writes it (its id and owner live in the enclosing `Doc`). */
  datatype OutfitData = OutfitData(name: string, items: seq<Id>, status: Status)

  type Outfit = Doc<OutfitData>

  /** The statuses the generator is told to avoid. */
  predicate Excludes(s: Status) {
    s == Disliked || s == Suggested
  }

  /** `Outfit.find({ userId: owner, status: { $in: ['disliked', 'suggested'] } })`, in stored order. */
  function Excluded(outfits: seq<Outfit>, owner: Id): (r: seq<Outfit>)
    ensures forall o :: o in r ==> o in outfits && o.userId == owner && Excludes(o.body.status)
    ensures forall o :: o in outfits && o.userId == owner && Excludes(o.body.status) ==> o in r
  {
    if outfits == [] then []
    else
      var o := outfits[0];
      (if o.userId == owner && Excludes(o.body.status) then [o] else []) + Excluded(outfits[1..], owner)
  }

  /** What the outfit generator gives back: a list of item ids, nothing, or an exception. */
  datatype Proposal = Ids(ids: seq<Id>) | NoAnswer | Threw

  /**
   * How a handler ends: 201 with the new outfit, 200 with the updated one,
   * an error status with its message, or the error handed on to `next`.
   */
  datatype Outcome = Created(outfit: Outfit) | Updated(outfit: Outfit) | Failed(status: int, message: string) | Forwarded

  const MinWardrobe: nat := 3

  const NotAuthenticated: string := "User not authenticated."
  const NotEnoughItems: string :=
    "Not enough clothing items to generate an outfit. Please add more items to your wardrobe."
  const NoUniqueOutfit: string := "Could not generate a new unique outfit with the available items."
  const InvalidStatus: string := "Invalid status provided."
  const OutfitNotFound: string := "Outfit not found or you don't have permission to change it."

  /** The label of a generated outfit, from the server's current date. */
  function NewOutfitName(today: string): string {
    "New Outfit - " + today
  }

  /** The outfit after `outfit.status = status`: nothing else about it changes. */
  function WithStatus(o: Outfit, st: Status): (r: Outfit)
    ensures r.id == o.id && r.userId == o.userId
    ensures r.body.name == o.body.name && r.body.items == o.body.items && r.body.status == st
  {
    o.(body := o.body.(status := st))
  }

  /** The status update as a function on documents. */
  function StatusSetter(st: Status): Outfit -> Outfit {
    o => WithStatus(o, st)
  }

  /** The outfit collection and the two controller handlers that write it. */
  class OutfitHistory {
    var outfits: seq<Outfit>
    var nextId: Id

    ghost predicate Valid()
      reads this
    {
      Keyed(outfits, nextId)
    }

    constructor ()
      ensures Valid() && outfits == []
    {
      outfits := [];
      nextId := 0;
    }

    /**
     * `generateAndSaveOutfit`. The generator sees all of the requester's
     * clothing items (active or not) and the requester's outfits that are
     * disliked or still suggested; its ids are stored as they come.
     */
    method Generate(
      requester: Option<Id>,
      wardrobe: Clothes.Wardrobe,
      propose: (seq<Clothes.Item>, seq<Outfit>) -> Proposal,
      today: string
    ) returns (out: Outcome)
      requires Valid()
      modifies this
      ensures Valid()
      ensures requester.None? ==> out == Failed(UNAUTHORIZED, NotAuthenticated) && unchanged(this)
      ensures requester.Some? && |OwnedBy(wardrobe.items, requester.value)| < MinWardrobe ==>
        out == Failed(BAD_REQUEST, NotEnoughItems) && unchanged(this)
      ensures requester.Some? && |OwnedBy(wardrobe.items, requester.value)| >= MinWardrobe ==>
        var p := propose(OwnedBy(wardrobe.items, requester.value), Excluded(old(outfits), requester.value));
        && (p.Threw? ==> out == Forwarded && unchanged(this))
        && (p.NoAnswer? || p == Ids([]) ==> out == Failed(INTERNAL_SERVER_ERROR, NoUniqueOutfit) && unchanged(this))
        && (p.Ids? && p.ids != [] ==>
              var o := Doc(old(nextId), requester.value, OutfitData(NewOutfitName(today), p.ids, Suggested));
              outfits == old(outfits) + [o] && nextId == old(nextId) + 1 && out == Created(o))
    {
      if requester.None? {
        return Failed(UNAUTHORIZED, NotAuthenticated);
      }
      var user := requester.value;
      var items := OwnedBy(wardrobe.items, user);
      var excluded := Excluded(outfits, user);
      if |items| < MinWardrobe {
        return Failed(BAD_REQUEST, NotEnoughItems);
      }
      var proposal := propose(items, excluded);
      match proposal
      case Threw =>
        out := Forwarded;
      case NoAnswer =>
        out := Failed(INTERNAL_SERVER_ERROR, NoUniqueOutfit);
      case Ids(ids) =>
        if ids == [] {
          out := Failed(INTERNAL_SERVER_ERROR, NoUniqueOutfit);
        } else {
          var o := Doc(nextId, user, OutfitData(NewOutfitName(today), ids, Suggested));
          InsertKeyed(outfits, nextId, o);
          outfits := outfits + [o];
          nextId := nextId + 1;
          out := Created(o);
        }
    }

    /**
     * `updateOutfitStatus`. The status is checked before the lookup; the
     * lookup needs both id and owner, so another user's outfit and a missing
     * one give the same 404; any status may follow any other.
     */
    method UpdateStatus(requester: Id, outfitId: Id, status: Option<string>) returns (out: Outcome)
      requires Valid()
      modifies this`outfits
      ensures Valid()
      ensures ParseStatus(status).None? ==> out == Failed(BAD_REQUEST, InvalidStatus) && outfits == old(outfits)
      ensures ParseStatus(status).Some? && FindOwned(old(outfits), outfitId, requester).None? ==>
        out == Failed(NOT_FOUND, OutfitNotFound) && outfits == old(outfits)
      ensures ParseStatus(status).Some? && FindOwned(old(outfits), outfitId, requester).Some? ==>
        var st := ParseStatus(status).value;
        && outfits == UpdateOwned(old(outfits), outfitId, requester, StatusSetter(st))
        && out == Updated(WithStatus(FindOwned(old(outfits), outfitId, requester).value, st))
    {
      var st := ParseStatus(status);
      if st.None? {
        return Failed(BAD_REQUEST, InvalidStatus);
      }
      var found := FindOwned(outfits, outfitId, requester);
      if found.None? {
        return Failed(NOT_FOUND, OutfitNotFound);
      }
      UpdateOwnedKeyed(outfits, nextId, outfitId, requester, StatusSetter(st.value));
      outfits := UpdateOwned(outfits, outfitId, requester, StatusSetter(st.value));
      out := Updated(WithStatus(found.value, st.value));
    }
  }

  /**
   * A stored outfit joins the end of its owner's exclusion list when its
   * status is excluded, and no other user's list changes.
   */
  lemma {:induction false} ExcludedAppend(outfits: seq<Outfit>, o: Outfit, owner: Id)
    ensures Excluded(outfits + [o], owner)
         == Excluded(outfits, owner) + (if o.userId == owner && Excludes(o.body.status) then [o] else [])
  {
    var tail := if o.userId == owner && Excludes(o.body.status) then [o] else [];
    if outfits == [] {
      assert outfits + [o] == [o];
      assert Excluded([o], owner) == tail + Excluded([], owner);
    } else {
      var x := outfits[0];
      var head := if x.userId == owner && Excludes(x.body.status) then [x] else [];
      var longer := outfits + [o];
      assert longer[0] == x && longer[1..] == outfits[1..] + [o];
      ExcludedAppend(outfits[1..], o, owner);
      calc {
        Excluded(longer, owner);
        head + Excluded(outfits[1..] + [o], owner);
        head + (Excluded(outfits[1..], owner) + tail);
        (head + Excluded(outfits[1..], owner)) + tail;
        Excluded(outfits, owner) + tail;
      }
    }
  }

  /** A freshly generated (suggested) outfit is excluded from its owner's next generation. */
  lemma GeneratedIsExcludedNext(outfits: seq<Outfit>, id: Id, owner: Id, name: string, ids: seq<Id>)
    ensures Excluded(outfits + [Doc(id, owner, OutfitData(name, ids, Suggested))], owner)
         == Excluded(outfits, owner) + [Doc(id, owner, OutfitData(name, ids, Suggested))]
  {
    ExcludedAppend(outfits, Doc(id, owner, OutfitData(name, ids, Suggested)), owner);
  }

  /** A status update by one user never changes what the generator is told to avoid for another. */
  lemma {:induction false} StatusUpdateIsolation(outfits: seq<Outfit>, id: Id, owner: Id, st: Status, other: Id)
    requires other != owner
    ensures Excluded(UpdateOwned(outfits, id, owner, StatusSetter(st)), other) == Excluded(outfits, other)
  {
    if outfits != [] {
      StatusUpdateIsolation(outfits[1..], id, owner, st, other);
      assert UpdateOwned(outfits, id, owner, StatusSetter(st))[1..] == UpdateOwned(outfits[1..], id, owner, StatusSetter(st));
    }
  }

  /**
   * After a successful update, the outfit is in its owner's exclusion list
   * exactly when the new status is disliked or suggested: marking it worn
   * takes it out, and setting it back to suggested puts it back in.
   */
  lemma StatusUpdateExclusion(outfits: seq<Outfit>, id: Id, owner: Id, st: Status)
    requires FindOwned(outfits, id, owner).Some?
    ensures var o := WithStatus(FindOwned(outfits, id, owner).value, st);
            o in Excluded(UpdateOwned(outfits, id, owner, StatusSetter(st)), owner) <==> Excludes(st)
    ensures !Excludes(st) ==>
            forall o :: o in Excluded(UpdateOwned(outfits, id, owner, StatusSetter(st)), owner) ==> o.id != id
  {
    var r := UpdateOwned(outfits, id, owner, StatusSetter(st));
    var d := FindOwned(outfits, id, owner).value;
    var i :| 0 <= i < |outfits| && outfits[i] == d;
    assert r[i] == WithStatus(d, st);
    assert r[i] in r;
    if !Excludes(st) {
      forall o | o in Excluded(r, owner) ensures o.id != id {
        var j :| 0 <= j < |r| && r[j] == o;
      }
    }
  }
}
