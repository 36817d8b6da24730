/**
 * Owner-scoped MongoDB collections.
 *
 * The clothing, outfit-log and outfit routes all store documents that carry an
 * owner (`userId`) and all query them the same way: `find({ userId })`,
 * `findOne({ _id, userId })`, `findOneAndUpdate({ _id, userId }, ...)` and
 * `findOneAndDelete({ _id, userId })`. This module states those four queries
 * once, over a collection modelled as a sequence of documents in insertion order.
 */
module Tables {
  import opened Common

  /** A stored document: its identity, its owner and the rest of its fields. */
  datatype Doc<R> = Doc(id: Id, userId: Id, body: R)

  /** The filter `{ _id: id, userId: owner }`. */
  predicate Matches<R>(d: Doc<R>, id: Id, owner: Id) {
    d.id == id && d.userId == owner
  }

  /** Collection invariant: ids are unique and all below the next id to be handed out. */
  ghost predicate Keyed<R>(docs: seq<Doc<R>>, next: Id) {
    && (forall i :: 0 <= i < |docs| ==> docs[i].id < next)
    && (forall i, j :: 0 <= i < j < |docs| ==> docs[i].id != docs[j].id)
  }

  /** `find({ userId: owner })`: the owner's documents, in stored order. */
  function OwnedBy<R>(docs: seq<Doc<R>>, owner: Id): (r: seq<Doc<R>>)
    ensures forall d :: d in r ==> d in docs && d.userId == owner
    ensures forall d :: d in docs && d.userId == owner ==> d in r
    ensures |r| <= |docs|
  {
    if docs == [] then []
    else (if docs[0].userId == owner then [docs[0]] else []) + OwnedBy(docs[1..], owner)
  }

  /** `findOne({ _id: id, userId: owner })`: the first document matching both, if any. */
  function FindOwned<R>(docs: seq<Doc<R>>, id: Id, owner: Id): (r: Option<Doc<R>>)
    ensures r.Some? <==> exists d :: d in docs && Matches(d, id, owner)
    ensures r.Some? ==> r.value in docs && Matches(r.value, id, owner)
  {
    if docs == [] then None
    else if Matches(docs[0], id, owner) then Some(docs[0])
    else FindOwned(docs[1..], id, owner)
  }

  /**
   * `findOneAndUpdate({ _id: id, userId: owner }, update)`: the matching document
   * is replaced by `f` of it; every other document keeps its place and value.
   */
  function UpdateOwned<R>(docs: seq<Doc<R>>, id: Id, owner: Id, f: Doc<R> -> Doc<R>): (r: seq<Doc<R>>)
    ensures |r| == |docs|
    ensures forall i :: 0 <= i < |docs| && !Matches(docs[i], id, owner) ==> r[i] == docs[i]
    ensures forall i :: 0 <= i < |docs| && Matches(docs[i], id, owner) ==> r[i] == f(docs[i])
  {
    if docs == [] then []
    else [if Matches(docs[0], id, owner) then f(docs[0]) else docs[0]] + UpdateOwned(docs[1..], id, owner, f)
  }

  /** `findOneAndDelete({ _id: id, userId: owner })`: the matching document is removed. */
  function DeleteOwned<R>(docs: seq<Doc<R>>, id: Id, owner: Id): (r: seq<Doc<R>>)
    ensures forall d :: d in r ==> d in docs && !Matches(d, id, owner)
    ensures forall d :: d in docs && !Matches(d, id, owner) ==> d in r
    ensures |r| <= |docs|
  {
    if docs == [] then []
    else (if Matches(docs[0], id, owner) then [] else [docs[0]]) + DeleteOwned(docs[1..], id, owner)
  }

  /** Inserting a document extends its owner's listing at the end and nobody else's. */
  lemma {:induction false} OwnedByAppend<R>(docs: seq<Doc<R>>, d: Doc<R>, owner: Id)
    ensures d.userId == owner ==> OwnedBy(docs + [d], owner) == OwnedBy(docs, owner) + [d]
    ensures d.userId != owner ==> OwnedBy(docs + [d], owner) == OwnedBy(docs, owner)
  {
    if docs == [] {
      assert docs + [d] == [d];
      assert OwnedBy([d], owner) == (if d.userId == owner then [d] else []) + OwnedBy([], owner);
    } else {
      var x := docs[0];
      var head := if x.userId == owner then [x] else [];
      var tail := if d.userId == owner then [d] else [];
      var longer := docs + [d];
      assert longer[0] == x && longer[1..] == docs[1..] + [d];
      OwnedByAppend(docs[1..], d, owner);
      calc {
        OwnedBy(longer, owner);
        head + OwnedBy(docs[1..] + [d], owner);
        head + (OwnedBy(docs[1..], owner) + tail);
        (head + OwnedBy(docs[1..], owner)) + tail;
        OwnedBy(docs, owner) + tail;
      }
    }
  }

  /** An insertion with the next id keeps the collection keyed. */
  lemma InsertKeyed<R>(docs: seq<Doc<R>>, next: Id, d: Doc<R>)
    requires Keyed(docs, next) && d.id == next
    ensures Keyed(docs + [d], next + 1)
  {
  }

  /**
   * An update scoped to `owner` that leaves the document with `owner` changes
   * no other user's listing.
   */
  lemma {:induction false} UpdateOwnedIsolation<R>(docs: seq<Doc<R>>, id: Id, owner: Id, f: Doc<R> -> Doc<R>, other: Id)
    requires other != owner
    requires forall d :: Matches(d, id, owner) ==> f(d).userId == owner
    ensures OwnedBy(UpdateOwned(docs, id, owner, f), other) == OwnedBy(docs, other)
  {
    if docs != [] {
      UpdateOwnedIsolation(docs[1..], id, owner, f, other);
      assert UpdateOwned(docs, id, owner, f)[1..] == UpdateOwned(docs[1..], id, owner, f);
    }
  }

  /** An update that finds nothing leaves the collection as it was. */
  lemma UpdateOwnedMiss<R>(docs: seq<Doc<R>>, id: Id, owner: Id, f: Doc<R> -> Doc<R>)
    requires FindOwned(docs, id, owner).None?
    ensures UpdateOwned(docs, id, owner, f) == docs
  {
    var r := UpdateOwned(docs, id, owner, f);
    forall i | 0 <= i < |docs| ensures r[i] == docs[i] {
      assert docs[i] in docs;
    }
  }

  /**
   * After an update that keeps the document matching the filter, looking the
   * document up again gives the updated document.
   */
  lemma {:induction false} FindAfterUpdate<R>(docs: seq<Doc<R>>, id: Id, owner: Id, f: Doc<R> -> Doc<R>)
    requires forall d :: Matches(d, id, owner) ==> Matches(f(d), id, owner)
    requires FindOwned(docs, id, owner).Some?
    ensures FindOwned(UpdateOwned(docs, id, owner, f), id, owner) == Some(f(FindOwned(docs, id, owner).value))
  {
    var r := UpdateOwned(docs, id, owner, f);
    if !Matches(docs[0], id, owner) {
      assert r[1..] == UpdateOwned(docs[1..], id, owner, f);
      FindAfterUpdate(docs[1..], id, owner, f);
    }
  }

  /** An update that keeps every id keeps the collection keyed. */
  lemma UpdateOwnedKeyed<R>(docs: seq<Doc<R>>, next: Id, id: Id, owner: Id, f: Doc<R> -> Doc<R>)
    requires Keyed(docs, next)
    requires forall d :: f(d).id == d.id
    ensures Keyed(UpdateOwned(docs, id, owner, f), next)
  {
    var r := UpdateOwned(docs, id, owner, f);
    assert forall i :: 0 <= i < |docs| ==> r[i].id == docs[i].id;
  }

  /** Deleting keeps the collection keyed. */
  lemma {:induction false} DeleteOwnedKeyed<R>(docs: seq<Doc<R>>, next: Id, id: Id, owner: Id)
    requires Keyed(docs, next)
    ensures Keyed(DeleteOwned(docs, id, owner), next)
  {
    if docs != [] {
      var rest := DeleteOwned(docs[1..], id, owner);
      DeleteOwnedKeyed(docs[1..], next, id, owner);
      if !Matches(docs[0], id, owner) {
        var r := DeleteOwned(docs, id, owner);
        assert r == [docs[0]] + rest;
        forall j | 0 <= j < |rest| ensures rest[j].id != docs[0].id {
          assert rest[j] in docs[1..];
        }
      }
    }
  }

  /** A delete that finds nothing leaves the collection as it was. */
  lemma {:induction false} DeleteOwnedMiss<R>(docs: seq<Doc<R>>, id: Id, owner: Id)
    requires FindOwned(docs, id, owner).None?
    ensures DeleteOwned(docs, id, owner) == docs
  {
    if docs != [] {
      assert !Matches(docs[0], id, owner);
      assert FindOwned(docs[1..], id, owner) == FindOwned(docs, id, owner);
      DeleteOwnedMiss(docs[1..], id, owner);
      assert docs == [docs[0]] + docs[1..];
    }
  }

  /** In a keyed collection a delete whose filter matches removes exactly one document. */
  lemma {:induction false} DeleteOwnedHit<R>(docs: seq<Doc<R>>, next: Id, id: Id, owner: Id)
    requires Keyed(docs, next)
    requires FindOwned(docs, id, owner).Some?
    ensures |DeleteOwned(docs, id, owner)| == |docs| - 1
  {
    var tail := docs[1..];
    assert Keyed(tail, next);
    if Matches(docs[0], id, owner) {
      assert FindOwned(tail, id, owner).None? by {
        forall d | d in tail ensures !Matches(d, id, owner) {
          var j :| 0 <= j < |tail| && tail[j] == d;
          assert docs[j + 1] == d;
        }
      }
      DeleteOwnedMiss(tail, id, owner);
      assert DeleteOwned(docs, id, owner) == DeleteOwned(tail, id, owner);
    } else {
      assert FindOwned(tail, id, owner) == FindOwned(docs, id, owner);
      DeleteOwnedHit(tail, next, id, owner);
      assert DeleteOwned(docs, id, owner) == [docs[0]] + DeleteOwned(tail, id, owner);
    }
  }
}
