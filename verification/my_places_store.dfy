/** The owner-scoped saved-places store of lib/my-places.ts. The `my_places`
    collection is a sequence of documents in natural order; every operation is
    first given as a function from the old collection to a `Step` (the new
    collection and what the call returns or throws), and `PlacesCollection`
    then performs the same operations in place. */
module MyPlacesStore {
  import opened Wrappers
  import Text
  import ObjectIds
  import Seqs

  type ObjectId = ObjectIds.ObjectId

  /** An instant; `toISOString()` strings order like the instants they print. */
  type Timestamp = int

  /** A stored document (`PlaceDocument`): the schema plus the store's `_id`. */
  datatype PlaceDocument = PlaceDocument(
    id: ObjectId,
    userId: string,
    name: string,
    notes: string,
    tags: string,
    visited: bool,
    createdAt: Timestamp,
    updatedAt: Timestamp)

  /** What callers receive (`PlaceDto`): the identifier as a string and no owner. */
  datatype PlaceDto = PlaceDto(
    id: string,
    name: string,
    notes: string,
    tags: string,
    visited: bool,
    createdAt: Timestamp,
    updatedAt: Timestamp)

  /** `PlaceInput`; None stands for an undefined optional field. */
  datatype PlaceInput = PlaceInput(name: string, notes: Option<string>, tags: Option<string>)

  /** A key of `PlaceUpdate`: not an own property, or present with a value that may be undefined. */
  datatype Field<T> = Absent | Present(value: Option<T>)

  datatype PlaceUpdate = PlaceUpdate(
    name: Field<string>,
    notes: Field<string>,
    tags: Field<string>,
    visited: Field<bool>)

  /** The `$set` document `updatePlace` sends; None leaves a field out. */
  datatype SetUpdates = SetUpdates(
    updatedAt: Timestamp,
    name: Option<string>,
    notes: Option<string>,
    tags: Option<string>,
    visited: Option<bool>)

  /** What the store operations throw: `INVALID_ID`, or a rejected insert. */
  datatype StoreError = InvalidId | DuplicateKey

  /** The collection after an operation, and what the operation returned or threw. */
  datatype Step<T> = Step(docs: seq<PlaceDocument>, outcome: Result<T, StoreError>)

  predicate UniqueIds(docs: seq<PlaceDocument>) {
    forall i, j :: 0 <= i < j < |docs| ==> docs[i].id != docs[j].id
  }

  predicate HasId(docs: seq<PlaceDocument>, id: ObjectId) {
    exists i :: 0 <= i < |docs| && docs[i].id == id
  }

  /** The filter `{ _id: new ObjectId(id), userId }`. */
  predicate Owns(d: PlaceDocument, id: string, userId: string) {
    ObjectIds.Parse(id) == Some(d.id) && d.userId == userId
  }

  /** `s?.trim() ?? ""`. */
  function TrimOrEmpty(s: Option<string>): (r: string)
    ensures Text.IsTrimmed(r)
    ensures s.None? ==> r == ""
    ensures s.Some? ==> r == Text.Trim(s.value)
  {
    match s
    case None => ""
    case Some(v) => Text.Trim(v)
  }

  /** `normalizePlaceDocument`: the DTO's identifier parses back to the stored one,
      every other field but the owner is copied. */
  function Normalize(d: PlaceDocument): (r: PlaceDto)
    ensures ObjectIds.Parse(r.id) == Some(d.id)
    ensures r.name == d.name && r.notes == d.notes && r.tags == d.tags && r.visited == d.visited
    ensures r.createdAt == d.createdAt && r.updatedAt == d.updatedAt
  {
    PlaceDto(ObjectIds.ToString(d.id), d.name, d.notes, d.tags, d.visited, d.createdAt, d.updatedAt)
  }

  /** The DTO does not depend on who owns the document. */
  lemma NormalizeDropsOwner(d: PlaceDocument, other: string)
    ensures Normalize(d.(userId := other)) == Normalize(d)
  {
  }

  function OwnedBy(docs: seq<PlaceDocument>, userId: string): seq<PlaceDocument> {
    Seqs.Filter(docs, (d: PlaceDocument) => d.userId == userId)
  }

  function CreatedAt(d: PlaceDocument): Timestamp {
    d.createdAt
  }

  /** `find({ userId }, { sort: { createdAt: -1 } })`. */
  function NewestFirst(docs: seq<PlaceDocument>, userId: string): (sorted: seq<PlaceDocument>)
    ensures |sorted| == |OwnedBy(docs, userId)|
    ensures multiset(sorted) == multiset(OwnedBy(docs, userId))
    ensures forall d :: d in sorted <==> d in docs && d.userId == userId
    ensures Seqs.SortedDesc(sorted, CreatedAt)
  {
    var owned := OwnedBy(docs, userId);
    var sorted := Seqs.SortDesc(owned, CreatedAt);
    assert forall d :: d in sorted <==> d in multiset(owned);
    sorted
  }

  function NormalizeAll(ds: seq<PlaceDocument>): (r: seq<PlaceDto>)
    ensures |r| == |ds| && forall i :: 0 <= i < |ds| ==> r[i] == Normalize(ds[i])
  {
    seq(|ds|, i requires 0 <= i < |ds| => Normalize(ds[i]))
  }

  /** `listPlaces(userId)`: the owner's documents, newest first, as DTOs. */
  function ListPlaces(docs: seq<PlaceDocument>, userId: string): (r: seq<PlaceDto>)
    ensures |r| == |OwnedBy(docs, userId)|
    ensures forall i :: 0 <= i < |r| ==>
      exists j :: 0 <= j < |docs| && docs[j].userId == userId && r[i] == Normalize(docs[j])
    ensures forall j :: 0 <= j < |docs| && docs[j].userId == userId ==> Normalize(docs[j]) in r
    ensures forall i, k :: 0 <= i < k < |r| ==> r[i].createdAt >= r[k].createdAt
  {
    var sorted := NewestFirst(docs, userId);
    var r := NormalizeAll(sorted);
    ListedFromDocs(docs, userId, sorted, r);
    r
  }

  lemma ListedFromDocs(docs: seq<PlaceDocument>, userId: string, sorted: seq<PlaceDocument>, r: seq<PlaceDto>)
    requires sorted == NewestFirst(docs, userId) && r == NormalizeAll(sorted)
    ensures forall i :: 0 <= i < |r| ==>
      exists j :: 0 <= j < |docs| && docs[j].userId == userId && r[i] == Normalize(docs[j])
    ensures forall j :: 0 <= j < |docs| && docs[j].userId == userId ==> Normalize(docs[j]) in r
    ensures forall i, k :: 0 <= i < k < |r| ==> r[i].createdAt >= r[k].createdAt
  {
    forall i | 0 <= i < |r|
      ensures exists j :: 0 <= j < |docs| && docs[j].userId == userId && r[i] == Normalize(docs[j])
    {
      assert sorted[i] in docs;
      var j :| 0 <= j < |docs| && docs[j] == sorted[i];
    }
    forall j | 0 <= j < |docs| && docs[j].userId == userId
      ensures Normalize(docs[j]) in r
    {
      assert docs[j] in sorted;
      var i :| 0 <= i < |sorted| && sorted[i] == docs[j];
      assert r[i] == Normalize(docs[j]);
    }
    forall i, k | 0 <= i < k < |r| ensures r[i].createdAt >= r[k].createdAt {
      assert CreatedAt(sorted[i]) >= CreatedAt(sorted[k]);
    }
  }

  /** `createPlace`: appends the new document, or throws when the generated
      identifier is already taken. */
  function CreatePlace(docs: seq<PlaceDocument>, userId: string, input: PlaceInput,
                       now: Timestamp, newId: ObjectId): (s: Step<PlaceDto>)
    ensures HasId(docs, newId) ==> s == Step(docs, Failure(DuplicateKey))
    ensures !HasId(docs, newId) ==>
      && |s.docs| == |docs| + 1 && s.docs[..|docs|] == docs
      && var d := s.docs[|docs|];
      && d.id == newId && d.userId == userId && d.name == input.name
      && d.notes == TrimOrEmpty(input.notes) && d.tags == TrimOrEmpty(input.tags)
      && !d.visited && d.createdAt == now && d.updatedAt == now
      && s.outcome == Success(Normalize(d))
  {
    if HasId(docs, newId) then Step(docs, Failure(DuplicateKey))
    else
      var d := PlaceDocument(newId, userId, input.name, TrimOrEmpty(input.notes),
                             TrimOrEmpty(input.tags), false, now, now);
      assert (docs + [d])[..|docs|] == docs;
      Step(docs + [d], Success(Normalize(d)))
  }

  function StringSet(f: Field<string>): Option<string> {
    match f
    case Absent => None
    case Present(v) => Some(TrimOrEmpty(v))
  }

  /** The `$set` document built from `updates`, one key at a time. */
  function SetUpdatesFor(updates: PlaceUpdate, now: Timestamp): (c: SetUpdates)
    ensures c.updatedAt == now
    ensures c.name.Some? <==> updates.name.Present?
    ensures c.notes.Some? <==> updates.notes.Present?
    ensures c.tags.Some? <==> updates.tags.Present?
    ensures c.visited.Some? <==> updates.visited.Present?
    ensures c.name.Some? ==> Text.IsTrimmed(c.name.value)
    ensures c.notes.Some? ==> Text.IsTrimmed(c.notes.value)
    ensures c.tags.Some? ==> Text.IsTrimmed(c.tags.value)
    ensures updates.visited == Present(None) ==> c.visited == Some(false)
  {
    SetUpdates(
      now,
      StringSet(updates.name),
      StringSet(updates.notes),
      StringSet(updates.tags),
      match updates.visited
      case Absent => None
      case Present(v) => Some(v.GetOr(false)))
  }

  /** `$set`: overwrite the listed fields, keep the others. */
  function ApplySet(d: PlaceDocument, change: SetUpdates): (e: PlaceDocument)
    ensures e.id == d.id && e.userId == d.userId && e.createdAt == d.createdAt
    ensures e.updatedAt == change.updatedAt
    ensures e.name == (if change.name.Some? then change.name.value else d.name)
    ensures e.notes == (if change.notes.Some? then change.notes.value else d.notes)
    ensures e.tags == (if change.tags.Some? then change.tags.value else d.tags)
    ensures e.visited == (if change.visited.Some? then change.visited.value else d.visited)
  {
    d.(name := change.name.GetOr(d.name),
       notes := change.notes.GetOr(d.notes),
       tags := change.tags.GetOr(d.tags),
       visited := change.visited.GetOr(d.visited),
       updatedAt := change.updatedAt)
  }

  /** What an update does to one document: present keys are replaced (strings
      trimmed, undefined becoming "" or false), `updatedAt` is re-stamped, and
      the identifier, the owner, `createdAt` and absent keys stay. */
  lemma UpdatedFields(d: PlaceDocument, updates: PlaceUpdate, now: Timestamp)
    ensures var e := ApplySet(d, SetUpdatesFor(updates, now));
      && e.id == d.id && e.userId == d.userId && e.createdAt == d.createdAt
      && e.updatedAt == now
      && e.name == (if updates.name.Present? then TrimOrEmpty(updates.name.value) else d.name)
      && e.notes == (if updates.notes.Present? then TrimOrEmpty(updates.notes.value) else d.notes)
      && e.tags == (if updates.tags.Present? then TrimOrEmpty(updates.tags.value) else d.tags)
      && e.visited == (if updates.visited.Present? then updates.visited.value.GetOr(false) else d.visited)
  {
  }

  /** Sending the same update twice leaves the document as sending it once. */
  lemma UpdateIdempotent(d: PlaceDocument, updates: PlaceUpdate, now: Timestamp)
    ensures var change := SetUpdatesFor(updates, now);
      ApplySet(ApplySet(d, change), change) == ApplySet(d, change)
  {
  }

  /** The position `findOneAndUpdate`/`deleteOne` act on: the first document with that id and owner. */
  function FindOwned(docs: seq<PlaceDocument>, id: string, userId: string): (r: Option<nat>)
    ensures r.Some? ==> r.value < |docs| && Owns(docs[r.value], id, userId)
    ensures r.Some? ==> forall j :: 0 <= j < r.value ==> !Owns(docs[j], id, userId)
    ensures r.None? <==> forall j :: 0 <= j < |docs| ==> !Owns(docs[j], id, userId)
  {
    Seqs.FirstIndex(docs, (d: PlaceDocument) => Owns(d, id, userId))
  }

  /** `updatePlace`: `INVALID_ID` before the store is touched; otherwise the first
      document with that identifier and owner gets the `$set`, or null when
      there is none. */
  function UpdatePlace(docs: seq<PlaceDocument>, userId: string, id: string,
                       updates: PlaceUpdate, now: Timestamp): (s: Step<Option<PlaceDto>>)
    ensures !ObjectIds.IsValid(id) ==> s == Step(docs, Failure(InvalidId))
    ensures ObjectIds.IsValid(id) ==> s.outcome.Success?
    ensures |s.docs| == |docs|
    ensures forall i :: 0 <= i < |docs| && !Owns(docs[i], id, userId) ==> s.docs[i] == docs[i]
    ensures s.outcome == Success(None) <==>
      ObjectIds.IsValid(id) && forall i :: 0 <= i < |docs| ==> !Owns(docs[i], id, userId)
    ensures s.outcome == Success(None) ==> s.docs == docs
    ensures s.outcome.Success? && s.outcome.value.Some? ==>
      exists k :: 0 <= k < |docs| && Owns(docs[k], id, userId)
        && s.docs == docs[k := ApplySet(docs[k], SetUpdatesFor(updates, now))]
        && s.outcome.value.value == Normalize(s.docs[k])
  {
    if !ObjectIds.IsValid(id) then Step(docs, Failure(InvalidId))
    else
      match FindOwned(docs, id, userId)
      case None => Step(docs, Success(None))
      case Some(k) =>
        var updated := ApplySet(docs[k], SetUpdatesFor(updates, now));
        Step(docs[k := updated], Success(Some(Normalize(updated))))
  }

  /** `deletePlace`: `INVALID_ID` before the store is touched; otherwise removes
      the first document with that identifier and owner and says whether one was removed. */
  function DeletePlace(docs: seq<PlaceDocument>, userId: string, id: string): (s: Step<bool>)
    ensures !ObjectIds.IsValid(id) ==> s == Step(docs, Failure(InvalidId))
    ensures ObjectIds.IsValid(id) ==>
      s.outcome == Success(exists i :: 0 <= i < |docs| && Owns(docs[i], id, userId))
    ensures s.outcome != Success(true) ==> s.docs == docs
    ensures s.outcome == Success(true) ==>
      exists k :: 0 <= k < |docs| && Owns(docs[k], id, userId) && s.docs == Seqs.RemoveAt(docs, k)
    ensures |s.docs| == if s.outcome == Success(true) then |docs| - 1 else |docs|
  {
    if !ObjectIds.IsValid(id) then Step(docs, Failure(InvalidId))
    else
      match FindOwned(docs, id, userId)
      case None => Step(docs, Success(false))
      case Some(k) => Step(Seqs.RemoveAt(docs, k), Success(true))
  }

  lemma {:induction false} CreatePreservesUniqueIds(docs: seq<PlaceDocument>, userId: string,
                                                   input: PlaceInput, now: Timestamp, newId: ObjectId)
    requires UniqueIds(docs)
    ensures UniqueIds(CreatePlace(docs, userId, input, now, newId).docs)
  {
    var s := CreatePlace(docs, userId, input, now, newId);
    if !HasId(docs, newId) {
      forall i, j | 0 <= i < j < |s.docs| ensures s.docs[i].id != s.docs[j].id {
        if j == |docs| {
          assert s.docs[i] == docs[i];
        } else {
          assert s.docs[i] == docs[i] && s.docs[j] == docs[j];
        }
      }
    }
  }

  lemma UpdatePreservesUniqueIds(docs: seq<PlaceDocument>, userId: string, id: string,
                                 updates: PlaceUpdate, now: Timestamp)
    requires UniqueIds(docs)
    ensures UniqueIds(UpdatePlace(docs, userId, id, updates, now).docs)
  {
  }

  lemma DeletePreservesUniqueIds(docs: seq<PlaceDocument>, userId: string, id: string)
    requires UniqueIds(docs)
    ensures UniqueIds(DeletePlace(docs, userId, id).docs)
  {
  }

  /** Once a delete has removed a place, deleting the same identifier again
      removes nothing and returns false. */
  lemma {:induction false} SecondDeleteReturnsFalse(docs: seq<PlaceDocument>, userId: string, id: string)
    requires UniqueIds(docs)
    requires DeletePlace(docs, userId, id).outcome == Success(true)
    ensures var again := DeletePlace(DeletePlace(docs, userId, id).docs, userId, id);
      again.outcome == Success(false) && again.docs == DeletePlace(docs, userId, id).docs
  {
    var k := FindOwned(docs, id, userId).value;
    var after := Seqs.RemoveAt(docs, k);
    assert DeletePlace(docs, userId, id).docs == after;
    forall i | 0 <= i < |after| ensures !Owns(after[i], id, userId) {
      var j := if i < k then i else i + 1;
      assert after[i] == docs[j] && docs[j].id != docs[k].id;
    }
    assert FindOwned(after, id, userId).None?;
  }

  lemma OwnedByConcat(a: seq<PlaceDocument>, b: seq<PlaceDocument>, userId: string)
    ensures OwnedBy(a + b, userId) == OwnedBy(a, userId) + OwnedBy(b, userId)
  {
    Seqs.FilterConcat(a, b, (d: PlaceDocument) => d.userId == userId);
  }

  /** Replacing or removing the document at `k`, owned by someone else, does not
      change what `other` owns. */
  lemma {:induction false} OwnedByAround(docs: seq<PlaceDocument>, k: nat, middle: seq<PlaceDocument>, other: string)
    requires k < |docs| && docs[k].userId != other
    requires forall i :: 0 <= i < |middle| ==> middle[i].userId != other
    ensures OwnedBy(docs[..k] + middle + docs[k + 1..], other) == OwnedBy(docs, other)
  {
    assert docs == docs[..k] + [docs[k]] + docs[k + 1..];
    OwnedByConcat(docs[..k] + [docs[k]], docs[k + 1..], other);
    OwnedByConcat(docs[..k], [docs[k]], other);
    OwnedByConcat(docs[..k] + middle, docs[k + 1..], other);
    OwnedByConcat(docs[..k], middle, other);
    assert OwnedBy([docs[k]], other) == [];
    assert OwnedBy(middle, other) == [] by {
      assert forall d :: d in OwnedBy(middle, other) ==> d in middle && d.userId == other;
    }
  }

  /** A create by one user leaves every other user's list as it was. */
  lemma {:induction false} CreateIsolated(docs: seq<PlaceDocument>, userId: string, input: PlaceInput,
                                          now: Timestamp, newId: ObjectId, other: string)
    requires other != userId
    ensures ListPlaces(CreatePlace(docs, userId, input, now, newId).docs, other) == ListPlaces(docs, other)
  {
    var s := CreatePlace(docs, userId, input, now, newId);
    if !HasId(docs, newId) {
      var d := s.docs[|docs|];
      assert s.docs == docs + [d];
      OwnedByConcat(docs, [d], other);
      assert OwnedBy([d], other) == [];
      assert OwnedBy(s.docs, other) == OwnedBy(docs, other);
    }
  }

  /** An update by one user leaves every other user's list as it was. */
  lemma {:induction false} UpdateIsolated(docs: seq<PlaceDocument>, userId: string, id: string,
                                          updates: PlaceUpdate, now: Timestamp, other: string)
    requires other != userId
    ensures ListPlaces(UpdatePlace(docs, userId, id, updates, now).docs, other) == ListPlaces(docs, other)
  {
    var s := UpdatePlace(docs, userId, id, updates, now);
    if ObjectIds.IsValid(id) && FindOwned(docs, id, userId).Some? {
      var k := FindOwned(docs, id, userId).value;
      var updated := ApplySet(docs[k], SetUpdatesFor(updates, now));
      assert s.docs == docs[k := updated];
      ReplaceAt(docs, k, updated);
      OwnedByAround(docs, k, [updated], other);
    }
  }

  lemma RemoveAtSplice(docs: seq<PlaceDocument>, k: nat)
    requires k < |docs|
    ensures Seqs.RemoveAt(docs, k) == docs[..k] + [] + docs[k + 1..]
  {
  }

  lemma ReplaceAt(docs: seq<PlaceDocument>, k: nat, d: PlaceDocument)
    requires k < |docs|
    ensures docs[k := d] == docs[..k] + [d] + docs[k + 1..]
  {
  }

  /** A delete by one user leaves every other user's list as it was. */
  lemma {:induction false} DeleteIsolated(docs: seq<PlaceDocument>, userId: string, id: string, other: string)
    requires other != userId
    ensures ListPlaces(DeletePlace(docs, userId, id).docs, other) == ListPlaces(docs, other)
  {
    var s := DeletePlace(docs, userId, id);
    if ObjectIds.IsValid(id) && FindOwned(docs, id, userId).Some? {
      var k := FindOwned(docs, id, userId).value;
      assert s.docs == Seqs.RemoveAt(docs, k);
      RemoveAtSplice(docs, k);
      OwnedByAround(docs, k, [], other);
    }
  }

  /** The collection, changed in place by the three writing operations. */
  class PlacesCollection {
    var docs: seq<PlaceDocument>

    ghost predicate Valid()
      reads this
    {
      UniqueIds(docs)
    }

    constructor ()
      ensures Valid() && docs == []
    {
      docs := [];
    }

    method Create(userId: string, input: PlaceInput, now: Timestamp, newId: ObjectId)
      returns (result: Result<PlaceDto, StoreError>)
      requires Valid()
      modifies this
      ensures Valid()
      ensures Step(docs, result) == CreatePlace(old(docs), userId, input, now, newId)
    {
      CreatePreservesUniqueIds(docs, userId, input, now, newId);
      if HasId(docs, newId) {
        return Failure(DuplicateKey);
      }
      var document := PlaceDocument(newId, userId, input.name, TrimOrEmpty(input.notes),
                                    TrimOrEmpty(input.tags), false, now, now);
      docs := docs + [document];
      result := Success(Normalize(document));
    }

    method Update(userId: string, id: string, updates: PlaceUpdate, now: Timestamp)
      returns (result: Result<Option<PlaceDto>, StoreError>)
      requires Valid()
      modifies this
      ensures Valid()
      ensures Step(docs, result) == UpdatePlace(old(docs), userId, id, updates, now)
    {
      UpdatePreservesUniqueIds(docs, userId, id, updates, now);
      if !ObjectIds.IsValid(id) {
        return Failure(InvalidId);
      }
      var change := SetUpdates(now, None, None, None, None);
      if updates.name.Present? {
        change := change.(name := Some(TrimOrEmpty(updates.name.value)));
      }
      if updates.notes.Present? {
        change := change.(notes := Some(TrimOrEmpty(updates.notes.value)));
      }
      if updates.tags.Present? {
        change := change.(tags := Some(TrimOrEmpty(updates.tags.value)));
      }
      if updates.visited.Present? {
        change := change.(visited := Some(updates.visited.value.GetOr(false)));
      }
      assert change == SetUpdatesFor(updates, now);
      var found := FindOwned(docs, id, userId);
      if found.None? {
        return Success(None);
      }
      var k := found.value;
      var updated := ApplySet(docs[k], change);
      docs := docs[k := updated];
      result := Success(Some(Normalize(updated)));
    }

    method Delete(userId: string, id: string) returns (result: Result<bool, StoreError>)
      requires Valid()
      modifies this
      ensures Valid()
      ensures Step(docs, result) == DeletePlace(old(docs), userId, id)
    {
      DeletePreservesUniqueIds(docs, userId, id);
      if !ObjectIds.IsValid(id) {
        return Failure(InvalidId);
      }
      var found := FindOwned(docs, id, userId);
      if found.None? {
        return Success(false);
      }
      docs := Seqs.RemoveAt(docs, found.value);
      result := Success(true);
    }
  }
}
