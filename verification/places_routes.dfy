/** The place handlers of the backend (backend/src/routes/places.js) over the
    `places` and `reviews` collections: the category-filtered list capped at
    50, lookup by id, creation with its defaults, and the reviews of a place.
    The caller is the `clerkId` the bearer guard attached; the clock and the
    identifier the store generates on insert are parameters. */
module PlacesRoutes {
  import opened Wrappers
  import ObjectIds
  import Seqs

  type ObjectId = ObjectIds.ObjectId
  type Timestamp = int

  /** A GeoJSON point; `coordinates` is `[longitude, latitude]`. */
  datatype GeoPoint = GeoPoint(kind: string, coordinates: seq<real>)

  datatype Place = Place(id: ObjectId, name: Option<string>, category: Option<string>,
                         description: string, geo: GeoPoint, tags: seq<string>,
                         photos: seq<string>, addedBy: string, createdAt: Timestamp)

  datatype Review = Review(id: ObjectId, placeId: ObjectId, userId: string, text: Option<string>,
                           rating: Option<int>, photos: seq<string>, createdAt: Timestamp)

  datatype LngLat = LngLat(lng: real, lat: real)

  /** The fields of a POST /places body; each may be missing. */
  datatype PlaceInput = PlaceInput(name: Option<string>, category: Option<string>, description: Option<string>,
                                   geo: Option<LngLat>, tags: Option<seq<string>>, photos: Option<seq<string>>)

  /** The fields of a POST /places/:id/reviews body; each may be missing. */
  datatype ReviewInput = ReviewInput(text: Option<string>, rating: Option<int>, photos: Option<seq<string>>)

  datatype Body =
    | PlaceList(places: seq<Place>)
    | PlaceFound(place: Place)
    | PlaceCreated(placeId: ObjectId)
    | ReviewList(reviews: seq<Review>)
    | ReviewCreated(reviewId: ObjectId)
    | Error(message: string)

  datatype Response = Response(status: nat, body: Body)

  const ListCap := 50

  const FetchPlaceFailed := "Failed to fetch place"
  const PlaceNotFound := "Place not found"
  const AddPlaceFailed := "Failed to add place"
  const FetchReviewsFailed := "Failed to fetch reviews"
  const AddReviewFailed := "Failed to add review"

  predicate PlaceIdsUnique(places: seq<Place>) {
    forall i, j :: 0 <= i < j < |places| ==> places[i].id != places[j].id
  }

  predicate ReviewIdsUnique(reviews: seq<Review>) {
    forall i, j :: 0 <= i < j < |reviews| ==> reviews[i].id != reviews[j].id
  }

  predicate HasPlaceId(places: seq<Place>, id: ObjectId) {
    exists i :: 0 <= i < |places| && places[i].id == id
  }

  predicate HasReviewId(reviews: seq<Review>, id: ObjectId) {
    exists i :: 0 <= i < |reviews| && reviews[i].id == id
  }

  /** The category the list is filtered by: only a non-empty one counts. */
  function CategoryFilter(category: Option<string>): (r: Option<string>)
    ensures r.Some? <==> category.Some? && category.value != ""
    ensures r.Some? ==> r == category
  {
    if category.Some? && category.value != "" then category else None
  }

  predicate MatchesCategory(p: Place, filter: Option<string>) {
    filter.None? || p.category == filter
  }

  /** GET /places without `near`: the places matching the category filter, in
      natural order, at most 50 of them. */
  function ListPlaces(places: seq<Place>, category: Option<string>): (r: seq<Place>)
    ensures |r| <= ListCap
    ensures var matches := |Seqs.Filter(places, (p: Place) => MatchesCategory(p, CategoryFilter(category)))|;
      |r| == if matches <= ListCap then matches else ListCap
    ensures forall i :: 0 <= i < |r| ==> r[i] in places
    ensures CategoryFilter(category).Some? ==> forall i :: 0 <= i < |r| ==> r[i].category == category
  {
    var filter := CategoryFilter(category);
    Seqs.Page(Seqs.Filter(places, (p: Place) => MatchesCategory(p, filter)), 0, ListCap)
  }

  /** The cap only bites past 50 matches: with fewer, the list holds every
      matching place, in natural order. */
  lemma {:induction false} ListHoldsAllMatches(places: seq<Place>, category: Option<string>)
    requires |Seqs.Filter(places, (p: Place) => MatchesCategory(p, CategoryFilter(category)))| <= ListCap
    ensures ListPlaces(places, category) == Seqs.Filter(places, (p: Place) => MatchesCategory(p, CategoryFilter(category)))
  {
  }

  /** Without a category, and with at most 50 places, the list is the whole collection. */
  lemma {:induction false} UnfilteredListIsCollection(places: seq<Place>)
    requires |places| <= ListCap
    ensures ListPlaces(places, None) == places
  {
    FilterAll(places, (p: Place) => MatchesCategory(p, None));
  }

  lemma {:induction false} FilterAll<T(!new)>(s: seq<T>, keep: T -> bool)
    requires forall x :: x in s ==> keep(x)
    ensures Seqs.Filter(s, keep) == s
  {
    if s != [] {
      assert s == [s[0]] + s[1..];
      FilterAll(s[1..], keep);
    }
  }

  /** The position of the place with that identifier, as `findOne` finds it. */
  function FindPlace(places: seq<Place>, id: ObjectId): (r: Option<nat>)
    ensures r.Some? ==> r.value < |places| && places[r.value].id == id
    ensures r.Some? ==> forall j :: 0 <= j < r.value ==> places[j].id != id
    ensures r.None? <==> !HasPlaceId(places, id)
  {
    Seqs.FirstIndex(places, (p: Place) => p.id == id)
  }

  /** GET /places/:id: 500 when the id does not parse, 404 when no place has it. */
  function GetPlace(places: seq<Place>, id: string): (r: Response)
    ensures r.status in {200, 404, 500}
    ensures r.status == 500 <==> !ObjectIds.IsValid(id)
    ensures r.status == 500 ==> r.body == Error(FetchPlaceFailed)
    ensures r.status == 404 <==> ObjectIds.IsValid(id) && !HasPlaceId(places, ObjectIds.Parse(id).value)
    ensures r.status == 404 ==> r.body == Error(PlaceNotFound)
    ensures r.status == 200 ==>
      r.body.PlaceFound? && r.body.place in places && r.body.place.id == ObjectIds.Parse(id).value
  {
    match ObjectIds.Parse(id)
    case None => Response(500, Error(FetchPlaceFailed))
    case Some(pid) =>
      match FindPlace(places, pid)
      case None => Response(404, Error(PlaceNotFound))
      case Some(k) => Response(200, PlaceFound(places[k]))
  }

  datatype PlaceStep = PlaceStep(places: seq<Place>, response: Response)

  /** The record POST /places inserts. */
  function NewPlace(caller: string, input: PlaceInput, geo: LngLat, now: Timestamp, newId: ObjectId): (p: Place)
    ensures p.id == newId && p.addedBy == caller && p.createdAt == now
    ensures p.name == input.name && p.category == input.category
    ensures input.description.None? || input.description == Some("") ==> p.description == ""
    ensures input.description.Some? ==> p.description == input.description.value
    ensures input.tags.None? ==> p.tags == []
    ensures input.photos.None? ==> p.photos == []
    ensures input.tags.Some? ==> p.tags == input.tags.value
    ensures input.photos.Some? ==> p.photos == input.photos.value
    ensures p.geo == GeoPoint("Point", [geo.lng, geo.lat])
  {
    Place(newId, input.name, input.category, input.description.GetOr(""),
          GeoPoint("Point", [geo.lng, geo.lat]), input.tags.GetOr([]), input.photos.GetOr([]),
          caller, now)
  }

  /** POST /places: 500 without `geo` or on an identifier clash, otherwise 201
      with exactly one record added. */
  function AddPlace(places: seq<Place>, caller: string, input: PlaceInput, now: Timestamp, newId: ObjectId): (s: PlaceStep)
    ensures s.response.status in {201, 500}
    ensures s.response.status == 500 ==> s.places == places && s.response.body == Error(AddPlaceFailed)
    ensures s.response.status == 201 <==> input.geo.Some? && !HasPlaceId(places, newId)
    ensures s.response.status == 201 ==>
      s.response.body == PlaceCreated(newId)
      && s.places == places + [NewPlace(caller, input, input.geo.value, now, newId)]
  {
    match input.geo
    case None => PlaceStep(places, Response(500, Error(AddPlaceFailed)))
    case Some(geo) =>
      if HasPlaceId(places, newId) then PlaceStep(places, Response(500, Error(AddPlaceFailed)))
      else PlaceStep(places + [NewPlace(caller, input, geo, now, newId)], Response(201, PlaceCreated(newId)))
  }

  /** A created place is what a lookup of the returned id finds. */
  lemma {:induction false} AddedPlaceFound(places: seq<Place>, caller: string, input: PlaceInput, now: Timestamp, newId: ObjectId)
    requires AddPlace(places, caller, input, now, newId).response.status == 201
    ensures var s := AddPlace(places, caller, input, now, newId);
      GetPlace(s.places, ObjectIds.ToString(newId)) == Response(200, PlaceFound(s.places[|places|]))
  {
    var s := AddPlace(places, caller, input, now, newId);
    assert s.places[|places|].id == newId;
    assert forall j :: 0 <= j < |places| ==> s.places[j] == places[j];
    assert FindPlace(s.places, newId) == Some(|places|);
  }

  lemma {:induction false} AddPlaceKeepsIdsUnique(places: seq<Place>, caller: string, input: PlaceInput, now: Timestamp, newId: ObjectId)
    requires PlaceIdsUnique(places)
    ensures PlaceIdsUnique(AddPlace(places, caller, input, now, newId).places)
  {
    var s := AddPlace(places, caller, input, now, newId);
    if s.response.status == 201 {
      forall i, j | 0 <= i < j < |s.places| ensures s.places[i].id != s.places[j].id {
        assert s.places[i] == places[i];
        if j < |places| { assert s.places[j] == places[j]; }
      }
    }
  }

  function ReviewCreatedAt(r: Review): int { r.createdAt }

  /** The reviews of one place, newest first. */
  function ReviewsOf(reviews: seq<Review>, placeId: ObjectId): (r: seq<Review>)
    ensures forall i :: 0 <= i < |r| ==> r[i].placeId == placeId
    ensures forall x :: x in r <==> x in reviews && x.placeId == placeId
    ensures Seqs.SortedDesc(r, ReviewCreatedAt)
    ensures multiset(r) == multiset(Seqs.Filter(reviews, (x: Review) => x.placeId == placeId))
  {
    var mine := Seqs.Filter(reviews, (x: Review) => x.placeId == placeId);
    var r := Seqs.SortDesc(mine, ReviewCreatedAt);
    ReviewsOfMembers(reviews, placeId, r);
    r
  }

  /** A permutation of a place's reviews holds exactly that place's reviews. */
  lemma ReviewsOfMembers(reviews: seq<Review>, placeId: ObjectId, r: seq<Review>)
    requires multiset(r) == multiset(Seqs.Filter(reviews, (x: Review) => x.placeId == placeId))
    ensures forall x :: x in r <==> x in reviews && x.placeId == placeId
    ensures forall i :: 0 <= i < |r| ==> r[i].placeId == placeId
  {
    var mine := Seqs.Filter(reviews, (x: Review) => x.placeId == placeId);
    Seqs.SameElements(r, mine);
    assert forall i :: 0 <= i < |r| ==> r[i] in mine;
  }

  /** GET /places/:id/reviews: 500 when the id does not parse. */
  function ListReviews(reviews: seq<Review>, id: string): (r: Response)
    ensures r.status == 500 <==> !ObjectIds.IsValid(id)
    ensures r.status == 500 ==> r.body == Error(FetchReviewsFailed)
    ensures r.status != 500 ==> r == Response(200, ReviewList(ReviewsOf(reviews, ObjectIds.Parse(id).value)))
  {
    match ObjectIds.Parse(id)
    case None => Response(500, Error(FetchReviewsFailed))
    case Some(pid) => Response(200, ReviewList(ReviewsOf(reviews, pid)))
  }

  datatype ReviewStep = ReviewStep(reviews: seq<Review>, response: Response)

  /** POST /places/:id/reviews: 500 when the id does not parse or on an
      identifier clash; whether the place exists is not checked. */
  function AddReview(reviews: seq<Review>, id: string, caller: string, input: ReviewInput, now: Timestamp, newId: ObjectId): (s: ReviewStep)
    ensures s.response.status in {201, 500}
    ensures s.response.status == 500 ==> s.reviews == reviews && s.response.body == Error(AddReviewFailed)
    ensures s.response.status == 201 <==> ObjectIds.IsValid(id) && !HasReviewId(reviews, newId)
    ensures s.response.status == 201 ==>
      && s.response.body == ReviewCreated(newId)
      && |s.reviews| == |reviews| + 1 && s.reviews[..|reviews|] == reviews
      && var r := s.reviews[|reviews|];
      && r.id == newId && r.placeId == ObjectIds.Parse(id).value && r.userId == caller
      && r.text == input.text && r.rating == input.rating
      && r.photos == input.photos.GetOr([]) && r.createdAt == now
  {
    match ObjectIds.Parse(id)
    case None => ReviewStep(reviews, Response(500, Error(AddReviewFailed)))
    case Some(pid) =>
      if HasReviewId(reviews, newId) then ReviewStep(reviews, Response(500, Error(AddReviewFailed)))
      else
        var review := Review(newId, pid, caller, input.text, input.rating, input.photos.GetOr([]), now);
        assert (reviews + [review])[..|reviews|] == reviews;
        ReviewStep(reviews + [review], Response(201, ReviewCreated(newId)))
  }

  /** An added review shows up in its place's list, and the lists of every
      other place stay as they were. */
  lemma {:induction false} AddedReviewListed(reviews: seq<Review>, id: string, caller: string, input: ReviewInput,
                                             now: Timestamp, newId: ObjectId, other: ObjectId)
    requires AddReview(reviews, id, caller, input, now, newId).response.status == 201
    ensures var s := AddReview(reviews, id, caller, input, now, newId);
      && s.reviews[|reviews|] in ReviewsOf(s.reviews, ObjectIds.Parse(id).value)
      && (other != ObjectIds.Parse(id).value ==> ReviewsOf(s.reviews, other) == ReviewsOf(reviews, other))
  {
    var s := AddReview(reviews, id, caller, input, now, newId);
    var added := s.reviews[|reviews|];
    assert s.reviews == reviews + [added];
    assert added in s.reviews;
    if other != ObjectIds.Parse(id).value {
      var keep := (x: Review) => x.placeId == other;
      Seqs.FilterConcat(reviews, [added], keep);
      assert Seqs.Filter([added], keep) == [];
      assert Seqs.Filter(s.reviews, keep) == Seqs.Filter(reviews, keep);
    }
  }

  lemma {:induction false} AddReviewKeepsIdsUnique(reviews: seq<Review>, id: string, caller: string, input: ReviewInput,
                                                   now: Timestamp, newId: ObjectId)
    requires ReviewIdsUnique(reviews)
    ensures ReviewIdsUnique(AddReview(reviews, id, caller, input, now, newId).reviews)
  {
    var s := AddReview(reviews, id, caller, input, now, newId);
    if s.response.status == 201 {
      forall i, j | 0 <= i < j < |s.reviews| ensures s.reviews[i].id != s.reviews[j].id {
        assert s.reviews[i] == reviews[i];
        if j < |reviews| { assert s.reviews[j] == reviews[j]; }
      }
    }
  }

  /** The place and review collections. */
  class PlacesCollections {
    var places: seq<Place>
    var reviews: seq<Review>

    ghost predicate Valid()
      reads this
    {
      PlaceIdsUnique(places) && ReviewIdsUnique(reviews)
    }

    constructor ()
      ensures Valid() && places == [] && reviews == []
    {
      places := [];
      reviews := [];
    }

    /** GET /places: the query is built field by field before the lookup. */
    method List(category: Option<string>) returns (response: Response)
      ensures response == Response(200, PlaceList(ListPlaces(places, category)))
    {
      var filter: Option<string> := None;
      if category.Some? && category.value != "" {
        filter := category;
      }
      var matching := Seqs.Filter(places, (p: Place) => MatchesCategory(p, filter));
      response := Response(200, PlaceList(Seqs.Page(matching, 0, ListCap)));
    }

    method Get(id: string) returns (response: Response)
      ensures response == GetPlace(places, id)
    {
      var pid := ObjectIds.Parse(id);
      if pid.None? {
        return Response(500, Error(FetchPlaceFailed));
      }
      var k := FindPlace(places, pid.value);
      if k.None? {
        return Response(404, Error(PlaceNotFound));
      }
      response := Response(200, PlaceFound(places[k.value]));
    }

    method Add(caller: string, input: PlaceInput, now: Timestamp, newId: ObjectId) returns (response: Response)
      requires Valid()
      modifies this
      ensures Valid() && reviews == old(reviews)
      ensures PlaceStep(places, response) == AddPlace(old(places), caller, input, now, newId)
    {
      AddPlaceKeepsIdsUnique(places, caller, input, now, newId);
      if input.geo.None? || HasPlaceId(places, newId) {
        return Response(500, Error(AddPlaceFailed));
      }
      places := places + [NewPlace(caller, input, input.geo.value, now, newId)];
      response := Response(201, PlaceCreated(newId));
    }

    method Reviews(id: string) returns (response: Response)
      ensures response == ListReviews(reviews, id)
    {
      var pid := ObjectIds.Parse(id);
      if pid.None? {
        return Response(500, Error(FetchReviewsFailed));
      }
      response := Response(200, ReviewList(ReviewsOf(reviews, pid.value)));
    }

    method AddReviewTo(id: string, caller: string, input: ReviewInput, now: Timestamp, newId: ObjectId) returns (response: Response)
      requires Valid()
      modifies this
      ensures Valid() && places == old(places)
      ensures ReviewStep(reviews, response) == AddReview(old(reviews), id, caller, input, now, newId)
    {
      AddReviewKeepsIdsUnique(reviews, id, caller, input, now, newId);
      var pid := ObjectIds.Parse(id);
      if pid.None? || HasReviewId(reviews, newId) {
        return Response(500, Error(AddReviewFailed));
      }
      reviews := reviews + [Review(newId, pid.value, caller, input.text, input.rating, input.photos.GetOr([]), now)];
      response := Response(201, ReviewCreated(newId));
    }
  }
}
