/** The feed handlers of the backend (backend/src/routes/feed.js) over the
    `posts` and `likes` collections: the paged feed, post creation, and like /
    unlike with the one-like-per-post-and-user check. The caller is the
    `clerkId` the bearer guard attached; the clock and the identifier the store
    generates on insert are parameters. */
module FeedRoutes {
  import opened Wrappers
  import ObjectIds
  import Seqs

  type ObjectId = ObjectIds.ObjectId
  type Timestamp = int

  datatype Post = Post(id: ObjectId, userId: string, placeId: Option<ObjectId>,
                       photoUrl: Option<string>, caption: string, createdAt: Timestamp)

  datatype Like = Like(id: ObjectId, postId: ObjectId, userId: string, createdAt: Timestamp)

  /** The fields of a POST /posts body; each may be missing. */
  datatype PostInput = PostInput(placeId: Option<string>, photoUrl: Option<string>, caption: Option<string>)

  datatype Body =
    | Feed(posts: seq<Post>)
    | PostCreated(postId: ObjectId)
    | Done
    | Error(message: string)

  datatype Response = Response(status: nat, body: Body)

  const DefaultLimit := 20
  const DefaultSkip := 0

  const CreateFailed := "Failed to create post"
  const AlreadyLiked := "Already liked"
  const LikeFailed := "Failed to like post"
  const UnlikeFailed := "Failed to unlike post"

  predicate PostIdsUnique(posts: seq<Post>) {
    forall i, j :: 0 <= i < j < |posts| ==> posts[i].id != posts[j].id
  }

  predicate LikeIdsUnique(likes: seq<Like>) {
    forall i, j :: 0 <= i < j < |likes| ==> likes[i].id != likes[j].id
  }

  predicate HasPostId(posts: seq<Post>, id: ObjectId) {
    exists i :: 0 <= i < |posts| && posts[i].id == id
  }

  predicate HasLikeId(likes: seq<Like>, id: ObjectId) {
    exists i :: 0 <= i < |likes| && likes[i].id == id
  }

  function PostCreatedAt(p: Post): int { p.createdAt }

  predicate IsLikeOf(l: Like, postId: ObjectId, userId: string) {
    l.postId == postId && l.userId == userId
  }

  /** No two likes are for the same post by the same user. */
  predicate AtMostOneLikePerPair(likes: seq<Like>) {
    forall i, j :: 0 <= i < j < |likes| ==> !IsLikeOf(likes[j], likes[i].postId, likes[i].userId)
  }

  /** GET /feed: newest first, `skip` (default 0) skipped, at most `limit`
      (default 20) returned, where a limit of 0 means all. */
  function GetFeed(posts: seq<Post>, limit: Option<nat>, skip: Option<nat>): (r: seq<Post>)
    ensures Seqs.SortedDesc(r, PostCreatedAt)
    ensures forall p :: p in r ==> p in posts
    ensures limit.GetOr(DefaultLimit) > 0 ==> |r| <= limit.GetOr(DefaultLimit)
    ensures limit.None? ==> |r| <= 20
    ensures skip.GetOr(DefaultSkip) == 0 && limit == Some(0) ==> multiset(r) == multiset(posts)
  {
    var sorted := Seqs.SortDesc(posts, PostCreatedAt);
    var r := Seqs.Page(sorted, skip.GetOr(DefaultSkip), limit.GetOr(DefaultLimit));
    SliceSorted(sorted, skip.GetOr(DefaultSkip), r);
    forall p | p in r ensures p in posts {
      assert p in multiset(sorted);
    }
    r
  }

  lemma SliceSorted(s: seq<Post>, skip: nat, r: seq<Post>)
    requires Seqs.SortedDesc(s, PostCreatedAt)
    requires r == [] || (skip + |r| <= |s| && r == s[skip..skip + |r|])
    ensures Seqs.SortedDesc(r, PostCreatedAt)
  {
    if r != [] {
      forall i, j | 0 <= i < j < |r| ensures PostCreatedAt(r[i]) >= PostCreatedAt(r[j]) {
        assert r[i] == s[skip + i] && r[j] == s[skip + j];
      }
    }
  }

  /** Two consecutive feed pages of one size are the page of twice the size. */
  lemma {:induction false} FeedPagesAdjoin(posts: seq<Post>, skip: nat, limit: nat)
    requires limit > 0
    ensures GetFeed(posts, Some(limit), Some(skip)) + GetFeed(posts, Some(limit), Some(skip + limit))
         == GetFeed(posts, Some(2 * limit), Some(skip))
  {
    var sorted := Seqs.SortDesc(posts, PostCreatedAt);
    assert GetFeed(posts, Some(limit), Some(skip)) == Seqs.Page(sorted, skip, limit) by {
      FeedIsPage(posts, limit, skip);
    }
    assert GetFeed(posts, Some(limit), Some(skip + limit)) == Seqs.Page(sorted, skip + limit, limit) by {
      FeedIsPage(posts, limit, skip + limit);
    }
    assert GetFeed(posts, Some(2 * limit), Some(skip)) == Seqs.Page(sorted, skip, 2 * limit) by {
      FeedIsPage(posts, 2 * limit, skip);
    }
    Seqs.PagesConcatenate(sorted, skip, limit);
  }

  /** The size of a feed page: `limit` posts while that many remain after
      `skip`, otherwise all that remain. */
  lemma {:induction false} FeedSize(posts: seq<Post>, limit: Option<nat>, skip: Option<nat>)
    ensures var k, n := skip.GetOr(DefaultSkip), limit.GetOr(DefaultLimit);
      |GetFeed(posts, limit, skip)|
      == if k >= |posts| then 0 else if n == 0 || k + n >= |posts| then |posts| - k else n
  {
    FeedIsPage(posts, limit.GetOr(DefaultLimit), skip.GetOr(DefaultSkip));
  }

  lemma FeedIsPage(posts: seq<Post>, limit: nat, skip: nat)
    ensures GetFeed(posts, Some(limit), Some(skip)) == Seqs.Page(Seqs.SortDesc(posts, PostCreatedAt), skip, limit)
  {
  }

  /** The `placeId` a new post refers to: null for a missing or empty one, the
      identifier for a valid one, and a throw (None) for anything else. */
  function PlaceRef(placeId: Option<string>): (r: Option<Option<ObjectId>>)
    ensures placeId.None? || placeId == Some("") ==> r == Some(None)
    ensures placeId.Some? && placeId.value != "" ==>
      (r.Some? <==> ObjectIds.IsValid(placeId.value))
      && (r.Some? ==> r.value == ObjectIds.Parse(placeId.value))
  {
    match placeId
    case None => Some(None)
    case Some(s) =>
      if s == "" then Some(None)
      else
        match ObjectIds.Parse(s)
        case None => None
        case Some(id) => Some(Some(id))
  }

  datatype PostStep = PostStep(posts: seq<Post>, response: Response)

  /** POST /posts. */
  function CreatePost(posts: seq<Post>, caller: string, input: PostInput, now: Timestamp, newId: ObjectId): (s: PostStep)
    ensures s.response.status in {201, 500}
    ensures s.response.status == 500 ==> s.posts == posts && s.response.body == Error(CreateFailed)
    ensures s.response.status == 201 <==> PlaceRef(input.placeId).Some? && !HasPostId(posts, newId)
    ensures s.response.status == 201 ==>
      && s.response.body == PostCreated(newId)
      && |s.posts| == |posts| + 1 && s.posts[..|posts|] == posts
      && var p := s.posts[|posts|];
      && p.id == newId && p.userId == caller && p.placeId == PlaceRef(input.placeId).value
      && p.photoUrl == input.photoUrl && p.caption == input.caption.GetOr("") && p.createdAt == now
  {
    match PlaceRef(input.placeId)
    case None => PostStep(posts, Response(500, Error(CreateFailed)))
    case Some(placeRef) =>
      if HasPostId(posts, newId) then PostStep(posts, Response(500, Error(CreateFailed)))
      else
        var post := Post(newId, caller, placeRef, input.photoUrl, input.caption.GetOr(""), now);
        assert (posts + [post])[..|posts|] == posts;
        PostStep(posts + [post], Response(201, PostCreated(newId)))
  }

  lemma {:induction false} CreatePostKeepsIdsUnique(posts: seq<Post>, caller: string, input: PostInput, now: Timestamp, newId: ObjectId)
    requires PostIdsUnique(posts)
    ensures PostIdsUnique(CreatePost(posts, caller, input, now, newId).posts)
  {
    var s := CreatePost(posts, caller, input, now, newId);
    if s.response.status == 201 {
      forall i, j | 0 <= i < j < |s.posts| ensures s.posts[i].id != s.posts[j].id {
        if j == |posts| {
          assert s.posts[i] == posts[i];
        } else {
          assert s.posts[i] == posts[i] && s.posts[j] == posts[j];
        }
      }
    }
  }

  datatype LikeStep = LikeStep(likes: seq<Like>, response: Response)

  /** The position of the caller's like of a post, as `findOne` finds it. */
  function FindLike(likes: seq<Like>, postId: ObjectId, userId: string): (r: Option<nat>)
    ensures r.Some? ==> r.value < |likes| && IsLikeOf(likes[r.value], postId, userId)
    ensures r.Some? ==> forall j :: 0 <= j < r.value ==> !IsLikeOf(likes[j], postId, userId)
    ensures r.None? <==> forall j :: 0 <= j < |likes| ==> !IsLikeOf(likes[j], postId, userId)
  {
    Seqs.FirstIndex(likes, (l: Like) => IsLikeOf(l, postId, userId))
  }

  /** POST /like/:postId. */
  function LikePost(likes: seq<Like>, postId: string, caller: string, now: Timestamp, newId: ObjectId): (s: LikeStep)
    ensures s.response.status in {200, 400, 500}
    ensures s.response.status != 200 ==> s.likes == likes
    ensures ObjectIds.Parse(postId).None? ==> s.response == Response(500, Error(LikeFailed))
    ensures ObjectIds.Parse(postId).Some? && FindLike(likes, ObjectIds.Parse(postId).value, caller).Some? ==>
      s.response == Response(400, Error(AlreadyLiked))
    ensures s.response.status == 400 <==>
      ObjectIds.Parse(postId).Some? && FindLike(likes, ObjectIds.Parse(postId).value, caller).Some?
    ensures s.response.status == 200 <==>
      ObjectIds.Parse(postId).Some? && FindLike(likes, ObjectIds.Parse(postId).value, caller).None?
      && !HasLikeId(likes, newId)
    ensures s.response.status == 500 ==> s.response == Response(500, Error(LikeFailed))
    ensures s.response.status == 200 ==>
      s.response.body == Done
      && s.likes == likes + [Like(newId, ObjectIds.Parse(postId).value, caller, now)]
  {
    match ObjectIds.Parse(postId)
    case None => LikeStep(likes, Response(500, Error(LikeFailed)))
    case Some(pid) =>
      if FindLike(likes, pid, caller).Some? then LikeStep(likes, Response(400, Error(AlreadyLiked)))
      else if HasLikeId(likes, newId) then LikeStep(likes, Response(500, Error(LikeFailed)))
      else LikeStep(likes + [Like(newId, pid, caller, now)], Response(200, Done))
  }

  /** DELETE /like/:postId: removes the first like of the post by the caller,
      if there is one, and reports success either way. */
  function UnlikePost(likes: seq<Like>, postId: string, caller: string): (s: LikeStep)
    ensures ObjectIds.Parse(postId).None? ==> s == LikeStep(likes, Response(500, Error(UnlikeFailed)))
    ensures ObjectIds.Parse(postId).Some? ==> s.response == Response(200, Done)
    ensures |likes| - 1 <= |s.likes| <= |likes|
    ensures ObjectIds.Parse(postId).Some? ==>
      match FindLike(likes, ObjectIds.Parse(postId).value, caller)
      case None => s.likes == likes
      case Some(k) => s.likes == Seqs.RemoveAt(likes, k)
  {
    match ObjectIds.Parse(postId)
    case None => LikeStep(likes, Response(500, Error(UnlikeFailed)))
    case Some(pid) =>
      match FindLike(likes, pid, caller)
      case None => LikeStep(likes, Response(200, Done))
      case Some(k) => LikeStep(Seqs.RemoveAt(likes, k), Response(200, Done))
  }

  /** Run one after another, likes never make a second like of a post by the
      same user. */
  lemma {:induction false} LikePreservesAtMostOne(likes: seq<Like>, postId: string, caller: string, now: Timestamp, newId: ObjectId)
    requires AtMostOneLikePerPair(likes)
    ensures AtMostOneLikePerPair(LikePost(likes, postId, caller, now, newId).likes)
  {
    var s := LikePost(likes, postId, caller, now, newId);
    if s.response.status == 200 {
      var pid := ObjectIds.Parse(postId).value;
      var added := Like(newId, pid, caller, now);
      assert s.likes == likes + [added];
      forall i, j | 0 <= i < j < |s.likes| ensures !IsLikeOf(s.likes[j], s.likes[i].postId, s.likes[i].userId) {
        assert s.likes[i] == likes[i];
        if j == |likes| {
          assert !IsLikeOf(likes[i], pid, caller);
        } else {
          assert s.likes[j] == likes[j];
        }
      }
    }
  }

  lemma {:induction false} UnlikePreservesAtMostOne(likes: seq<Like>, postId: string, caller: string)
    requires AtMostOneLikePerPair(likes)
    ensures AtMostOneLikePerPair(UnlikePost(likes, postId, caller).likes)
  {
    var s := UnlikePost(likes, postId, caller);
    if ObjectIds.Parse(postId).Some? {
      var k := FindLike(likes, ObjectIds.Parse(postId).value, caller);
      if k.Some? {
        forall i, j | 0 <= i < j < |s.likes| ensures !IsLikeOf(s.likes[j], s.likes[i].postId, s.likes[i].userId) {
          var i', j' := if i < k.value then i else i + 1, if j < k.value then j else j + 1;
          assert s.likes[i] == likes[i'] && s.likes[j] == likes[j'];
        }
      }
    }
  }

  /** Liking a post the caller has not liked and then unliking it leaves the
      likes exactly as they were. */
  lemma {:induction false} LikeThenUnlikeRestores(likes: seq<Like>, postId: string, caller: string, now: Timestamp, newId: ObjectId)
    requires LikePost(likes, postId, caller, now, newId).response.status == 200
    ensures UnlikePost(LikePost(likes, postId, caller, now, newId).likes, postId, caller).likes == likes
  {
    var pid := ObjectIds.Parse(postId).value;
    var liked := LikePost(likes, postId, caller, now, newId).likes;
    assert liked == likes + [Like(newId, pid, caller, now)];
    assert FindLike(liked, pid, caller) == Some(|likes|) by {
      assert forall j :: 0 <= j < |likes| ==> liked[j] == likes[j];
      assert IsLikeOf(liked[|likes|], pid, caller);
    }
    assert Seqs.RemoveAt(liked, |likes|) == likes;
  }

  /** A successful like makes the next like of the same post by the same user
      fail with 400. */
  lemma {:induction false} SecondLikeRejected(likes: seq<Like>, postId: string, caller: string, now: Timestamp,
                                              newId: ObjectId, later: Timestamp, otherId: ObjectId)
    requires LikePost(likes, postId, caller, now, newId).response.status == 200
    ensures LikePost(LikePost(likes, postId, caller, now, newId).likes, postId, caller, later, otherId).response
         == Response(400, Error(AlreadyLiked))
  {
    var pid := ObjectIds.Parse(postId).value;
    var liked := LikePost(likes, postId, caller, now, newId).likes;
    assert IsLikeOf(liked[|likes|], pid, caller);
  }

  /** The feed's collections. */
  class FeedCollections {
    var posts: seq<Post>
    var likes: seq<Like>

    ghost predicate Valid()
      reads this
    {
      PostIdsUnique(posts) && LikeIdsUnique(likes) && AtMostOneLikePerPair(likes)
    }

    constructor ()
      ensures Valid() && posts == [] && likes == []
    {
      posts := [];
      likes := [];
    }

    method ReadFeed(limit: Option<nat>, skip: Option<nat>) returns (response: Response)
      ensures response == Response(200, Feed(GetFeed(posts, limit, skip)))
    {
      var sorted := Seqs.SortDesc(posts, PostCreatedAt);
      response := Response(200, Feed(Seqs.Page(sorted, skip.GetOr(DefaultSkip), limit.GetOr(DefaultLimit))));
    }

    method AddPost(caller: string, input: PostInput, now: Timestamp, newId: ObjectId) returns (response: Response)
      requires Valid()
      modifies this
      ensures Valid() && likes == old(likes)
      ensures PostStep(posts, response) == CreatePost(old(posts), caller, input, now, newId)
    {
      CreatePostKeepsIdsUnique(posts, caller, input, now, newId);
      var placeRef := PlaceRef(input.placeId);
      if placeRef.None? {
        return Response(500, Error(CreateFailed));
      }
      if HasPostId(posts, newId) {
        return Response(500, Error(CreateFailed));
      }
      posts := posts + [Post(newId, caller, placeRef.value, input.photoUrl, input.caption.GetOr(""), now)];
      response := Response(201, PostCreated(newId));
    }

    method AddLike(postId: string, caller: string, now: Timestamp, newId: ObjectId) returns (response: Response)
      requires Valid()
      modifies this
      ensures Valid() && posts == old(posts)
      ensures LikeStep(likes, response) == LikePost(old(likes), postId, caller, now, newId)
    {
      LikePreservesAtMostOne(likes, postId, caller, now, newId);
      var pid := ObjectIds.Parse(postId);
      if pid.None? {
        return Response(500, Error(LikeFailed));
      }
      var existing := FindLike(likes, pid.value, caller);
      if existing.Some? {
        return Response(400, Error(AlreadyLiked));
      }
      if HasLikeId(likes, newId) {
        return Response(500, Error(LikeFailed));
      }
      ghost var before := likes;
      likes := likes + [Like(newId, pid.value, caller, now)];
      forall i, j | 0 <= i < j < |likes| ensures likes[i].id != likes[j].id {
        assert likes[i] == before[i];
        if j < |before| { assert likes[j] == before[j]; }
      }
      response := Response(200, Done);
    }

    method RemoveLike(postId: string, caller: string) returns (response: Response)
      requires Valid()
      modifies this
      ensures Valid() && posts == old(posts)
      ensures LikeStep(likes, response) == UnlikePost(old(likes), postId, caller)
    {
      UnlikePreservesAtMostOne(likes, postId, caller);
      var pid := ObjectIds.Parse(postId);
      if pid.None? {
        return Response(500, Error(UnlikeFailed));
      }
      var existing := FindLike(likes, pid.value, caller);
      if existing.Some? {
        ghost var before := likes;
        var k := existing.value;
        likes := Seqs.RemoveAt(likes, k);
        forall i, j | 0 <= i < j < |likes| ensures likes[i].id != likes[j].id {
          var i', j' := if i < k then i else i + 1, if j < k then j else j + 1;
          assert likes[i] == before[i'] && likes[j] == before[j'];
        }
      }
      response := Response(200, Done);
    }
  }
}
