# paw-places: a verified model of the persistence logic

paw-places is a pet-friendly-places app. It has two parts:

- A Next.js web app. Signed-in users keep a private list of saved places in the `my_places` collection, served by `lib/my-places.ts` and `app/api/my-places/route.ts` and shown by `app/my-places/page.tsx`.
- A Fastify backend, `backend/src`. It has a feed of posts with likes, shared places with reviews, and user profiles with pets. Each request is guarded by a bearer-token check.

This project models the logic behind those handlers in Dafny and proves properties about it. Each MongoDB collection is a sequence of records in natural (insertion) order:

- `find` with a filter keeps the matching records in order.
- `findOne` takes the first match.
- `deleteOne` removes the first match.
- `sort({createdAt: -1})` is a stable sort by descending time stamp.
- `skip`/`limit` cut a page, where a limit of 0 means no limit.

Every handler is first written as a pure function. It takes the old collection and returns the new collection together with the response or outcome. A class holding the collections then performs the same operation in place. Each method's `ensures` ties its new state and its reply to that function, and keeps an invariant: record identifiers stay unique.

Store identifiers follow the string rule of `ObjectId.isValid`: exactly 24 hexadecimal digits. They are kept in the canonical lower-case form that `toString()` prints. Where `new ObjectId(id)` would throw, `ObjectIds.Parse` returns `None`.

Some inputs come from outside the code and become parameters:

- the clock is `now`
- the identifier generated on insert is `newId`; an insert whose identifier is already taken fails like a thrown insert
- the signed-in user of the web app is `session`
- whether the web app's store can be reached is `storeAvailable`
- the identity provider's `verifySession` is a function parameter `verify`

Modules:

- `Wrappers`: `Option` and `Result`.
- `Text`: `trim`, `split` with a non-empty separator, and `join`.
- `ObjectIds`: identifier validation, parsing and printing.
- `Seqs`: collection queries.
- `MyPlacesStore`: `lib/my-places.ts`.
- `MyPlacesApi`: `app/api/my-places/route.ts`.
- `MyPlacesPage`: the logic of `app/my-places/page.tsx`.
- `AuthGuard`: `backend/src/middleware/auth.js`.
- `FeedRoutes`, `PlacesRoutes`, `UsersRoutes`: the three backend route files.

## Model

| member | source | states |
|---|---|---|
| Text.Trim | lib/my-places.ts:83-84 | the result has no whitespace at either end, and is empty exactly when the input is all whitespace |
| Text.TrimRemovesEnds | lib/my-places.ts:83-84 | `trim` removes only whitespace, and only from the two ends: input == leading whitespace + result + trailing whitespace |
| Text.TrimAfterWhitespace | app/my-places/page.tsx:97 | whitespace in front of a trimmed non-empty string is exactly what `trim` removes |
| Text.SplitJoin | app/my-places/page.tsx:96-99 | splitting a join gives back the pieces when no piece holds the separator's first character |
| Text.SplitPiecesAvoidSeparator | app/my-places/page.tsx:96 | no piece of a split on a one-character separator contains it |
| Text.SplitBy | app/my-places/page.tsx:96 | `split` with a non-empty separator gives at least one piece |
| Text.Join | app/my-places/page.tsx:99 | `join` of no pieces is "", and otherwise starts with the first piece |
| Text.JoinSplit | app/my-places/page.tsx:341 | joining the pieces of a split with the same separator gives back the string, so `split` loses no character |
| Text.SplitPiecesAvoid | app/my-places/page.tsx:341 | no piece of a split contains the separator, whatever its length |
| ObjectIds.Parse | lib/my-places.ts:129 | `new ObjectId(s)` succeeds exactly for valid strings (24 hex digits), lower-cases them, and is the identity on canonical ones |
| ObjectIds.IsValid | lib/my-places.ts:102 | `ObjectId.isValid` accepts only 24-character strings, and accepts every canonical identifier |
| ObjectIds.ToString | lib/my-places.ts:55 | the printed identifier is valid and parses back to the same identifier |
| Seqs.Filter | lib/my-places.ts:68 | `find` returns exactly the matching records, each at most as often as stored |
| Seqs.FirstIndex | lib/my-places.ts:128-132 | `findOne` yields the first matching position, and None exactly when nothing matches |
| Seqs.RemoveAt | lib/my-places.ts:147-150 | `deleteOne` removes exactly the record at that position and keeps the order of the rest |
| Seqs.SortDesc | lib/my-places.ts:68 | the sort by descending key is ordered and a permutation of its input |
| Seqs.Page | backend/src/routes/feed.js:14-15 | `skip`/`limit` give a contiguous slice of at most `limit` records (all remaining when the limit is 0) |
| Seqs.PagesConcatenate | backend/src/routes/feed.js:14-15 | two consecutive pages of one size make the page of twice that size |
| MyPlacesStore.TrimOrEmpty | lib/my-places.ts:83-84 | `s?.trim() ?? ""` is the trimmed string, or "" for undefined |
| MyPlacesStore.SetUpdatesFor | lib/my-places.ts:108-126 | the `$set` document stamps `updatedAt`, holds a key exactly when the update has it as an own property, holds strings trimmed, and turns an undefined `visited` into false |
| MyPlacesStore.ApplySet | lib/my-places.ts:128-130 | `$set` overwrites exactly the listed fields and `updatedAt`, and keeps the id, the owner and `createdAt` |
| MyPlacesStore.FindOwned | lib/my-places.ts:128-130 | the filter `{ _id, userId }` picks the first document with that id and owner, and None exactly when there is none |
| MyPlacesStore.Normalize | lib/my-places.ts:53-63 | the DTO's id parses back to the stored id; name, notes, tags, visited and both time stamps are copied |
| MyPlacesStore.NormalizeDropsOwner | lib/my-places.ts:53-63 | the DTO does not depend on the owner: `userId` is dropped |
| MyPlacesStore.NewestFirst | lib/my-places.ts:67-69 | the query result is a permutation of the owner's documents (each as often as stored), sorted by `createdAt` descending |
| MyPlacesStore.ListPlaces | lib/my-places.ts:65-72 | one DTO per document of the owner and no other, every owned document listed, newest first |
| MyPlacesStore.CreatePlace | lib/my-places.ts:74-95 | exactly one document is appended: owned by `userId`, name as passed, notes/tags trimmed or "", not visited, `createdAt == updatedAt == now`; the DTO of it is returned; a taken id throws and changes nothing |
| MyPlacesStore.UpdatedFields | lib/my-places.ts:108-126 | a present key is replaced (strings trimmed, undefined giving "" or false), `updatedAt` is re-stamped, and id, owner, `createdAt` and absent keys stay |
| MyPlacesStore.UpdateIdempotent | lib/my-places.ts:128-132 | applying the same `$set` twice is the same as once |
| MyPlacesStore.UpdatePlace | lib/my-places.ts:97-139 | an invalid id throws `INVALID_ID` before the collection changes; null and no change exactly when no document has that id and owner; otherwise only that document is changed and its DTO returned |
| MyPlacesStore.DeletePlace | lib/my-places.ts:141-152 | an invalid id throws `INVALID_ID` and changes nothing; returns true exactly when a document with that id and owner exists, and then removes only that one |
| MyPlacesStore.CreatePreservesUniqueIds | lib/my-places.ts:90 | a create keeps document ids unique |
| MyPlacesStore.UpdatePreservesUniqueIds | lib/my-places.ts:128-132 | an update keeps document ids unique |
| MyPlacesStore.DeletePreservesUniqueIds | lib/my-places.ts:147-150 | a delete keeps document ids unique |
| MyPlacesStore.SecondDeleteReturnsFalse | lib/my-places.ts:147-151 | after a delete that removed a place, deleting the same id again returns false and changes nothing |
| MyPlacesStore.CreateIsolated | lib/my-places.ts:80-90 | a create by one user leaves every other user's list unchanged |
| MyPlacesStore.UpdateIsolated | lib/my-places.ts:128-132 | an update by one user leaves every other user's list unchanged |
| MyPlacesStore.DeleteIsolated | lib/my-places.ts:147-150 | a delete by one user leaves every other user's list unchanged |
| MyPlacesStore.PlacesCollection.Create | lib/my-places.ts:74-95 | the in-place insert leaves the collection and returns the result that `CreatePlace` specifies, and keeps ids unique |
| MyPlacesStore.PlacesCollection.Update | lib/my-places.ts:97-139 | the `$set` document built key by key is the one `SetUpdatesFor` specifies, and the in-place update matches `UpdatePlace` |
| MyPlacesStore.PlacesCollection.Delete | lib/my-places.ts:141-152 | the in-place delete matches `DeletePlace` and keeps ids unique |
| MyPlacesApi.RequireUser | app/api/my-places/route.ts:5-18 | the user id exactly when one is signed in, otherwise the 401 sign-in response |
| MyPlacesApi.StringMember | app/api/my-places/route.ts:58-59 | a member is taken only when it is a string |
| MyPlacesApi.IsFalsy | app/api/my-places/route.ts:49 | `!payload` holds for null, false, 0 and "" and for no other boolean, number or string, and never for an object or array |
| MyPlacesApi.HasPlaceName | app/api/my-places/route.ts:49 | the 400 check passes exactly for an object whose `name` is a string that is not blank |
| MyPlacesApi.PayloadInput | app/api/my-places/route.ts:56-60 | the name is forwarded as sent; notes and tags are forwarded, with the values sent, exactly when they are strings |
| MyPlacesApi.Get | app/api/my-places/route.ts:20-37 | without a user, the 401 "must be signed in" response; 500 when the store throws; otherwise 200 with `listPlaces(userId)` |
| MyPlacesApi.Post | app/api/my-places/route.ts:39-70 | without a user, the 401 "must be signed in" response; 500 for an unparsable body; 400 for a falsy payload or a missing, non-string or blank name; 201 exactly in the remaining case when the store accepts the insert, with the created DTO; 500 "Unable to save place" for every store failure there; the collection changes only on 201 |
| MyPlacesApi.PostStoresPayload | app/api/my-places/route.ts:56-62 | a 201 appends one document owned by the caller with the sent name, notes/tags trimmed when strings and "" otherwise, not visited, stamped once, and returns its DTO |
| MyPlacesPage.CleanTags | app/my-places/page.tsx:96-98 | the kept tags are exactly the non-empty trimmed pieces; each is non-empty and trimmed, and no comma is introduced |
| MyPlacesPage.CleanTagsConcat | app/my-places/page.tsx:96-98 | cleaning works piece by piece, so kept tags stay in the order they were typed |
| MyPlacesPage.NormalizeTags | app/my-places/page.tsx:95-99 | the normalised string is "" exactly when no non-blank tag was typed, and otherwise starts with the first kept tag |
| MyPlacesPage.DisplayTags | app/my-places/page.tsx:339-341 | no tags for ""; otherwise pieces that join back on ", " to the stored string and none of which contains ", ", so the string is cut at every ", " (as for stored tags that were never normalised); a string without a comma is one tag |
| MyPlacesPage.TagsRoundTrip | app/my-places/page.tsx:95-99 | the display split on ", " of the normalised string gives exactly the trimmed non-empty comma-separated pieces that were typed |
| MyPlacesPage.NormalizedTagsAreClean | app/my-places/page.tsx:339-343 | every tag a card shows is non-empty, trimmed and free of commas |
| MyPlacesPage.NormalizeTagsIdempotent | app/my-places/page.tsx:95-99 | normalising twice is the same as normalising once |
| MyPlacesPage.SubmitPayload | app/my-places/page.tsx:92-100 | the sent name and notes are the form's name and notes, trimmed, and the tags are the normalised tags |
| MyPlacesPage.ReplaceById | app/my-places/page.tsx:161-163 | same length and order; exactly the entries with the id are replaced |
| MyPlacesPage.RemoveById | app/my-places/page.tsx:184 | no entry with the id remains, every other entry remains, and a list without the id is unchanged |
| MyPlacesPage.RemoveByIdConcat | app/my-places/page.tsx:184 | removal works part by part, so the remaining places keep their order |
| MyPlacesPage.VisitedCount | app/my-places/page.tsx:77-80 | the number of visited places, which is at most the number of places (so "still to check out" is never negative); 0 exactly when none is visited, and the total exactly when all are |
| MyPlacesPage.MyPlacesPage.HandleSubmit | app/my-places/page.tsx:82-131 | a blank name sends nothing and changes nothing; otherwise the normalised payload is sent; on success the new place is put first and the form is cleared; on failure the list and form stay and the save message is shown |
| MyPlacesPage.MyPlacesPage.ToggleVisited | app/my-places/page.tsx:133-170 | no request for an id not in the list; otherwise it sends the negation of `visited` of the first place with that id; on success only entries with the id are replaced; on failure the list stays and the update message is shown |
| MyPlacesPage.MyPlacesPage.RemovePlace | app/my-places/page.tsx:172-191 | on success the list is the old list without the id; on failure the list stays and the remove message is shown |
| AuthGuard.BearerToken | backend/src/middleware/auth.js:7-11 | a token exactly for a present, non-empty header starting with "Bearer ", and the header is "Bearer " + token |
| AuthGuard.BearerRoundTrip | backend/src/middleware/auth.js:11 | the header "Bearer " + t yields the token t |
| AuthGuard.Authenticate | backend/src/middleware/auth.js:3-29 | verification is called only with the extracted token; missing or malformed header, falsy session and thrown verification each give their 401; success exactly when a session is returned, with `clerkId`/`sessionId` taken from it |
| AuthGuard.Request.AuthenticateRequest | backend/src/middleware/auth.js:3-29 | the request gets `user` exactly on success; on every 401 path `user` is left as it was |
| FeedRoutes.GetFeed | backend/src/routes/feed.js:6-23 | newest first, only stored posts, at most `limit` (default 20) of them, and every post when the limit is 0 and nothing is skipped |
| FeedRoutes.FeedSize | backend/src/routes/feed.js:14-15 | a page holds `limit` posts while that many remain after `skip`, and otherwise all that remain (all of them when the limit is 0) |
| FeedRoutes.FeedIsPage | backend/src/routes/feed.js:11-16 | the feed is the `skip`/`limit` page of the posts sorted by descending `createdAt` |
| FeedRoutes.FeedPagesAdjoin | backend/src/routes/feed.js:11-16 | two consecutive feed pages of one size are the page of twice the size |
| FeedRoutes.PlaceRef | backend/src/routes/feed.js:35 | a missing or empty `placeId` gives null; any other is parsed, and an invalid one throws |
| FeedRoutes.CreatePost | backend/src/routes/feed.js:26-51 | 201 with the new id and exactly one post appended (caller as owner, place reference, photo, caption defaulting to "", stamped `now`); otherwise 500 and no change |
| FeedRoutes.CreatePostKeepsIdsUnique | backend/src/routes/feed.js:41 | creating a post keeps post ids unique |
| FeedRoutes.FindLike | backend/src/routes/feed.js:62-65 | the first like of that post by that user, and None exactly when there is none |
| FeedRoutes.LikePost | backend/src/routes/feed.js:54-84 | 500 "Failed to like post" for an invalid post id; 400 "Already liked" exactly when the caller's like exists; otherwise 200 with exactly one like appended when the new id is free, and 500 "Failed to like post" with no change on an id clash; the likes change only on 200 |
| FeedRoutes.UnlikePost | backend/src/routes/feed.js:87-104 | 500 for an invalid post id; otherwise success whether or not a like existed, with at most the caller's first like of the post removed |
| FeedRoutes.LikePreservesAtMostOne | backend/src/routes/feed.js:62-77 | run one after another, likes keep at most one like per post and user |
| FeedRoutes.UnlikePreservesAtMostOne | backend/src/routes/feed.js:94-97 | unliking keeps at most one like per post and user |
| FeedRoutes.LikeThenUnlikeRestores | backend/src/routes/feed.js:62-97 | a successful like followed by an unlike restores the likes exactly |
| FeedRoutes.SecondLikeRejected | backend/src/routes/feed.js:62-69 | after a successful like, the same like again gets 400 "Already liked" |
| FeedRoutes.FeedCollections.ReadFeed | backend/src/routes/feed.js:6-23 | the reply is 200 with the feed `GetFeed` specifies |
| FeedRoutes.FeedCollections.AddPost | backend/src/routes/feed.js:26-51 | the in-place insert matches `CreatePost`, leaves the likes alone and keeps ids unique |
| FeedRoutes.FeedCollections.AddLike | backend/src/routes/feed.js:54-84 | the read-then-insert matches `LikePost`, leaves the posts alone, keeps ids unique and keeps at most one like per post and user |
| FeedRoutes.FeedCollections.RemoveLike | backend/src/routes/feed.js:87-104 | the delete matches `UnlikePost`, leaves the posts alone, keeps ids unique and keeps at most one like per post and user |
| PlacesRoutes.CategoryFilter | backend/src/routes/places.js:14-16 | the list is filtered exactly when a non-empty category is given |
| PlacesRoutes.ListPlaces | backend/src/routes/places.js:11-35 | as many places as match, up to 50; all stored ones, each with the requested category when one is given |
| PlacesRoutes.ListHoldsAllMatches | backend/src/routes/places.js:32-35 | with at most 50 matches the list is every match, in natural order |
| PlacesRoutes.UnfilteredListIsCollection | backend/src/routes/places.js:32-35 | without a category, and with at most 50 places, the list is the whole collection |
| PlacesRoutes.FindPlace | backend/src/routes/places.js:50 | the first place with the id, and None exactly when none has it |
| PlacesRoutes.GetPlace | backend/src/routes/places.js:45-61 | 500 exactly for an invalid id, 404 exactly when no place has it, otherwise 200 with that stored place |
| PlacesRoutes.NewPlace | backend/src/routes/places.js:71-83 | description, tags and photos are stored as given, defaulting to "", [] and []; `addedBy` is the caller, and the point is `[lng, lat]` |
| PlacesRoutes.AddPlace | backend/src/routes/places.js:64-95 | 201 with the new id and exactly that record appended; 500 and no change without `geo` or on an id clash |
| PlacesRoutes.AddedPlaceFound | backend/src/routes/places.js:50-56 | a lookup of the id a create returned finds the created place |
| PlacesRoutes.AddPlaceKeepsIdsUnique | backend/src/routes/places.js:85 | creating a place keeps place ids unique |
| PlacesRoutes.ReviewsOf | backend/src/routes/places.js:103-106 | a permutation of the place's reviews (each stored review of it exactly once, no others), newest first |
| PlacesRoutes.ListReviews | backend/src/routes/places.js:98-113 | 500 exactly for an invalid id, otherwise 200 with the place's reviews |
| PlacesRoutes.AddReview | backend/src/routes/places.js:116-143 | 201 exactly for a valid id and a free new id, with one review appended (place from the path, caller as author, photos defaulting to []); otherwise 500 and no change |
| PlacesRoutes.AddedReviewListed | backend/src/routes/places.js:124-133 | an added review is listed for its place, and every other place's reviews are unchanged |
| PlacesRoutes.AddReviewKeepsIdsUnique | backend/src/routes/places.js:133 | adding a review keeps review ids unique |
| PlacesRoutes.PlacesCollections.List | backend/src/routes/places.js:6-42 | the query built field by field gives the list `ListPlaces` specifies |
| PlacesRoutes.PlacesCollections.Get | backend/src/routes/places.js:45-61 | the reply is the one `GetPlace` specifies |
| PlacesRoutes.PlacesCollections.Add | backend/src/routes/places.js:64-95 | the in-place insert matches `AddPlace`, leaves the reviews alone and keeps ids unique |
| PlacesRoutes.PlacesCollections.Reviews | backend/src/routes/places.js:98-113 | the reply is the one `ListReviews` specifies |
| PlacesRoutes.PlacesCollections.AddReviewTo | backend/src/routes/places.js:116-143 | the in-place insert matches `AddReview`, leaves the places alone and keeps ids unique |
| UsersRoutes.FindUser | backend/src/routes/users.js:10 | the first profile with that `clerkId`, and None exactly when there is none |
| UsersRoutes.PetsOf | backend/src/routes/users.js:17-19 | exactly the pets whose `userId` is that `clerkId` |
| UsersRoutes.GetUser | backend/src/routes/users.js:5-26 | 404 exactly when no profile has the `clerkId`, otherwise 200 with that profile and exactly its pets |
| UsersRoutes.SetProfile | backend/src/routes/users.js:39-44 | name, bio, avatarUrl and `updatedAt` are overwritten; id, `clerkId` and `createdAt` are kept |
| UsersRoutes.UpsertProfile | backend/src/routes/users.js:29-58 | an existing profile gets the `$set` fields in place; otherwise exactly one profile is appended with the caller's `clerkId` and both stamps `now`; the reply echoes the caller's id |
| UsersRoutes.UpsertTouchesOnlyCaller | backend/src/routes/users.js:36-51 | every other user's profile is unchanged, at most one profile is added and it is the caller's, and `clerkId`s stay unique |
| UsersRoutes.UpsertThenGet | backend/src/routes/users.js:36-51 | after an upsert the caller's profile is found with the sent fields, `updatedAt == now`, and the `createdAt` of the profile it replaced (or `now` when new) |
| UsersRoutes.UpsertIdempotent | backend/src/routes/users.js:36-51 | repeating the same upsert at the same time changes nothing more |
| UsersRoutes.AddPet | backend/src/routes/users.js:61-87 | 201 with the new id and exactly one pet appended (caller as owner, breed and photoUrl defaulting to ""); otherwise 500 and no change |
| UsersRoutes.AddedPetListed | backend/src/routes/users.js:68-82 | a new pet is listed last among its owner's pets, and everyone else's pets are unchanged |
| UsersRoutes.AddPetKeepsIdsUnique | backend/src/routes/users.js:77 | adding a pet keeps pet ids unique |
| UsersRoutes.UsersCollections.Get | backend/src/routes/users.js:5-26 | the reply is the one `GetUser` specifies |
| UsersRoutes.UsersCollections.UpsertProfileOf | backend/src/routes/users.js:29-58 | the in-place update or insert matches `UpsertProfile`, leaves the pets alone, and keeps ids and `clerkId`s unique |
| UsersRoutes.UsersCollections.AddPetFor | backend/src/routes/users.js:61-87 | the in-place insert matches `AddPet`, leaves the profiles alone and keeps ids unique |

## Left out

- Database connections: connecting, connection caching, and an unreachable database. This covers lib/mongodb.ts, backend/src/db.js, server start-up in backend/src/index.js and the health route; they are I/O. Only the web app's saved-places handlers take the store's availability as the parameter `storeAvailable`. The backend handlers do not model the 500 replies a failing database produces; they model only the 500 replies the handler's own data causes: an id that does not parse, or an id clash on insert.
- The real driver calls `find`, `insertOne`, `findOneAndUpdate`, `deleteOne` and `updateOne` with upsert. They are replaced by the sequence operations in `Seqs`. A collection keeps natural order. A sort keeps records with equal time stamps in natural order, which is one of the orders the database may return.
- The `near` query of GET /places, with `parseFloat` and the 10 km `$near` radius. This is floating-point distance logic that runs inside the database.
- The identity provider, Clerk: `verifySession`, `auth()` and the sign-in widgets. They are the parameters `verify` and `session`.
- `Date` and `toISOString`: time stamps are integers passed in as `now`. Where a handler reads the clock twice (the `$set` and `$setOnInsert` of the profile upsert), the model reads it once.
- `parseInt` of the feed's query strings. `limit` and `skip` are natural numbers or absent. Non-numeric and negative query values are not modelled.
- A request without a body, where the destructuring of `request.body` throws before the handler's `try`. Also a POST /places `geo` that is present but lacks numeric `lng`/`lat`. Only a missing `geo` is modelled, and it gives the 500 the handler's `try` produces.
- A member the request left out is stored as null, since the driver writes an `undefined` property as null. This holds for the profile's `$set` and for every insert: a post's `photoUrl`, a place's `name`/`category`, a review's `text`/`rating`, and a pet's `name`/`species`. The model has None for that null.
- JSON types in the backend bodies. Each member is typed as the model expects it: `Option<string>`, `Option<seq<string>>`, `Option<int>`, or a pair of reals for `geo`. So the model cannot express the source's truthiness on other JSON values:
  - `caption || ''` with `0` or `false` (backend/src/routes/feed.js:37)
  - `description || ''` and `tags || []`/`photos || []` with `""`, `0` or `false` (backend/src/routes/places.js:74-80)
  - `breed || ''` and `photoUrl || ''` with other falsy values (backend/src/routes/users.js:72-73)
  - a numeric `placeId`, which `new ObjectId(n)` accepts (backend/src/routes/feed.js:35)
  - a fractional `rating` (backend/src/routes/places.js:128)
- Concurrency: the check-then-insert race of two simultaneous likes, and React state updates that interleave with other requests. Every handler runs on its own, one after another.
- The page's initial load, its loading flag, rendering, the `fetch` calls themselves and the mobile client. The page handlers receive the outcome of their request as a parameter.
- app/api/my-places/[id]/route.ts is not part of this model. The page's toggle and remove model only what the page does with the response.
- JSON values beyond what the POST check inspects: numbers other than 0, and objects with prototype properties.
- ObjectIds.Parse: accepts only 24-digit hexadecimal strings. Twelve-character strings, which some driver versions accept as raw bytes, are treated as invalid.
- PlacesRoutes.ListPlaces: its contract states the length (the number of matches, capped at 50), that each place is stored, and that each place matches the category. That the list is the first 50 matches in natural order is stated only when there are at most 50 matches (`ListHoldsAllMatches`).
- FeedRoutes.GetFeed: its own contract gives order, membership and size bounds. The exact size is stated by `FeedSize`, and the exact page by `FeedIsPage`.
