/** The user handlers of the backend (backend/src/routes/users.js) over the
    `users` and `pets` collections: a profile with its pets, the profile
    upsert (fields set on every call, fields set only when the record is
    created), and adding a pet. The caller is the `clerkId` the bearer guard
    attached; the clock and the identifier the store generates on insert are
    parameters. */
module UsersRoutes {
  import opened Wrappers
  import ObjectIds
  import Seqs

  type ObjectId = ObjectIds.ObjectId
  type Timestamp = int

  /** A stored profile. A field the request left out is stored as null (None). */
  datatype User = User(id: ObjectId, clerkId: string, name: Option<string>, bio: Option<string>,
                       avatarUrl: Option<string>, createdAt: Timestamp, updatedAt: Timestamp)

  datatype Pet = Pet(id: ObjectId, userId: string, name: Option<string>, species: Option<string>,
                     breed: string, photoUrl: string, createdAt: Timestamp)

  /** The fields of a POST /users/profile body; each may be missing. */
  datatype ProfileInput = ProfileInput(name: Option<string>, bio: Option<string>, avatarUrl: Option<string>)

  /** The fields of a POST /users/pets body; each may be missing. */
  datatype PetInput = PetInput(name: Option<string>, species: Option<string>, breed: Option<string>, photoUrl: Option<string>)

  datatype Body =
    | UserWithPets(user: User, pets: seq<Pet>)
    | ProfileSaved(userId: string)
    | PetCreated(petId: ObjectId)
    | Error(message: string)

  datatype Response = Response(status: nat, body: Body)

  const UserNotFound := "User not found"
  const UpdateProfileFailed := "Failed to update profile"
  const AddPetFailed := "Failed to add pet"

  predicate UserIdsUnique(users: seq<User>) {
    forall i, j :: 0 <= i < j < |users| ==> users[i].id != users[j].id
  }

  predicate PetIdsUnique(pets: seq<Pet>) {
    forall i, j :: 0 <= i < j < |pets| ==> pets[i].id != pets[j].id
  }

  /** No two profiles share a `clerkId`. */
  predicate ClerkIdsUnique(users: seq<User>) {
    forall i, j :: 0 <= i < j < |users| ==> users[i].clerkId != users[j].clerkId
  }

  predicate HasUserId(users: seq<User>, id: ObjectId) {
    exists i :: 0 <= i < |users| && users[i].id == id
  }

  predicate HasPetId(pets: seq<Pet>, id: ObjectId) {
    exists i :: 0 <= i < |pets| && pets[i].id == id
  }

  /** The position of the profile with that `clerkId`, as `findOne` finds it. */
  function FindUser(users: seq<User>, clerkId: string): (r: Option<nat>)
    ensures r.Some? ==> r.value < |users| && users[r.value].clerkId == clerkId
    ensures r.Some? ==> forall j :: 0 <= j < r.value ==> users[j].clerkId != clerkId
    ensures r.None? <==> forall j :: 0 <= j < |users| ==> users[j].clerkId != clerkId
  {
    Seqs.FirstIndex(users, (u: User) => u.clerkId == clerkId)
  }

  /** The pets owned by a user, in natural order. */
  function PetsOf(pets: seq<Pet>, clerkId: string): (r: seq<Pet>)
    ensures forall i :: 0 <= i < |r| ==> r[i].userId == clerkId
    ensures forall p :: p in r <==> p in pets && p.userId == clerkId
  {
    Seqs.Filter(pets, (p: Pet) => p.userId == clerkId)
  }

  /** GET /users/:clerkId: 404 without a profile, else the profile with its pets. */
  function GetUser(users: seq<User>, pets: seq<Pet>, clerkId: string): (r: Response)
    ensures r.status in {200, 404}
    ensures r.status == 404 <==> FindUser(users, clerkId).None?
    ensures r.status == 404 ==> r.body == Error(UserNotFound)
    ensures r.status == 200 ==>
      r.body.UserWithPets? && r.body.user in users && r.body.user.clerkId == clerkId
      && r.body.pets == PetsOf(pets, clerkId)
  {
    match FindUser(users, clerkId)
    case None => Response(404, Error(UserNotFound))
    case Some(k) => Response(200, UserWithPets(users[k], PetsOf(pets, clerkId)))
  }

  datatype UserStep = UserStep(users: seq<User>, response: Response)

  /** The `$set` part of the upsert applied to an existing profile. */
  function SetProfile(u: User, input: ProfileInput, now: Timestamp): (v: User)
    ensures v.name == input.name && v.bio == input.bio && v.avatarUrl == input.avatarUrl && v.updatedAt == now
    ensures v.id == u.id && v.clerkId == u.clerkId && v.createdAt == u.createdAt
  {
    u.(name := input.name, bio := input.bio, avatarUrl := input.avatarUrl, updatedAt := now)
  }

  /** POST /users/profile: the caller's profile gets the `$set` fields; when
      there is none, one is created with the caller's `clerkId` as well. Both
      time stamps read the one clock value `now`. */
  function UpsertProfile(users: seq<User>, caller: string, input: ProfileInput, now: Timestamp, newId: ObjectId): (s: UserStep)
    ensures s.response == Response(200, ProfileSaved(caller)) || s.response == Response(500, Error(UpdateProfileFailed))
    ensures s.response.status == 500 ==> s.users == users
    ensures s.response.status == 500 <==> FindUser(users, caller).None? && HasUserId(users, newId)
    ensures FindUser(users, caller).Some? ==>
      var k := FindUser(users, caller).value;
      s.users == users[k := SetProfile(users[k], input, now)]
    ensures FindUser(users, caller).None? && s.response.status == 200 ==>
      s.users == users + [User(newId, caller, input.name, input.bio, input.avatarUrl, now, now)]
  {
    match FindUser(users, caller)
    case Some(k) => UserStep(users[k := SetProfile(users[k], input, now)], Response(200, ProfileSaved(caller)))
    case None =>
      if HasUserId(users, newId) then UserStep(users, Response(500, Error(UpdateProfileFailed)))
      else UserStep(users + [User(newId, caller, input.name, input.bio, input.avatarUrl, now, now)],
                    Response(200, ProfileSaved(caller)))
  }

  /** The upsert leaves every other user's profile as it was, and keeps
      `clerkId`s unique. */
  lemma {:induction false} UpsertTouchesOnlyCaller(users: seq<User>, caller: string, input: ProfileInput, now: Timestamp, newId: ObjectId)
    requires ClerkIdsUnique(users)
    ensures var s := UpsertProfile(users, caller, input, now, newId);
      && ClerkIdsUnique(s.users)
      && |users| <= |s.users| <= |users| + 1
      && (forall i :: 0 <= i < |users| && users[i].clerkId != caller ==> s.users[i] == users[i])
      && (forall i :: |users| <= i < |s.users| ==> s.users[i].clerkId == caller)
  {
    var s := UpsertProfile(users, caller, input, now, newId);
    forall i, j | 0 <= i < j < |s.users| ensures s.users[i].clerkId != s.users[j].clerkId {
      if j < |users| {
        assert s.users[i].clerkId == users[i].clerkId && s.users[j].clerkId == users[j].clerkId;
      } else {
        assert FindUser(users, caller).None?;
        assert s.users[i] == users[i];
      }
    }
  }

  /** After an upsert the caller's profile can be fetched, holds the fields
      sent, and keeps the creation time of the profile it replaced. */
  lemma {:induction false} UpsertThenGet(users: seq<User>, pets: seq<Pet>, caller: string, input: ProfileInput,
                                         now: Timestamp, newId: ObjectId)
    requires UpsertProfile(users, caller, input, now, newId).response.status == 200
    ensures var r := GetUser(UpsertProfile(users, caller, input, now, newId).users, pets, caller);
      && r.status == 200
      && r.body.user.name == input.name && r.body.user.bio == input.bio
      && r.body.user.avatarUrl == input.avatarUrl && r.body.user.updatedAt == now
      && r.body.user.createdAt == (match FindUser(users, caller)
                                   case Some(k) => users[k].createdAt
                                   case None => now)
  {
    var s := UpsertProfile(users, caller, input, now, newId);
    match FindUser(users, caller)
    case Some(k) =>
      FirstUserAt(s.users, caller, k);
    case None =>
      FirstUserAt(s.users, caller, |users|);
  }

  /** Repeating the same upsert at the same time changes nothing more. */
  lemma {:induction false} UpsertIdempotent(users: seq<User>, caller: string, input: ProfileInput, now: Timestamp,
                                            newId: ObjectId, otherId: ObjectId)
    requires UpsertProfile(users, caller, input, now, newId).response.status == 200
    ensures var once := UpsertProfile(users, caller, input, now, newId).users;
      UpsertProfile(once, caller, input, now, otherId).users == once
  {
    var once := UpsertProfile(users, caller, input, now, newId).users;
    match FindUser(users, caller)
    case Some(k) =>
      FirstUserAt(once, caller, k);
      assert once[k] == SetProfile(users[k], input, now);
    case None =>
      FirstUserAt(once, caller, |users|);
  }

  lemma FirstUserAt(users: seq<User>, clerkId: string, k: nat)
    requires k < |users| && users[k].clerkId == clerkId
    requires forall j :: 0 <= j < k ==> users[j].clerkId != clerkId
    ensures FindUser(users, clerkId) == Some(k)
  {
  }

  datatype PetStep = PetStep(pets: seq<Pet>, response: Response)

  /** POST /users/pets: 201 with one pet added for the caller, `breed` and
      `photoUrl` defaulting to "". */
  function AddPet(pets: seq<Pet>, caller: string, input: PetInput, now: Timestamp, newId: ObjectId): (s: PetStep)
    ensures s.response.status in {201, 500}
    ensures s.response.status == 500 ==> s.pets == pets && s.response.body == Error(AddPetFailed)
    ensures s.response.status == 201 <==> !HasPetId(pets, newId)
    ensures s.response.status == 201 ==>
      && s.response.body == PetCreated(newId)
      && |s.pets| == |pets| + 1 && s.pets[..|pets|] == pets
      && var p := s.pets[|pets|];
      && p.id == newId && p.userId == caller && p.name == input.name && p.species == input.species
      && p.breed == input.breed.GetOr("") && p.photoUrl == input.photoUrl.GetOr("") && p.createdAt == now
  {
    if HasPetId(pets, newId) then PetStep(pets, Response(500, Error(AddPetFailed)))
    else
      var pet := Pet(newId, caller, input.name, input.species, input.breed.GetOr(""), input.photoUrl.GetOr(""), now);
      assert (pets + [pet])[..|pets|] == pets;
      PetStep(pets + [pet], Response(201, PetCreated(newId)))
  }

  /** A new pet is listed last among its owner's pets; everyone else's pets
      are as before. */
  lemma {:induction false} AddedPetListed(pets: seq<Pet>, caller: string, input: PetInput, now: Timestamp,
                                          newId: ObjectId, other: string)
    requires AddPet(pets, caller, input, now, newId).response.status == 201
    ensures var s := AddPet(pets, caller, input, now, newId);
      && PetsOf(s.pets, caller) == PetsOf(pets, caller) + [s.pets[|pets|]]
      && (other != caller ==> PetsOf(s.pets, other) == PetsOf(pets, other))
  {
    var s := AddPet(pets, caller, input, now, newId);
    var added := s.pets[|pets|];
    assert s.pets == pets + [added];
    Seqs.FilterConcat(pets, [added], (p: Pet) => p.userId == caller);
    Seqs.FilterConcat(pets, [added], (p: Pet) => p.userId == other);
    assert Seqs.Filter([added], (p: Pet) => p.userId == caller) == [added];
  }

  lemma {:induction false} AddPetKeepsIdsUnique(pets: seq<Pet>, caller: string, input: PetInput, now: Timestamp, newId: ObjectId)
    requires PetIdsUnique(pets)
    ensures PetIdsUnique(AddPet(pets, caller, input, now, newId).pets)
  {
    var s := AddPet(pets, caller, input, now, newId);
    if s.response.status == 201 {
      forall i, j | 0 <= i < j < |s.pets| ensures s.pets[i].id != s.pets[j].id {
        assert s.pets[i] == pets[i];
        if j < |pets| { assert s.pets[j] == pets[j]; }
      }
    }
  }

  /** The user and pet collections. */
  class UsersCollections {
    var users: seq<User>
    var pets: seq<Pet>

    ghost predicate Valid()
      reads this
    {
      UserIdsUnique(users) && PetIdsUnique(pets) && ClerkIdsUnique(users)
    }

    constructor ()
      ensures Valid() && users == [] && pets == []
    {
      users := [];
      pets := [];
    }

    method Get(clerkId: string) returns (response: Response)
      ensures response == GetUser(users, pets, clerkId)
    {
      var k := FindUser(users, clerkId);
      if k.None? {
        return Response(404, Error(UserNotFound));
      }
      response := Response(200, UserWithPets(users[k.value], PetsOf(pets, clerkId)));
    }

    /** The upsert: update the caller's profile in place, or insert a new one. */
    method UpsertProfileOf(caller: string, input: ProfileInput, now: Timestamp, newId: ObjectId) returns (response: Response)
      requires Valid()
      modifies this
      ensures Valid() && pets == old(pets)
      ensures UserStep(users, response) == UpsertProfile(old(users), caller, input, now, newId)
    {
      UpsertTouchesOnlyCaller(users, caller, input, now, newId);
      ghost var before := users;
      var k := FindUser(users, caller);
      if k.Some? {
        users := users[k.value := SetProfile(users[k.value], input, now)];
        forall i, j | 0 <= i < j < |users| ensures users[i].id != users[j].id {
          assert users[i].id == before[i].id && users[j].id == before[j].id;
        }
      } else {
        if HasUserId(users, newId) {
          return Response(500, Error(UpdateProfileFailed));
        }
        users := users + [User(newId, caller, input.name, input.bio, input.avatarUrl, now, now)];
        forall i, j | 0 <= i < j < |users| ensures users[i].id != users[j].id {
          assert users[i] == before[i];
          if j < |before| { assert users[j] == before[j]; }
        }
      }
      response := Response(200, ProfileSaved(caller));
    }

    method AddPetFor(caller: string, input: PetInput, now: Timestamp, newId: ObjectId) returns (response: Response)
      requires Valid()
      modifies this
      ensures Valid() && users == old(users)
      ensures PetStep(pets, response) == AddPet(old(pets), caller, input, now, newId)
    {
      AddPetKeepsIdsUnique(pets, caller, input, now, newId);
      if HasPetId(pets, newId) {
        return Response(500, Error(AddPetFailed));
      }
      pets := pets + [Pet(newId, caller, input.name, input.species, input.breed.GetOr(""), input.photoUrl.GetOr(""), now)];
      response := Response(201, PetCreated(newId));
    }
  }
}
