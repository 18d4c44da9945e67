/** The saved-places HTTP handlers of app/api/my-places/route.ts: the sign-in
    gate, the check of the POST payload, and the mapping of what the store does
    to a status code. Each handler is a function of the signed-in user (as the
    identity provider reports it), the request, and the collection; the ones
    that write also return the collection they leave behind. Whether the store
    can be reached at all is the parameter `storeAvailable`. */
module MyPlacesApi {
  import opened Wrappers
  import Text
  import Store = MyPlacesStore

  /** A parsed JSON body. Numbers are kept as integers: only whether they are 0 matters here. */
  datatype JsonValue =
    | JNull
    | JBool(b: bool)
    | JNumber(n: int)
    | JString(s: string)
    | JArray(items: seq<JsonValue>)
    | JObject(fields: map<string, JsonValue>)

  /** What `request.json()` yields: a value, or a throw on malformed text. */
  datatype RequestBody = Unparsable | Parsed(value: JsonValue)

  datatype ApiBody =
    | ErrorMessage(message: string)
    | PlaceList(places: seq<Store.PlaceDto>)
    | PlaceData(place: Store.PlaceDto)

  datatype Response = Response(status: nat, body: ApiBody)

  /** A response together with the collection the handler leaves behind. */
  datatype Handled = Handled(response: Response, docs: seq<Store.PlaceDocument>)

  const SignInRequired := "You must be signed in to manage saved places"
  const FetchFailed := "Unable to fetch saved places"
  const NameRequired := "Place name is required"
  const SaveFailed := "Unable to save place"

  /** `requireUser`: the signed-in user's id, or the 401 response when there is none. */
  function RequireUser(session: Option<string>): (r: Result<string, Response>)
    ensures r.Success? <==> session.Some? && session.value != ""
    ensures r.Success? ==> r.value == session.value
    ensures r.Failure? ==> r.error == Response(401, ErrorMessage(SignInRequired))
  {
    if session.None? || session.value == "" then Failure(Response(401, ErrorMessage(SignInRequired)))
    else Success(session.value)
  }

  /** JavaScript falsiness of a JSON value: null, false, 0 and "". */
  predicate IsFalsy(v: JsonValue)
    ensures v.JNull? ==> IsFalsy(v)
    ensures v.JBool? ==> (IsFalsy(v) <==> !v.b)
    ensures IsFalsy(v) ==> !v.JObject? && !v.JArray?
    ensures v.JString? ==> (IsFalsy(v) <==> v.s == "")
    ensures v.JNumber? ==> (IsFalsy(v) <==> v.n == 0)
  {
    v.JNull? || v == JBool(false) || v == JNumber(0) || v == JString("")
  }

  /** `typeof v[key] === "string" ? v[key] : undefined`. */
  function StringMember(v: JsonValue, key: string): (r: Option<string>)
    ensures r.Some? <==> v.JObject? && key in v.fields && v.fields[key].JString?
    ensures r.Some? ==> v.fields[key] == JString(r.value)
  {
    if v.JObject? && key in v.fields && v.fields[key].JString? then Some(v.fields[key].s) else None
  }

  /** The payload passes the 400 check: truthy, with a string `name` that is not blank. */
  predicate HasPlaceName(payload: JsonValue)
    ensures HasPlaceName(payload) <==>
      payload.JObject? && "name" in payload.fields && payload.fields["name"].JString?
      && Text.Trim(payload.fields["name"].s) != ""
  {
    !IsFalsy(payload) && StringMember(payload, "name").Some?
    && Text.Trim(StringMember(payload, "name").value) != ""
  }

  /** What POST hands to `createPlace`: `notes` and `tags` only when they are strings. */
  function PayloadInput(payload: JsonValue): (input: Store.PlaceInput)
    requires HasPlaceName(payload)
    ensures input.name == StringMember(payload, "name").value
    ensures input.notes.Some? <==> "notes" in payload.fields && payload.fields["notes"].JString?
    ensures input.tags.Some? <==> "tags" in payload.fields && payload.fields["tags"].JString?
    ensures input.notes.Some? ==> payload.fields["notes"] == JString(input.notes.value)
    ensures input.tags.Some? ==> payload.fields["tags"] == JString(input.tags.value)
  {
    Store.PlaceInput(
      StringMember(payload, "name").value,
      StringMember(payload, "notes"),
      StringMember(payload, "tags"))
  }

  /** GET: 401 without a user; otherwise the user's list, or 500 when the store throws. */
  function Get(session: Option<string>, storeAvailable: bool, docs: seq<Store.PlaceDocument>): (r: Response)
    ensures RequireUser(session).Failure? ==> r == RequireUser(session).error
    ensures RequireUser(session).Success? && !storeAvailable ==> r == Response(500, ErrorMessage(FetchFailed))
    ensures RequireUser(session).Success? && storeAvailable ==>
      r == Response(200, PlaceList(Store.ListPlaces(docs, session.value)))
  {
    match RequireUser(session)
    case Failure(response) => response
    case Success(userId) =>
      if !storeAvailable then Response(500, ErrorMessage(FetchFailed))
      else Response(200, PlaceList(Store.ListPlaces(docs, userId)))
  }

  /** POST: 401 without a user, 500 when the body does not parse or the store
      throws, 400 for a missing or blank name, and otherwise 201 with the created DTO. */
  function Post(session: Option<string>, body: RequestBody, storeAvailable: bool,
                docs: seq<Store.PlaceDocument>, now: Store.Timestamp, newId: Store.ObjectId): (h: Handled)
    ensures h.response.status in {201, 400, 401, 500}
    ensures h.response.status != 201 ==> h.docs == docs
    ensures RequireUser(session).Failure? ==> h.response == RequireUser(session).error
    ensures RequireUser(session).Success? && body.Unparsable? ==> h.response == Response(500, ErrorMessage(SaveFailed))
    ensures RequireUser(session).Success? && body.Parsed? && !HasPlaceName(body.value) ==>
      h.response == Response(400, ErrorMessage(NameRequired))
    ensures h.response.status == 201 <==>
      RequireUser(session).Success? && body.Parsed? && HasPlaceName(body.value)
      && storeAvailable && !Store.HasId(docs, newId)
    ensures RequireUser(session).Success? && body.Parsed? && HasPlaceName(body.value) && h.response.status != 201 ==>
      h.response == Response(500, ErrorMessage(SaveFailed))
    ensures h.response.status == 201 ==>
      var s := Store.CreatePlace(docs, session.value, PayloadInput(body.value), now, newId);
      h == Handled(Response(201, PlaceData(s.outcome.value)), s.docs)
  {
    match RequireUser(session)
    case Failure(response) => Handled(response, docs)
    case Success(userId) =>
      match body
      case Unparsable => Handled(Response(500, ErrorMessage(SaveFailed)), docs)
      case Parsed(payload) =>
        if !HasPlaceName(payload) then Handled(Response(400, ErrorMessage(NameRequired)), docs)
        else if !storeAvailable then Handled(Response(500, ErrorMessage(SaveFailed)), docs)
        else
          var s := Store.CreatePlace(docs, userId, PayloadInput(payload), now, newId);
          match s.outcome
          case Success(place) => Handled(Response(201, PlaceData(place)), s.docs)
          case Failure(_) => Handled(Response(500, ErrorMessage(SaveFailed)), docs)
  }

  /** A created place, seen end to end: owned by the caller, named as sent,
      `notes`/`tags` trimmed when they were strings and "" otherwise, not
      visited, and stamped once. */
  lemma PostStoresPayload(session: Option<string>, body: RequestBody, storeAvailable: bool,
                          docs: seq<Store.PlaceDocument>, now: Store.Timestamp, newId: Store.ObjectId)
    requires Post(session, body, storeAvailable, docs, now, newId).response.status == 201
    ensures var h := Post(session, body, storeAvailable, docs, now, newId);
      && |h.docs| == |docs| + 1 && h.docs[..|docs|] == docs
      && var d := h.docs[|docs|];
      && d.userId == session.value && d.id == newId
      && d.name == StringMember(body.value, "name").value
      && d.notes == (match StringMember(body.value, "notes")
                     case Some(n) => Text.Trim(n)
                     case None => "")
      && d.tags == (match StringMember(body.value, "tags")
                    case Some(t) => Text.Trim(t)
                    case None => "")
      && !d.visited && d.createdAt == d.updatedAt == now
      && h.response.body == PlaceData(Store.Normalize(d))
  {
  }
}
