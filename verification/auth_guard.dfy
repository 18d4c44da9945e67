/** The bearer-token guard of the backend (backend/src/middleware/auth.js):
    the `Authorization` header must start with "Bearer ", the rest of it is
    handed to the identity provider, and the session it returns is attached
    to the request as `request.user`. The identity provider is the parameter
    `verify`. */
module AuthGuard {
  import opened Wrappers

  const BearerPrefix := "Bearer "

  /** A session as the identity provider returns it. */
  datatype Session = Session(id: string, userId: string)

  /** What `verifySession(token)` does: it resolves to a session or to a falsy
      value, or it throws. */
  datatype Verification = Resolved(session: Option<Session>) | Threw

  /** What the guard attaches to the request. */
  datatype User = User(clerkId: string, sessionId: string)

  /** The reply the guard sends when it stops the request. */
  datatype Reply = Reply(status: nat, error: string)

  const MissingHeader := "Missing or invalid authorization header"
  const InvalidSession := "Invalid session"
  const AuthenticationFailed := "Authentication failed"

  /** The token of a bearer header: the header without its first seven
      characters, when it starts with "Bearer ". */
  function BearerToken(header: Option<string>): (token: Option<string>)
    ensures token.Some? <==> header.Some? && header.value != "" && BearerPrefix <= header.value
    ensures token.Some? ==> header.value == BearerPrefix + token.value
  {
    if header.Some? && BearerPrefix <= header.value then
      assert header.value == header.value[..7] + header.value[7..];
      Some(header.value[7..])
    else None
  }

  /** The prefix check and the extraction are inverse: the header built from
      a token yields that token. */
  lemma {:induction false} BearerRoundTrip(token: string)
    ensures BearerToken(Some(BearerPrefix + token)) == Some(token)
  {
    var header := BearerPrefix + token;
    assert header[..7] == BearerPrefix;
    assert header[7..] == token;
  }

  /** What the guard decides: the token it hands to verification (None when it
      does not call it), and either the user to attach or the 401 reply. */
  datatype Decision = Decision(verified: Option<string>, result: Result<User, Reply>)

  function Authenticate(header: Option<string>, verify: string -> Verification): (d: Decision)
    ensures d.verified == BearerToken(header)
    ensures d.result.Failure? ==> d.result.error.status == 401
    ensures BearerToken(header).None? ==> d.result == Failure(Reply(401, MissingHeader))
    ensures BearerToken(header).Some? && verify(BearerToken(header).value).Threw? ==>
      d.result == Failure(Reply(401, AuthenticationFailed))
    ensures BearerToken(header).Some? && verify(BearerToken(header).value) == Resolved(None) ==>
      d.result == Failure(Reply(401, InvalidSession))
    ensures d.result.Success? <==>
      BearerToken(header).Some? && verify(BearerToken(header).value).Resolved?
      && verify(BearerToken(header).value).session.Some?
    ensures d.result.Success? ==>
      var s := verify(BearerToken(header).value).session.value;
      d.result.value.clerkId == s.userId && d.result.value.sessionId == s.id
  {
    match BearerToken(header)
    case None => Decision(None, Failure(Reply(401, MissingHeader)))
    case Some(token) =>
      match verify(token)
      case Threw => Decision(Some(token), Failure(Reply(401, AuthenticationFailed)))
      case Resolved(None) => Decision(Some(token), Failure(Reply(401, InvalidSession)))
      case Resolved(Some(s)) => Decision(Some(token), Success(User(s.userId, s.id)))
  }

  /** The request as the guard sees it. */
  class Request {
    var authorization: Option<string>
    var user: Option<User>

    constructor (authorization: Option<string>)
      ensures this.authorization == authorization && user == None
    {
      this.authorization := authorization;
      user := None;
    }

    /** `authenticateRequest`: on success `user` is set from the session and no
        reply is sent; otherwise the 401 reply is returned and `user` is left
        as it was. */
    method AuthenticateRequest(verify: string -> Verification) returns (verified: Option<string>, reply: Option<Reply>)
      modifies this
      ensures authorization == old(authorization)
      ensures var d := Authenticate(old(authorization), verify);
        && verified == d.verified
        && (d.result.Failure? ==> reply == Some(d.result.error) && user == old(user))
        && (d.result.Success? ==> reply == None && user == Some(d.result.value))
    {
      var header := authorization;
      if header.None? || !(BearerPrefix <= header.value) {
        return None, Some(Reply(401, MissingHeader));
      }
      var token := header.value[7..];
      verified := Some(token);
      var outcome := verify(token);
      if outcome.Threw? {
        return verified, Some(Reply(401, AuthenticationFailed));
      }
      if outcome.session.None? {
        return verified, Some(Reply(401, InvalidSession));
      }
      var session := outcome.session.value;
      user := Some(User(session.userId, session.id));
      reply := None;
    }
  }
}
