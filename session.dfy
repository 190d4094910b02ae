/**
  The `checkSessionIdExists` pre-handler: it resolves the `sessionId`
  cookie to a row of `users`, or stops the request with one of two 401
  replies.
 */
module Session {
  import opened Wrappers
  import opened Tables
  import opened Http

  datatype AuthError = MissingSession | UnknownUser

  /** A cookie that is absent or empty counts as no session (`!sessionId`). */
  predicate HasSessionToken(cookie: Option<string>)
  {
    cookie.Some? && cookie.value != ""
  }

  /** The guard's three-way decision. */
  function ResolveSession(users: seq<User>, cookie: Option<string>): (r: Result<User, AuthError>)
    ensures r == Failure(MissingSession) <==> !HasSessionToken(cookie)
    ensures r == Failure(UnknownUser) <==>
              HasSessionToken(cookie) && forall i :: 0 <= i < |users| ==> users[i].sessionId != cookie.value
    ensures r.Success? ==> HasSessionToken(cookie) && r.value in users && r.value.sessionId == cookie.value
  {
    if !HasSessionToken(cookie) then Failure(MissingSession)
    else match FirstBySession(users, cookie.value)
      case None => Failure(UnknownUser)
      case Some(u) => Success(u)
  }

  /** The 401 reply each failure sends. */
  function AuthReply(e: AuthError): (r: Response)
    ensures StatusCode(r) == 401
    ensures ErrorMessage(r) == Some(if e == MissingSession then "Unauthorized Session" else "Unauthorized User")
  {
    match e
    case MissingSession => UnauthorizedSession
    case UnknownUser => UnauthorizedUser
  }

  /** The two failures are told apart by their reply. */
  lemma AuthRepliesDistinct()
    ensures AuthReply(MissingSession) != AuthReply(UnknownUser)
    ensures ErrorMessage(AuthReply(MissingSession)) != ErrorMessage(AuthReply(UnknownUser))
  {
  }

  /** Without a token the decision does not depend on the users table at
      all: the guard rejects before any lookup. */
  lemma MissingSessionNeedsNoLookup(users1: seq<User>, users2: seq<User>, cookie: Option<string>)
    requires !HasSessionToken(cookie)
    ensures ResolveSession(users1, cookie) == ResolveSession(users2, cookie) == Failure(MissingSession)
  {
  }

  /** `checkSessionIdExists(request, reply)`. `reply == None` means the guard
      sent nothing and the route handler runs. Only `request.user` may
      change; the users table is only read. */
  method CheckSessionIdExists(db: Database, req: Request) returns (reply: Option<Response>)
    requires db.Valid()
    modifies req
    ensures reply.Some? <==> ResolveSession(db.users, req.sessionCookie).Failure?
    ensures reply.Some? ==> reply.value == AuthReply(ResolveSession(db.users, req.sessionCookie).error)
                            && req.user == old(req.user)
    ensures reply.None? ==> req.user == Some(ResolveSession(db.users, req.sessionCookie).value)
                            && req.user.value.sessionId == req.sessionCookie.value
    ensures reply.None? ==> forall i :: 0 <= i < |db.users| && db.users[i].sessionId == req.sessionCookie.value ==>
                              req.user == Some(db.users[i])
    ensures db.users == old(db.users) && db.meals == old(db.meals)
  {
    var sessionId := req.sessionCookie;
    if !HasSessionToken(sessionId) {
      return Some(UnauthorizedSession);
    }
    var user := FirstBySession(db.users, sessionId.value);
    if user.None? {
      return Some(UnauthorizedUser);
    }
    req.user := user;
    reply := None;
    forall i | 0 <= i < |db.users| && db.users[i].sessionId == sessionId.value
      ensures req.user == Some(db.users[i])
    {
      FirstBySessionUnique(db.users, i);
    }
  }
}
