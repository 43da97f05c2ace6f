/** The `protect` middleware: find a token in the `Authorization` header or
    the `token` cookie, verify it, load the user it names, and either pass the
    request on with that user (without the password) or answer 401.

    Token verification and the user lookup are parameters: `verify` gives the
    decoded payload or `Rejected` when `jwt.verify` throws; the store is the
    users collection or `Unreachable` when the query throws. */
module Auth {
  import opened Wrappers
  import opened Text
  import opened Calendar
  import opened Mongoose
  import opened UserModel

  const NoToken: string := "Not authorized, no token provided"
  const NoSuchUser: string := "Not authorized, user for this token does not exist"
  const InvalidToken: string := "Not authorized, invalid token"

  /** The parts of the request `protect` reads; an absent header or cookie is
      `None`. */
  datatype Request = Request(authorization: Option<string>, cookieToken: Option<string>)

  /** The payload `jwt.verify` returns: its `id` claim, possibly absent.
      `Uncastable` is a payload whose `id` claim is present but is not an
      ObjectId, so that `findById` throws a CastError. */
  datatype Decoded = Rejected | Payload(id: Option<ObjectId>) | Uncastable

  datatype UserStore = Reachable(users: seq<User>) | Unreachable

  /** `findById(id).select("-password")`: the user without the password. */
  datatype SafeUser = SafeUser(
    id: ObjectId,
    username: string,
    email: string,
    monthlyBudget: int,
    profilePic: string,
    createdAt: DateTime,
    updatedAt: DateTime)

  function WithoutPassword(u: User): (s: SafeUser)
    ensures s.id == u.id && s.username == u.username && s.email == u.email
    ensures s.monthlyBudget == u.monthlyBudget && s.profilePic == u.profilePic
    ensures s.createdAt == u.createdAt && s.updatedAt == u.updatedAt
  {
    SafeUser(u.id, u.username, u.email, u.monthlyBudget, u.profilePic, u.createdAt, u.updatedAt)
  }

  /** What `protect` does: call `next` once with `req.user` set, or answer 401
      with a message and never call `next`. */
  datatype Outcome = Next(user: SafeUser) | Unauthorized(status: int, message: string)

  predicate BearerHeader(req: Request)
  {
    req.authorization.Some? && StartsWith(req.authorization.value, "Bearer")
  }

  /** The `token` variable: the second space-separated field of a header
      starting with "Bearer" (absent when there is none), otherwise a
      non-empty cookie token. */
  function ExtractToken(req: Request): (t: Option<string>)
    ensures BearerHeader(req) ==>
              var fs := Fields(req.authorization.value, ' ');
              t == (if |fs| >= 2 then Some(fs[1]) else None)
    ensures !BearerHeader(req) ==>
              t == (if req.cookieToken.Some? && req.cookieToken.value != "" then req.cookieToken else None)
    ensures t.Some? ==> ' ' !in t.value
                        || (!BearerHeader(req) && t == req.cookieToken)
  {
    if BearerHeader(req) then
      var fs := Fields(req.authorization.value, ' ');
      if |fs| >= 2 then Some(fs[1]) else None
    else if req.cookieToken.Some? && req.cookieToken.value != "" then req.cookieToken
    else None
  }

  /** A header "Bearer <token>" yields the token, whatever the cookie holds. */
  lemma BearerTokenRoundTrip(token: string, cookie: Option<string>)
    requires ' ' !in token
    ensures ExtractToken(Request(Some("Bearer " + token), cookie)) == Some(token)
  {
    var h := "Bearer " + token;
    assert Join(["Bearer", token], ' ') == h;
    FieldsOfJoin(["Bearer", token], ' ');
    assert StartsWith(h, "Bearer");
  }

  /** A bare "Bearer" header shadows the cookie: no token is found. */
  lemma BareBearerShadowsCookie(cookie: Option<string>)
    ensures ExtractToken(Request(Some("Bearer"), cookie)) == None
  {
    FieldsOfJoin(["Bearer"], ' ');
    assert Join(["Bearer"], ' ') == "Bearer";
  }

  /** The decision chain; every exception inside the `try` — from `verify` or
      from the query — ends in the "invalid token" answer. */
  function Protect(req: Request, verify: string -> Decoded, store: UserStore): (r: Outcome)
    ensures r.Unauthorized? ==> r.status == 401
    ensures (ExtractToken(req).None? || ExtractToken(req).value == "") ==> r == Unauthorized(401, NoToken)
    ensures r.Next? <==> && ExtractToken(req).Some? && ExtractToken(req).value != ""
                         && verify(ExtractToken(req).value).Payload?
                         && verify(ExtractToken(req).value).id.Some?
                         && store.Reachable?
                         && FindUserById(store.users, verify(ExtractToken(req).value).id.value).Some?
    ensures r.Next? ==> r.user == WithoutPassword(
              FindUserById(store.users, verify(ExtractToken(req).value).id.value).value)
    ensures r.Unauthorized? && r.message == NoSuchUser ==>
              && ExtractToken(req).Some? && verify(ExtractToken(req).value).Payload? && store.Reachable?
    ensures r.Unauthorized? ==> r.message in {NoToken, NoSuchUser, InvalidToken}
    ensures ExtractToken(req).Some? && ExtractToken(req).value != "" ==>
              var d := verify(ExtractToken(req).value);
              && (d.Rejected? || d.Uncastable? ==> r == Unauthorized(401, InvalidToken))
              && (d.Payload? && store.Unreachable? ==> r == Unauthorized(401, InvalidToken))
              && (d.Payload? && store.Reachable? && (d.id.None? || FindUserById(store.users, d.id.value).None?) ==>
                    r == Unauthorized(401, NoSuchUser))
  {
    match ExtractToken(req)
    case None => Unauthorized(401, NoToken)
    case Some(token) =>
      if token == "" then Unauthorized(401, NoToken)
      else
        match verify(token)
        case Rejected => Unauthorized(401, InvalidToken)
        case Uncastable => Unauthorized(401, InvalidToken)
        case Payload(id) =>
          match store
          case Unreachable => Unauthorized(401, InvalidToken)
          case Reachable(users) =>
            // `findById(undefined)` finds nothing
            var found := if id.None? then None else FindUserById(users, id.value);
            match found
            case None => Unauthorized(401, NoSuchUser)
            case Some(u) => Next(WithoutPassword(u))
  }

  /** The cookie is consulted only when the header does not start with
      "Bearer": with such a header the outcome does not depend on it. */
  lemma BearerHeaderIgnoresCookie(header: string, c1: Option<string>, c2: Option<string>,
                                  verify: string -> Decoded, store: UserStore)
    requires StartsWith(header, "Bearer")
    ensures Protect(Request(Some(header), c1), verify, store)
         == Protect(Request(Some(header), c2), verify, store)
  {
  }

  /** Without an Authorization header, a valid cookie token for an existing
      user passes. */
  lemma CookieTokenPasses(cookie: string, verify: string -> Decoded, users: seq<User>, id: ObjectId)
    requires cookie != "" && verify(cookie) == Payload(Some(id))
    requires FindUserById(users, id).Some?
    ensures Protect(Request(None, Some(cookie)), verify, Reachable(users))
         == Next(WithoutPassword(FindUserById(users, id).value))
  {
  }
}
