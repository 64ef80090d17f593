/** The authentication middleware and the two role gates
    (middleware/auth.js). The token codec (`jwt.verify` against the process
    secret) and the user store (`User.findById` without the password) are
    parameters: `codec` maps each token that verifies to the `id` claim of its
    payload, if it has one; `users` maps a user id to the user record. */
module Auth {
  import opened Common
  import opened Text

  datatype User = User(id: string, role: string)

  const AdminRole := "admin"
  const AuthorRole := "author"

  const NoToken := "Unauthorized - No token provided"
  const InvalidToken := "Unauthorized - Invalid token"
  const UserNotFound := "User not found"
  const AdminRequired := "Access denied. Admin role required."
  const AuthorOrAdminRequired := "Access denied. Author or Admin role required."

  const BearerPrefix := "Bearer "

  /** What the middleware decides about a request's Authorization header. */
  datatype Verdict = Authenticated(user: User) | Rejected(code: int, message: string)

  predicate StartsWith(s: string, prefix: string) {
    |prefix| <= |s| && s[..|prefix|] == prefix
  }

  /** The token: what follows "Bearer " up to the next space. */
  function BearerToken(header: string): string
    requires StartsWith(header, BearerPrefix)
  {
    Split(header[|BearerPrefix|..], ' ')[0]
  }

  /** The token is the second field of the header split on spaces
      (`authHeader.split(" ")[1]`). */
  lemma {:induction false} BearerTokenIsSecondField(header: string)
    requires StartsWith(header, BearerPrefix)
    ensures |Split(header, ' ')| >= 2
    ensures BearerToken(header) == Split(header, ' ')[1]
  {
    var rest := header[|BearerPrefix|..];
    assert header == "Bearer" + ([' '] + rest) by {
      assert header == header[..|BearerPrefix|] + rest;
    }
    SplitPrefix("Bearer", rest, ' ');
  }

  /** A header "Bearer t" whose t holds no space carries t itself. */
  lemma {:induction false} BearerTokenOfPlainToken(t: string)
    requires ' ' !in t
    ensures StartsWith(BearerPrefix + t, BearerPrefix)
    ensures BearerToken(BearerPrefix + t) == t
  {
    var header := BearerPrefix + t;
    assert header[..|BearerPrefix|] == BearerPrefix;
    assert header[|BearerPrefix|..] == t;
    SplitNoSep(t, ' ');
  }

  /** The decision `verifyToken` takes: no bearer header or a token that
      does not verify gives 401; a payload whose id is not a well-formed id
      makes the user lookup throw, which is also 401; a payload without an id,
      or with the id of no user, gives 404; otherwise the user is attached. */
  function Authenticate(header: Option<string>, codec: map<string, Option<string>>,
                        users: map<string, User>): (v: Verdict)
    ensures (!Truthy(header) || !StartsWith(header.value, BearerPrefix)) ==> v == Rejected(401, NoToken)
    ensures v.Rejected? ==> v.code == 401 || v.code == 404
    ensures v.Rejected? && v.code == 404 ==>
              Truthy(header) && StartsWith(header.value, BearerPrefix)
              && BearerToken(header.value) in codec
    ensures v.Authenticated? <==>
              && Truthy(header) && StartsWith(header.value, BearerPrefix)
              && BearerToken(header.value) in codec
              && codec[BearerToken(header.value)].Some?
              && IsObjectId(codec[BearerToken(header.value)].value)
              && codec[BearerToken(header.value)].value in users
    ensures v.Authenticated? ==> v.user == users[codec[BearerToken(header.value)].value]
    ensures Truthy(header) && StartsWith(header.value, BearerPrefix) ==>
              var t := BearerToken(header.value);
              && (t !in codec ==> v == Rejected(401, InvalidToken))
              && (t in codec && codec[t].None? ==> v == Rejected(404, UserNotFound))
              && (t in codec && codec[t].Some? && !IsObjectId(codec[t].value) ==> v == Rejected(401, InvalidToken))
              && (t in codec && codec[t].Some? && IsObjectId(codec[t].value) && codec[t].value !in users ==>
                    v == Rejected(404, UserNotFound))
  {
    if !Truthy(header) || !StartsWith(header.value, BearerPrefix) then Rejected(401, NoToken)
    else
      var token := BearerToken(header.value);
      if token !in codec then Rejected(401, InvalidToken)
      else match codec[token]
        case None => Rejected(404, UserNotFound)
        case Some(id) =>
          if !IsObjectId(id) then Rejected(401, InvalidToken)
          else if id !in users then Rejected(404, UserNotFound)
          else Authenticated(users[id])
  }

  /** `isAdmin`: a user is attached and its role is "admin". */
  predicate IsAdminUser(user: Option<User>) {
    user.Some? && user.value.role == AdminRole
  }

  /** `isAuthorOrAdmin`: a user is attached and its role is "admin" or
      "author". */
  predicate IsAuthorOrAdminUser(user: Option<User>) {
    user.Some? && (user.value.role == AdminRole || user.value.role == AuthorRole)
  }

  /** Whoever passes the admin gate passes the author-or-admin gate, and the
      author-or-admin gate turns away exactly the users of any other role. */
  lemma AdminGateImpliesAuthorGate(user: Option<User>)
    ensures IsAdminUser(user) ==> IsAuthorOrAdminUser(user)
    ensures user.Some? && user.value.role != AdminRole && user.value.role != AuthorRole ==>
              !IsAuthorOrAdminUser(user)
  {
  }

  /** A response a middleware sent instead of calling `next`. */
  datatype Sent = Sent(code: int, message: string)

  /** The request and response objects as the middleware sees them: the
      header it reads, the `user` it attaches, how often `next` was called,
      and the response it sent, if any. */
  class Request {
    const authorization: Option<string>
    var user: Option<User>
    var nextCalls: nat
    var sent: Option<Sent>

    constructor (authorization: Option<string>)
      ensures this.authorization == authorization
      ensures user == None && nextCalls == 0 && sent == None
    {
      this.authorization := authorization;
      user := None;
      nextCalls := 0;
      sent := None;
    }
  }

  /** `verifyToken`: on success attaches the user and calls `next` once;
      otherwise sends the rejection and does not call `next`. The user lookup
      assigns `user` before its result is tested, so a 404 leaves no user
      attached. */
  method VerifyToken(req: Request, codec: map<string, Option<string>>, users: map<string, User>)
    requires req.sent.None?
    modifies req
    ensures var v := Authenticate(req.authorization, codec, users);
            match v
            case Authenticated(u) =>
              req.user == Some(u) && req.nextCalls == old(req.nextCalls) + 1 && req.sent.None?
            case Rejected(code, message) =>
              && req.sent == Some(Sent(code, message))
              && req.nextCalls == old(req.nextCalls)
              && req.user == (if code == 404 then None else old(req.user))
  {
    var header := req.authorization;
    if !Truthy(header) || !StartsWith(header.value, BearerPrefix) {
      req.sent := Some(Sent(401, NoToken));
      return;
    }
    var token := BearerToken(header.value);
    if token !in codec {
      req.sent := Some(Sent(401, InvalidToken));
      return;
    }
    var claim := codec[token];
    if claim.Some? && !IsObjectId(claim.value) {
      req.sent := Some(Sent(401, InvalidToken));
      return;
    }
    req.user := if claim.Some? && claim.value in users then Some(users[claim.value]) else None;
    if req.user.None? {
      req.sent := Some(Sent(404, UserNotFound));
      return;
    }
    req.nextCalls := req.nextCalls + 1;
  }

  /** `isAdmin`: calls `next` for an admin, otherwise sends 403. */
  method IsAdmin(req: Request)
    requires req.sent.None?
    modifies req`nextCalls, req`sent
    ensures IsAdminUser(req.user) ==> req.nextCalls == old(req.nextCalls) + 1 && req.sent.None?
    ensures !IsAdminUser(req.user) ==>
              req.nextCalls == old(req.nextCalls) && req.sent == Some(Sent(403, AdminRequired))
  {
    if req.user.Some? && req.user.value.role == AdminRole {
      req.nextCalls := req.nextCalls + 1;
    } else {
      req.sent := Some(Sent(403, AdminRequired));
    }
  }

  /** `isAuthorOrAdmin`: calls `next` for an author or an admin, otherwise
      sends 403. */
  method IsAuthorOrAdmin(req: Request)
    requires req.sent.None?
    modifies req`nextCalls, req`sent
    ensures IsAuthorOrAdminUser(req.user) ==> req.nextCalls == old(req.nextCalls) + 1 && req.sent.None?
    ensures !IsAuthorOrAdminUser(req.user) ==>
              req.nextCalls == old(req.nextCalls) && req.sent == Some(Sent(403, AuthorOrAdminRequired))
  {
    if req.user.Some? && (req.user.value.role == AdminRole || req.user.value.role == AuthorRole) {
      req.nextCalls := req.nextCalls + 1;
    } else {
      req.sent := Some(Sent(403, AuthorOrAdminRequired));
    }
  }
}
