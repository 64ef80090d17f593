/** How a router picks the route for a request and runs the route's
    middleware chain before its handler. A route is declared with a verb, a
    path pattern of literal and `:param` segments, the middleware it runs and
    the handler it ends in; the router serves a request with the first
    declared route whose verb and pattern match. The middleware are the
    three of middleware/auth.js. */
module Routing {
  import opened Common
  import opened Cursor
  import opened Auth

  datatype Verb = Get | Post | Put | Delete

  datatype Guard = VerifyTokenGuard | IsAdminGuard | IsAuthorOrAdminGuard

  /** A pattern segment: a literal, or a named parameter (`:id`). */
  datatype Segment = Lit(text: string) | Param(name: string)

  datatype Route<H> = Route(verb: Verb, pattern: seq<Segment>, guards: seq<Guard>, handler: H)

  /** The route a request reaches: its chain, its handler and the path
      parameters bound for it. */
  datatype Dispatch<H> = Dispatch(guards: seq<Guard>, handler: H, params: map<string, string>)

  function Lower(c: char): char {
    if 'A' <= c <= 'Z' then (c as int + 32) as char else c
  }

  /** Literal segments match without regard to ASCII case, as a router
      does by default. */
  predicate SameText(a: string, b: string) {
    |a| == |b| && forall k :: 0 <= k < |a| ==> Lower(a[k]) == Lower(b[k])
  }

  /** A parameter matches any non-empty segment. */
  predicate SegmentMatches(p: Segment, s: string) {
    match p
    case Lit(t) => SameText(t, s)
    case Param(_) => s != ""
  }

  function ParamNames(pattern: seq<Segment>): set<string> {
    set k | 0 <= k < |pattern| && pattern[k].Param? :: pattern[k].name
  }

  /** Matches a path, given as its segments, against a pattern, binding
      each parameter to the segment in its place; a name that recurs takes
      the segment of its last occurrence, as the router assigns the
      captures in order. */
  function Bind(pattern: seq<Segment>, path: seq<string>): (r: Option<map<string, string>>)
    ensures r.Some? <==> |pattern| == |path|
                         && forall k :: 0 <= k < |pattern| ==> SegmentMatches(pattern[k], path[k])
    ensures r.Some? ==> r.value.Keys == ParamNames(pattern)
    decreases |pattern|
  {
    if |pattern| != |path| then None
    else if pattern == [] then Some(map[])
    else if !SegmentMatches(pattern[0], path[0]) then None
    else
      match Bind(pattern[1..], path[1..])
      case None =>
        assert !(forall k :: 0 <= k < |pattern| - 1 ==> SegmentMatches(pattern[1..][k], path[1..][k]));
        None
      case Some(m) =>
        ExtendKeys(pattern, path[0], m);
        Some(Extend(pattern[0], path[0], m))
  }

  /** Adds the binding of a leading segment to the bindings of the rest: a
      later occurrence of the same name keeps its own segment. */
  function Extend(p: Segment, s: string, m: map<string, string>): map<string, string> {
    if p.Param? && p.name !in m then m[p.name := s] else m
  }

  /** The bindings of the rest, extended by the leading segment, bind the
      names of the whole pattern. */
  lemma {:induction false} ExtendKeys(pattern: seq<Segment>, s: string, m: map<string, string>)
    requires |pattern| > 0 && m.Keys == ParamNames(pattern[1..])
    ensures Extend(pattern[0], s, m).Keys == ParamNames(pattern)
  {
    assert ParamNames(pattern) == ParamNames(pattern[..1]) + ParamNames(pattern[1..]) by {
      forall n | n in ParamNames(pattern) ensures n in ParamNames(pattern[..1]) + ParamNames(pattern[1..]) {
        var k :| 0 <= k < |pattern| && pattern[k].Param? && pattern[k].name == n;
        if k > 0 {
          assert pattern[1..][k - 1] == pattern[k];
        } else {
          assert pattern[..1][0] == pattern[0];
        }
      }
      forall n | n in ParamNames(pattern[1..]) ensures n in ParamNames(pattern) {
        var k :| 0 <= k < |pattern[1..]| && pattern[1..][k].Param? && pattern[1..][k].name == n;
        assert pattern[k + 1] == pattern[1..][k];
      }
      forall n | n in ParamNames(pattern[..1]) ensures n in ParamNames(pattern) {
        assert pattern[..1][0] == pattern[0];
      }
    }
  }

  /** The bindings of the rest, extended by the leading segment, bind each
      name to the segment of its last occurrence. */
  lemma {:induction false} ExtendValues(pattern: seq<Segment>, path: seq<string>, m: map<string, string>)
    requires |pattern| == |path| > 0
    requires m.Keys == ParamNames(pattern[1..])
    requires forall k :: 0 <= k < |pattern| - 1 && pattern[1..][k].Param?
                         && (forall j :: k < j < |pattern| - 1 ==> pattern[1..][j] != pattern[1..][k]) ==>
                           m[pattern[1..][k].name] == path[1..][k]
    ensures forall k :: 0 <= k < |pattern| && pattern[k].Param?
                        && (forall j :: k < j < |pattern| ==> pattern[j] != pattern[k]) ==>
                          Extend(pattern[0], path[0], m)[pattern[k].name] == path[k]
  {
    var r := Extend(pattern[0], path[0], m);
    forall k | 0 <= k < |pattern| && pattern[k].Param?
               && (forall j :: k < j < |pattern| ==> pattern[j] != pattern[k])
      ensures r[pattern[k].name] == path[k]
    {
      if k == 0 {
        forall j | 0 <= j < |pattern| - 1
          ensures !(pattern[1..][j].Param? && pattern[1..][j].name == pattern[0].name)
        {
          assert pattern[1..][j] == pattern[j + 1];
        }
        assert pattern[0].name !in m;
      } else {
        assert pattern[1..][k - 1] == pattern[k] && path[1..][k - 1] == path[k];
        assert pattern[k].name in m;
        assert forall j :: k - 1 < j < |pattern| - 1 ==> pattern[1..][j] == pattern[j + 1];
      }
    }
  }

  /** A matched path binds each parameter to the segment in the place of
      the name's last occurrence; in a pattern whose names are distinct,
      every parameter to the segment in its own place. */
  lemma {:induction false} BindValues(pattern: seq<Segment>, path: seq<string>)
    requires Bind(pattern, path).Some?
    ensures forall k :: 0 <= k < |pattern| && pattern[k].Param?
                        && (forall j :: k < j < |pattern| ==> pattern[j] != pattern[k]) ==>
                          Bind(pattern, path).value[pattern[k].name] == path[k]
    decreases |pattern|
  {
    if pattern != [] {
      BindValues(pattern[1..], path[1..]);
      ExtendValues(pattern, path, Bind(pattern[1..], path[1..]).value);
    }
  }

  /** The route matches the request. */
  predicate Serves<H>(r: Route<H>, verb: Verb, path: seq<string>) {
    r.verb == verb && Bind(r.pattern, path).Some?
  }

  /** The first declared route that serves the request, or none (the
      request then falls through the router). */
  function Resolve<H>(routes: seq<Route<H>>, verb: Verb, path: seq<string>): (d: Option<Dispatch<H>>)
    ensures d.None? <==> forall k :: 0 <= k < |routes| ==> !Serves(routes[k], verb, path)
    ensures d.Some? ==> exists k :: 0 <= k < |routes| && Serves(routes[k], verb, path)
                          && (forall j :: 0 <= j < k ==> !Serves(routes[j], verb, path))
                          && d.value == Dispatch(routes[k].guards, routes[k].handler,
                                                 Bind(routes[k].pattern, path).value)
  {
    var i := FirstIndex(routes, (r: Route<H>) => Serves(r, verb, path));
    if i < 0 then None
    else Some(Dispatch(routes[i].guards, routes[i].handler, Bind(routes[i].pattern, path).value))
  }

  /** Matching a pattern one segment longer: the first segment must match,
      and a parameter there adds its binding to the rest's. */
  lemma BindCons(p: Segment, pattern: seq<Segment>, s: string, path: seq<string>)
    requires SegmentMatches(p, s)
    ensures Bind([p] + pattern, [s] + path)
            == match Bind(pattern, path)
               case None => None
               case Some(m) => Some(Extend(p, s, m))
  {
    assert ([p] + pattern)[1..] == pattern;
    assert ([s] + path)[1..] == path;
  }

  /** The request is served by route `k` when no earlier route serves it. */
  lemma FirstServing<H>(routes: seq<Route<H>>, verb: Verb, path: seq<string>, k: int)
    requires 0 <= k < |routes| && Serves(routes[k], verb, path)
    requires forall j :: 0 <= j < k ==> !Serves(routes[j], verb, path)
    ensures Resolve(routes, verb, path)
            == Some(Dispatch(routes[k].guards, routes[k].handler, Bind(routes[k].pattern, path).value))
  {
  }

  /** What a middleware chain leaves behind: the user attached to the
      request, and the response sent if a middleware stopped the chain. */
  datatype Gate = Gate(user: Option<User>, sent: Option<Sent>)

  /** Runs the chain on a request with this Authorization header and the
      user already attached; the handler is reached when nothing was sent. */
  function RunGuards(guards: seq<Guard>, header: Option<string>, codec: map<string, Option<string>>,
                     users: map<string, User>, user: Option<User>): (g: Gate)
    ensures g.sent.Some? ==> g.sent.value.code in {401, 403, 404}
    ensures guards == [] ==> g == Gate(user, None)
    decreases |guards|
  {
    if guards == [] then Gate(user, None)
    else
      match guards[0]
      case VerifyTokenGuard =>
        (match Authenticate(header, codec, users)
         case Authenticated(u) => RunGuards(guards[1..], header, codec, users, Some(u))
         case Rejected(code, message) => Gate(if code == 404 then None else user, Some(Sent(code, message))))
      case IsAdminGuard =>
        if IsAdminUser(user) then RunGuards(guards[1..], header, codec, users, user)
        else Gate(user, Some(Sent(403, AdminRequired)))
      case IsAuthorOrAdminGuard =>
        if IsAuthorOrAdminUser(user) then RunGuards(guards[1..], header, codec, users, user)
        else Gate(user, Some(Sent(403, AuthorOrAdminRequired)))
  }

  /** Runs the chain on the request: each middleware in turn, until one
      sends a response. Returns whether the handler is reached. */
  method RunChain(req: Request, guards: seq<Guard>, codec: map<string, Option<string>>, users: map<string, User>)
    returns (reached: bool)
    requires req.sent.None?
    modifies req
    ensures var g := RunGuards(guards, req.authorization, codec, users, old(req.user));
            req.user == g.user && req.sent == g.sent && reached == g.sent.None?
    ensures reached ==> req.nextCalls == old(req.nextCalls) + |guards|
  {
    var i := 0;
    while i < |guards| && req.sent.None?
      invariant 0 <= i <= |guards|
      invariant req.sent.None? ==>
                  RunGuards(guards, req.authorization, codec, users, old(req.user))
                  == RunGuards(guards[i..], req.authorization, codec, users, req.user)
                  && req.nextCalls == old(req.nextCalls) + i
      invariant req.sent.Some? ==>
                  RunGuards(guards, req.authorization, codec, users, old(req.user)) == Gate(req.user, req.sent)
      decreases |guards| - i
    {
      match guards[i] {
        case VerifyTokenGuard => VerifyToken(req, codec, users);
        case IsAdminGuard => IsAdmin(req);
        case IsAuthorOrAdminGuard => IsAuthorOrAdmin(req);
      }
      i := i + 1;
    }
    reached := req.sent.None?;
  }

  /** The chain of an author's write: `verifyToken` then `isAuthorOrAdmin`. */
  const AuthorChain := [VerifyTokenGuard, IsAuthorOrAdminGuard]

  /** The chain of an admin's write: `verifyToken` then `isAdmin`. */
  const AdminChain := [VerifyTokenGuard, IsAdminGuard]

  /** The author chain reaches its handler exactly for a caller the token
      identifies whose role is admin or author, with that user attached; a
      token problem is answered 401 or 404 before any role is looked at, and
      a valid token of another role is answered 403. */
  lemma AuthorChainAdmits(header: Option<string>, codec: map<string, Option<string>>,
                          users: map<string, User>, user: Option<User>)
    ensures var g := RunGuards(AuthorChain, header, codec, users, user);
            var v := Authenticate(header, codec, users);
            && (g.sent.None? <==> v.Authenticated? && IsAuthorOrAdminUser(Some(v.user)))
            && (g.sent.None? ==> g.user == Some(v.user))
            && (v.Rejected? ==> g.sent == Some(Sent(v.code, v.message)))
            && (v.Authenticated? && !IsAuthorOrAdminUser(Some(v.user)) ==>
                  g.sent == Some(Sent(403, AuthorOrAdminRequired)))
  {
    assert AuthorChain[1..] == [IsAuthorOrAdminGuard];
    assert AuthorChain[1..][1..] == [];
  }

  /** The admin chain reaches its handler exactly for an admin the token
      identifies; authors are answered 403 like any other role. */
  lemma AdminChainAdmits(header: Option<string>, codec: map<string, Option<string>>,
                         users: map<string, User>, user: Option<User>)
    ensures var g := RunGuards(AdminChain, header, codec, users, user);
            var v := Authenticate(header, codec, users);
            && (g.sent.None? <==> v.Authenticated? && IsAdminUser(Some(v.user)))
            && (g.sent.None? ==> g.user == Some(v.user))
            && (v.Rejected? ==> g.sent == Some(Sent(v.code, v.message)))
            && (v.Authenticated? && !IsAdminUser(Some(v.user)) ==>
                  g.sent == Some(Sent(403, AdminRequired)))
  {
    assert AdminChain[1..] == [IsAdminGuard];
    assert AdminChain[1..][1..] == [];
  }
}
