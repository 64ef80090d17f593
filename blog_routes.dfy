/** The post router (routes/blogRoutes.js): three public reads, and three
    writes behind `verifyToken` and `isAuthorOrAdmin`. */
module BlogRoutes {
  import opened Common
  import opened Auth
  import opened Routing
  import opened BlogModel
  import opened Blog

  datatype Handler =
    | GetPostsHandler
    | GetPostByIdHandler
    | GetRelatedPostsHandler
    | CreatePostHandler
    | UpdatePostHandler
    | DeletePostHandler

  /** The routes in the order they are declared. */
  const Table: seq<Route<Handler>> := [
    Route(Get, [], [], GetPostsHandler),
    Route(Get, [Param("id")], [], GetPostByIdHandler),
    Route(Get, [Param("id"), Lit("related")], [], GetRelatedPostsHandler),
    Route(Verb.Post, [], AuthorChain, CreatePostHandler),
    Route(Put, [Param("id")], AuthorChain, UpdatePostHandler),
    Route(Delete, [Param("id")], AuthorChain, DeletePostHandler)
  ]

  /** Every read is public: a GET runs no middleware. */
  lemma ReadsArePublic(path: seq<string>)
    ensures Resolve(Table, Get, path).Some? ==> Resolve(Table, Get, path).value.guards == []
  {
  }

  /** Every write runs `verifyToken` then `isAuthorOrAdmin`. */
  lemma WritesNeedAuthor(verb: Verb, path: seq<string>)
    requires verb != Get
    ensures Resolve(Table, verb, path).Some? ==> Resolve(Table, verb, path).value.guards == AuthorChain
  {
  }

  /** `GET /` reaches the listing, with no middleware. */
  lemma ListingRoute()
    ensures Resolve(Table, Get, []) == Some(Dispatch([], GetPostsHandler, map[]))
  {
    FirstServing(Table, Get, [], 0);
  }

  /** `GET /:id` reaches the detail read with that `id`, even when the
      segment is "related". */
  lemma {:induction false} DetailRoute(id: string)
    requires id != ""
    ensures Resolve(Table, Get, [id]) == Some(Dispatch([], GetPostByIdHandler, map["id" := id]))
  {
    BindCons(Param("id"), [], id, []);
    assert [Param("id")] + [] == [Param("id")] && [id] + [] == [id];
    FirstServing(Table, Get, [id], 1);
  }

  /** The related-posts pattern binds the id. */
  lemma {:induction false} BindRelated(id: string, related: string)
    requires id != "" && SameText("related", related)
    ensures Bind([Param("id"), Lit("related")], [id, related]) == Some(map["id" := id])
  {
    BindCons(Lit("related"), [], related, []);
    assert [Lit("related")] + [] == [Lit("related")] && [related] + [] == [related];
    BindCons(Param("id"), [Lit("related")], id, [related]);
    assert [Param("id")] + [Lit("related")] == [Param("id"), Lit("related")];
    assert [id] + [related] == [id, related];
  }

  /** `GET /:id/related` (the literal in any case) reaches the related-posts
      read with that `id`. */
  lemma {:induction false} RelatedRoute(id: string, related: string)
    requires id != "" && SameText("related", related)
    ensures Resolve(Table, Get, [id, related]) == Some(Dispatch([], GetRelatedPostsHandler, map["id" := id]))
  {
    BindRelated(id, related);
    assert Table[2].pattern == [Param("id"), Lit("related")];
    FirstServing(Table, Get, [id, related], 2);
  }

  /** The three writes reach their handlers through the author chain. */
  lemma {:induction false} WriteRoutes(id: string)
    requires id != ""
    ensures Resolve(Table, Verb.Post, []) == Some(Dispatch(AuthorChain, CreatePostHandler, map[]))
    ensures Resolve(Table, Put, [id]) == Some(Dispatch(AuthorChain, UpdatePostHandler, map["id" := id]))
    ensures Resolve(Table, Delete, [id]) == Some(Dispatch(AuthorChain, DeletePostHandler, map["id" := id]))
  {
    BindCons(Param("id"), [], id, []);
    assert [Param("id")] + [] == [Param("id")] && [id] + [] == [id];
    FirstServing(Table, Verb.Post, [], 3);
    FirstServing(Table, Put, [id], 4);
    FirstServing(Table, Delete, [id], 5);
  }

  /** A write to a path of the wrong shape falls through the router. */
  lemma Unrouted(id: string)
    ensures Resolve(Table, Verb.Post, [id]) == None
    ensures Resolve(Table, Put, []) == None && Resolve(Table, Delete, []) == None
  {
  }

  /** The listing route runs no middleware, so its handler never sees a
      caller: whatever the query and whatever token the request carries, it
      lists published posts only. */
  lemma ListingIsPublishedOnly(docs: seq<Post>, q: PostQuery, header: Option<string>,
                               codec: map<string, Option<string>>, users: map<string, User>)
    requires q.page.None? || q.page.value >= 1
    requires q.limit.None? || q.limit.value >= 1
    ensures Resolve(Table, Get, []).Some?
    ensures var g := RunGuards(Resolve(Table, Get, []).value.guards, header, codec, users, None);
            && g == Gate(None, None)
            && var r := GetPosts(docs, g.user, q);
               r.Ok? ==> forall k :: 0 <= k < |r.value.posts| ==> r.value.posts[k].status == Published
  {
    ListingRoute();
    ListingHidesUnpublished(docs, None, q);
  }

  /** A caller whose token is good but whose role is neither admin nor
      author is answered 403 by every write, before its handler runs. */
  lemma ReaderCannotWrite(verb: Verb, path: seq<string>, header: Option<string>,
                          codec: map<string, Option<string>>, users: map<string, User>)
    requires verb != Get && Resolve(Table, verb, path).Some?
    requires Authenticate(header, codec, users).Authenticated?
    requires !IsAuthorOrAdminUser(Some(Authenticate(header, codec, users).user))
    ensures RunGuards(Resolve(Table, verb, path).value.guards, header, codec, users, None).sent
            == Some(Sent(403, AuthorOrAdminRequired))
  {
    WritesNeedAuthor(verb, path);
    AuthorChainAdmits(header, codec, users, None);
  }
}
