/** The category router (routes/categories.js): three public reads, and six
    writes on categories and their sub-categories behind `verifyToken` and
    `isAdmin`. */
module CategoryRoutes {
  import opened Common
  import opened Auth
  import opened Routing

  datatype Handler =
    | GetCategoriesHandler
    | GetCategoryByIdOrSlugHandler
    | GetSubCategoriesHandler
    | CreateCategoryHandler
    | UpdateCategoryHandler
    | DeleteCategoryHandler
    | CreateSubCategoryHandler
    | UpdateSubCategoryHandler
    | DeleteSubCategoryHandler

  const SubPath := [Param("categoryId"), Lit("subcategories")]
  const OneSubPath := SubPath + [Param("subCategoryId")]

  /** The routes in the order they are declared. */
  const Table: seq<Route<Handler>> := [
    Route(Get, [], [], GetCategoriesHandler),
    Route(Get, [Param("identifier")], [], GetCategoryByIdOrSlugHandler),
    Route(Get, SubPath, [], GetSubCategoriesHandler),
    Route(Post, [], AdminChain, CreateCategoryHandler),
    Route(Put, [Param("id")], AdminChain, UpdateCategoryHandler),
    Route(Delete, [Param("id")], AdminChain, DeleteCategoryHandler),
    Route(Post, SubPath, AdminChain, CreateSubCategoryHandler),
    Route(Put, OneSubPath, AdminChain, UpdateSubCategoryHandler),
    Route(Delete, OneSubPath, AdminChain, DeleteSubCategoryHandler)
  ]

  /** Every read is public: a GET runs no middleware. */
  lemma ReadsArePublic(path: seq<string>)
    ensures Resolve(Table, Get, path).Some? ==> Resolve(Table, Get, path).value.guards == []
  {
  }

  /** Every write runs `verifyToken` then `isAdmin`. */
  lemma WritesNeedAdmin(verb: Verb, path: seq<string>)
    requires verb != Get
    ensures Resolve(Table, verb, path).Some? ==> Resolve(Table, verb, path).value.guards == AdminChain
  {
  }

  /** No one but an admin changes categories: a caller whose token is good
      but whose role is not admin, an author included, is answered 403 by
      every write, before its handler runs. */
  lemma OnlyAdminWrites(verb: Verb, path: seq<string>, header: Option<string>,
                        codec: map<string, Option<string>>, users: map<string, User>)
    requires verb != Get && Resolve(Table, verb, path).Some?
    requires Authenticate(header, codec, users).Authenticated?
    requires Authenticate(header, codec, users).user.role != AdminRole
    ensures RunGuards(Resolve(Table, verb, path).value.guards, header, codec, users, None).sent
            == Some(Sent(403, AdminRequired))
  {
    WritesNeedAdmin(verb, path);
    AdminChainAdmits(header, codec, users, None);
  }

  /** A GET of one segment looks up a category by id or slug. */
  lemma {:induction false} CategoryRoute(x: string)
    requires x != ""
    ensures Resolve(Table, Get, [x]) == Some(Dispatch([], GetCategoryByIdOrSlugHandler, map["identifier" := x]))
  {
    BindCons(Param("identifier"), [], x, []);
    assert [Param("identifier")] + [] == [Param("identifier")] && [x] + [] == [x];
    FirstServing(Table, Get, [x], 1);
  }

  /** Followed by "subcategories" (in any case), the segment names the
      category whose sub-categories are listed. */
  lemma {:induction false} SubCategoriesRoute(x: string, subcategories: string)
    requires x != "" && SameText("subcategories", subcategories)
    ensures Resolve(Table, Get, [x, subcategories])
            == Some(Dispatch([], GetSubCategoriesHandler, map["categoryId" := x]))
  {
    BindCons(Lit("subcategories"), [], subcategories, []);
    assert [Lit("subcategories")] + [] == [Lit("subcategories")] && [subcategories] + [] == [subcategories];
    BindCons(Param("categoryId"), [Lit("subcategories")], x, [subcategories]);
    assert [Param("categoryId")] + [Lit("subcategories")] == SubPath;
    assert [x] + [subcategories] == [x, subcategories];
    FirstServing(Table, Get, [x, subcategories], 2);
  }

  /** The path of one sub-category binds both ids. */
  lemma {:induction false} BindOneSub(c: string, subcategories: string, s: string)
    requires c != "" && s != "" && SameText("subcategories", subcategories)
    ensures Bind(OneSubPath, [c, subcategories, s]) == Some(map["subCategoryId" := s, "categoryId" := c])
  {
    BindCons(Param("subCategoryId"), [], s, []);
    assert [Param("subCategoryId")] + [] == [Param("subCategoryId")] && [s] + [] == [s];
    BindCons(Lit("subcategories"), [Param("subCategoryId")], subcategories, [s]);
    BindCons(Param("categoryId"), [Lit("subcategories"), Param("subCategoryId")], c, [subcategories, s]);
    assert [Lit("subcategories")] + [Param("subCategoryId")] == [Lit("subcategories"), Param("subCategoryId")];
    assert [subcategories] + [s] == [subcategories, s];
    assert [Param("categoryId")] + [Lit("subcategories"), Param("subCategoryId")] == OneSubPath;
    assert [c] + [subcategories, s] == [c, subcategories, s];
  }

  /** Creating a sub-category receives the parent's id from the path. */
  lemma {:induction false} CreateSubCategoryRoute(c: string, subcategories: string)
    requires c != "" && SameText("subcategories", subcategories)
    ensures Resolve(Table, Post, [c, subcategories])
            == Some(Dispatch(AdminChain, CreateSubCategoryHandler, map["categoryId" := c]))
  {
    BindCons(Lit("subcategories"), [], subcategories, []);
    assert [Lit("subcategories")] + [] == [Lit("subcategories")] && [subcategories] + [] == [subcategories];
    BindCons(Param("categoryId"), [Lit("subcategories")], c, [subcategories]);
    assert [Param("categoryId")] + [Lit("subcategories")] == SubPath;
    assert [c] + [subcategories] == [c, subcategories];
    FirstServing(Table, Post, [c, subcategories], 6);
  }

  /** Updating a sub-category receives both ids from the path. */
  lemma {:induction false} UpdateSubCategoryRoute(c: string, subcategories: string, s: string)
    requires c != "" && s != "" && SameText("subcategories", subcategories)
    ensures Resolve(Table, Put, [c, subcategories, s])
            == Some(Dispatch(AdminChain, UpdateSubCategoryHandler, map["subCategoryId" := s, "categoryId" := c]))
  {
    BindOneSub(c, subcategories, s);
    FirstServing(Table, Put, [c, subcategories, s], 7);
  }

  /** Deleting a sub-category receives both ids from the path. */
  lemma {:induction false} DeleteSubCategoryRoute(c: string, subcategories: string, s: string)
    requires c != "" && s != "" && SameText("subcategories", subcategories)
    ensures Resolve(Table, Delete, [c, subcategories, s])
            == Some(Dispatch(AdminChain, DeleteSubCategoryHandler, map["subCategoryId" := s, "categoryId" := c]))
  {
    BindOneSub(c, subcategories, s);
    FirstServing(Table, Delete, [c, subcategories, s], 8);
  }
}
