# Lom blog backend: access control and record changes

This project models the core of an Express and Mongoose backend for a blog. That core is:

- the authentication middleware and its two role gates;
- the post handlers;
- the category and sub-category handlers;
- the two document schemas behind them;
- the two route tables that fix which middleware chain guards which handler.

Each request is modelled as its status code plus a precise account of which record changed and how.

**The document store.** Each collection is a class holding its documents in store order.

- `Blog.PostStore` holds posts. `Categories.CategoryStore` holds categories.
- Each category owns its sub-categories as an ordered embedded sequence.
- A sub-category handler loads a category as a `Categories.CategoryDoc`. It changes the embedded sequence in place (`push`, field assignment, `splice`), stamps the category and saves it back.
- A save validates the whole document against its schema.
- `findByIdAndUpdate` runs no validator and leaves out the fields the body does not carry.
- A value that is not an id, in a condition or update on an id path, makes the store throw. The catch answers 500.

**The cursor.** The store's `find`, `sort`, `skip` and `limit` are generic functions in `Cursor`.

- The sort is a stable insertion sort under a comparator. Equal keys keep store order.

**The middleware.** These are in `Auth` and `Routing`.

- `jwt.verify` and the user lookup are parameters:
  - a map from each token that verifies to the `id` claim of its payload;
  - a map from user id to user.
- The request is a class with:
  - the header;
  - the attached `user`;
  - a count of calls to `next`;
  - the response sent.
- A router serves a request with the first declared route whose verb and pattern match. It then runs that route's chain until a middleware sends a response.

**Findings.** Stating the natural contracts showed two places where the code does not do what the schema expects. Both are listed under "## Findings".

**Where the code differs from the design.** The design of the service describes things the code does not do. The model follows the code in each case:

- The category endpoints are described as served under `/api/categories`. The server mounts no category router (`Server.CategoryRouterUnreachable`).
- An admin is described as able to list draft posts. The listing route runs no middleware, so no caller is ever attached there and the listing is always published-only (`BlogRoutes.ListingIsPublishedOnly`).
- A duplicate post slug is described as answered with a conflict. Creation never copies a slug, and a clash with the unique index would be thrown and answered 500.

The category controller imports its model from `../models/category.js`. The schema file in the repository is `models/Categories.js`, and the model takes the two to be the same.

## Model

| member | source | states |
|---|---|---|
| Common.OrElse | controllers/blog.js:162-172 | `field \|\| fallback` on a string field is truthy exactly when the field or the fallback is, and is the first of them that is truthy |
| Text.Split | middleware/auth.js:14 | `split` on one character yields at least one piece, and no piece holds the separator |
| Text.SplitCount | controllers/blog.js:28 | a split yields exactly one piece more than the string holds separators |
| Text.JoinSplit | controllers/blog.js:28 | joining the pieces of a split with the separator gives back the string |
| Text.SplitJoin | controllers/blog.js:28 | splitting the join of separator-free pieces gives back the pieces |
| Text.SplitNoSep | middleware/auth.js:14 | a string without the separator splits into itself alone |
| Text.SplitPrefix | middleware/auth.js:14 | a separator-free word followed by the separator is the first piece, followed by the pieces of the rest |
| Text.TrimStart | controllers/blog.js:28 | the result is a suffix of the input that starts with no white space, and everything dropped is white space |
| Text.TrimEnd | controllers/blog.js:28 | the result is a prefix of the input that ends with no white space, and everything dropped is white space |
| Text.SpaceBetween | controllers/blog.js:28 | a prefix, before white space only, of a suffix after white space only, is a slice of the string with only white space around it |
| Text.Trim | controllers/blog.js:28 | `trim()` is the slice of the string left once the white space before it and after it is removed, and it has no white space at either end |
| Text.TrimFixpoint | controllers/blog.js:28 | a string with no white space at its ends is its own trim |
| Text.TrimIdempotent | controllers/blog.js:28 | trimming twice is trimming once |
| Text.LexTotal | controllers/categories.js:26 | the code-point order of names is total |
| Text.LexTransitive | controllers/categories.js:26 | the code-point order of names is transitive |
| Text.LexAntisymmetric | controllers/categories.js:26 | two names each ordered before the other are equal |
| Cursor.Keep | controllers/blog.js:77 | `find(condition)` returns records of the collection that satisfy the condition, every such record, and no record more often than it is stored |
| Cursor.FirstIndex | controllers/categories.js:159 | `findIndex` returns the first position whose record satisfies the condition, or -1 exactly when none does |
| Cursor.Window | controllers/blog.js:79-80 | `skip(n).limit(m)` returns at most m records, exactly the ones from position n on, and as many as remain up to m |
| Cursor.WindowWithin | controllers/blog.js:79-80 | a window holds no record more often than the cursor it is cut from |
| Cursor.Insert | controllers/blog.js:78 | inserting a record adds exactly that record |
| Cursor.Sort | controllers/blog.js:78 | sorting is a permutation of its input |
| Cursor.InsertSorted | controllers/blog.js:78 | inserting into a sorted sequence under a total comparator keeps it sorted |
| Cursor.SortSorted | controllers/blog.js:78 | under a total comparator the sort's output is sorted |
| Cursor.SortedPairwise | controllers/blog.js:78 | with a transitive comparator, a sorted sequence is ordered between any two positions, not only adjacent ones |
| Common.IsObjectId | models/Blog.js:22-35 | a value castable to an id path: 24 hexadecimal digits, in their canonical lower-case spelling |
| BlogModel.PostValid | models/Blog.js:16-50 | what a save demands of a post: title, slug and description present; author and category set to ids; an optional sub-category id; a status from the enum |
| BlogModel.SlugsUnique | models/Blog.js:18 | the unique index on `slug`: no two posts share one, and, the index not being sparse, two posts without a slug clash too |
| CategoryModel.SubCategoryValid | models/Categories.js:4-10 | an embedded sub-category needs a name and a slug; its description is optional |
| CategoryModel.CategoryValid | models/Categories.js:12-19 | what a save demands of a category: name and slug present, and every embedded sub-category valid |
| CategoryModel.MissingNameOrSlugInvalid | models/Categories.js:13-14 | a category without a name or without a slug never saves |
| CategoryModel.InvalidSubInvalidates | models/Categories.js:16 | one invalid embedded sub-category makes its whole category fail the save |
| CategoryModel.SlugsUnique | models/Categories.js:14 | the unique index on a category's `slug`: no two categories share one |
| BlogModel.NewPost | models/Blog.js:36-45 | a new post takes the schema defaults: draft status, no views, not featured, no tags, images or sections |
| BlogModel.MissingSlugOrDescriptionInvalid | models/Blog.js:17-19 | a post without a slug or without a description never passes validation |
| Auth.BearerTokenIsSecondField | middleware/auth.js:14 | the token is the second field of the header split on spaces |
| Auth.BearerTokenOfPlainToken | middleware/auth.js:14 | the header "Bearer t", with no space in t, carries exactly t |
| Auth.Authenticate | middleware/auth.js:4-30 | no bearer header gives 401 "No token provided". A token that does not verify, or whose id claim is not a well-formed id, gives 401 "Invalid token". A verified token with no id claim, or with the id of no user, gives 404 "User not found". The user is attached iff the token verifies to a well-formed id of an existing user, and it is that user |
| Auth.IsAdminUser | middleware/auth.js:33 | `isAdmin` lets through exactly a request with a user attached whose role is "admin" |
| Auth.IsAuthorOrAdminUser | middleware/auth.js:41 | `isAuthorOrAdmin` lets through exactly a request with a user attached whose role is "admin" or "author" |
| Auth.AdminGateImpliesAuthorGate | middleware/auth.js:32-47 | whoever passes `isAdmin` passes `isAuthorOrAdmin`, and `isAuthorOrAdmin` refuses every other role |
| Auth.VerifyToken | middleware/auth.js:4-30 | on success the user is attached and `next` is called once. On failure the rejection is sent and `next` is not called. A 404 leaves no user attached |
| Auth.IsAdmin | middleware/auth.js:32-38 | `next` is called once for an admin. Anyone else is sent 403 and `next` is not called |
| Auth.IsAuthorOrAdmin | middleware/auth.js:40-47 | `next` is called once for an admin or author. Anyone else is sent 403 and `next` is not called |
| Blog.SplitTags | controllers/blog.js:28 | absent or empty tags give no tags. Otherwise there is one tag per comma plus one, and tag i is the i-th comma-separated piece of the input, trimmed |
| Blog.TagsOfJoin | controllers/blog.js:28 | words joined by commas, white space around them or not, come back as exactly those words, trimmed, one tag per word |
| Blog.TagsRoundTrip | controllers/blog.js:28 | tags without white space, joined back with commas, give the submitted string |
| Blog.PieceHasNoSpace | controllers/blog.js:28 | a piece of a split of a string without white space holds no white space |
| Blog.BuildPost | controllers/blog.js:21-36 | the new post's author is the caller. It carries no slug and no description, no views, and is stamped with the creation time |
| Blog.BuildPostIgnoresBodyAuthor | controllers/blog.js:25 | the author of a new post is the caller's id, whatever the body says |
| Blog.BuildPostDefaults | controllers/blog.js:28-33 | each optional field defaults on its own: no status gives draft, no tags none, no images or sections empty ones, no meta an empty meta record. A field the body carries is taken from it, the tags split and trimmed |
| Blog.BuildPostNeverValid | controllers/blog.js:21-38 | no creation request builds a post the schema accepts |
| Blog.BuildPostWithSlug | controllers/blog.js:21-36 | the corrected creation: the slug and description are the body's, and every other field is the one the handler as written builds |
| Blog.BuildPostWithSlugValid | controllers/blog.js:21-38 | with slug and description copied, a body holding every required field and an admissible status builds a valid post |
| Blog.QueryFilter | controllers/blog.js:56-67 | the `find` conditions of a listing: category, sub-category, tag and author each only when truthy, and the role-gated status condition |
| Blog.Matches | controllers/blog.js:56-70 | a post meets the conditions: the same category, sub-category and author, the tag among its tags, and the status, for each condition set |
| Blog.StatusFilter | controllers/blog.js:63-67 | a caller that is not admin or author always gets "published". An admin or author gets a status condition exactly when a non-empty status is asked for, and then that status |
| Blog.NewestFirst | controllers/blog.js:78 | `sort({ createdAt: -1 })` is a permutation ordered by creation date, newest first |
| Blog.TotalPages | controllers/blog.js:90 | `Math.ceil(total / limit)`: the fewest pages of `limit` posts that hold `total` |
| Blog.ShownPostsMatch | controllers/blog.js:77-80 | every post of a window of the sorted matches is a stored post matching the filter |
| Blog.ListPage | controllers/blog.js:73-91 | the page is the window of the matching posts, newest first, that starts after `(page - 1) * limit` of them and holds up to `limit`: exactly `limit` posts while enough remain, the rest of them otherwise, none past the end. Each is stored and matching. It reports the page asked for, the number of matches, and the ceiling of matches over limit as the page count |
| Blog.GetPosts | controllers/blog.js:55-91 | a filter on an id path that is not an id gives 500. Otherwise the reply is the listing page of the query's filter, with page and limit defaulting to 1 and 10: at most `limit` posts all matching every filter given, newest first after the skipped ones, and the match total and page count |
| Blog.ListPageWindow | controllers/blog.js:75-80 | the k-th post of a page is the `((page-1)*limit + k)`-th match, newest first |
| Blog.ListingHidesUnpublished | controllers/blog.js:63-67 | a caller that is absent or neither admin nor author lists published posts only, and asking for a status changes nothing |
| Blog.PrivilegedStatusFilter | controllers/blog.js:63-64 | an admin or author asking for a status sees exactly the matching posts of that status |
| Blog.IndexOf | controllers/blog.js:108 | `findById` finds the post with the id, or reports that none has it |
| Blog.CanModify | controllers/blog.js:155-157 | the ownership test of update and delete: the caller is the recorded author or an admin |
| Blog.MergeUpdate | controllers/blog.js:159-174 | each field is replaced only by a truthy submitted value (arrays and meta whenever present), tags are re-split, and id, slug, description, author, views and creation date are kept |
| Blog.TitleOnlyUpdate | controllers/blog.js:159-174 | a body holding only a title changes the title and the update stamp and nothing else |
| Blog.MergeIdempotent | controllers/blog.js:159-174 | applying the same update twice is applying it once |
| Blog.UpdateStoresUnknownStatus | controllers/blog.js:172 | an update with status "deleted" stores that status, and the post then fails the schema |
| Blog.ValidatedUpdate | controllers/blog.js:159-176 | the corrected update is refused exactly for a status outside the enum or a category or sub-category that is not an id, and otherwise is the merge and passes the schema |
| Blog.ShownAreCandidates | controllers/blog.js:231-237 | every post of a window of the newest-first candidates is a stored other published post of the source's category |
| Blog.Related | controllers/blog.js:231-237 | at most three posts, or all candidates when fewer. They are distinct candidates, none shown more often than it is stored: other published posts of the source's category, newest first |
| Blog.RelatedAreNewest | controllers/blog.js:231-237 | no candidate left out is newer than a related post shown |
| Blog.GetRelatedPosts | controllers/blog.js:219-241 | a malformed id or unknown post gives 404. A known post gives 200 with its related posts: at most three published posts of the same category, the source excluded, newest first |
| Blog.PostStore.Insert | controllers/blog.js:38 | a save appends the post iff it passes the schema and its slug is free; otherwise 500 and nothing changes. Id and slug uniqueness are kept |
| Blog.PostStore.CreatePost | controllers/blog.js:5-49 | as written, every creation answers 500 and leaves the collection unchanged |
| Blog.PostStore.CreatePostWithSlug | controllers/blog.js:5-49 | corrected creation: a valid post with a free slug is appended with the caller as author; anything else is 500 with no change |
| Blog.PostStore.GetPostById | controllers/blog.js:100-125 | a malformed or unknown id gives 404 and no change. Otherwise exactly that post's view count goes up by one, and the reply carries it. A stored post failing the schema answers 500 |
| Blog.PostStore.UpdatePost | controllers/blog.js:128-186 | 404 for a malformed or unknown id, and 403 with no change whenever the caller fails `CanModify` (the ownership test of lines 155-157): neither the recorded author nor an admin. 500 for an id field that is not an id. Otherwise exactly that post is replaced by the merge |
| Blog.PostStore.UpdatePostValidated | controllers/blog.js:128-186 | corrected update: 404 and 403 as written. A merge the schema refuses is 500 with no change, otherwise exactly that post is replaced. Every stored post keeps passing the schema |
| Blog.PostStore.DeletePost | controllers/blog.js:189-214 | 404 as for update, and 403 with no change whenever the caller fails `CanModify` (the ownership test of lines 203-205). Otherwise exactly that post is removed, the others keep their order, and the id is no longer found |
| Categories.IndexOf | controllers/categories.js:107 | `findById` finds the category with the id, or reports that none has it |
| Categories.SlugIndex | controllers/categories.js:10 | `findOne({ slug })` finds the first category holding the slug, or reports that none does |
| Categories.FindSubIndex | controllers/categories.js:159 | the `findIndex` loop returns the position `SubIndex` specifies: the first sibling with the id, or -1 exactly when none has it |
| Categories.SiblingHasSlug | controllers/categories.js:164-166 | the `some` loop is true iff a sibling holds the slug, other than the excluded id when one is given |
| Categories.SubIndex | controllers/categories.js:199 | the position of the first sibling with the id, or -1 exactly when none has it |
| Categories.NameOrderTotal | controllers/categories.js:26 | any two categories are ordered by name one way or the other |
| Categories.NameOrderTransitive | controllers/categories.js:26 | the name order is transitive |
| Categories.GetCategories | controllers/categories.js:24-31 | every category, each exactly as often as stored, ordered by name ascending |
| Categories.GetCategoryByIdOrSlug | controllers/categories.js:33-48 | an id-shaped identifier is found by id only, anything else by slug, and no match gives 404 |
| Categories.IdShapedSlugNotFound | controllers/categories.js:36-38 | an id-shaped identifier never falls back to a slug lookup |
| Categories.GetSubCategories | controllers/categories.js:127-143 | 404 for a malformed or unknown id. A present category gives 200 with exactly its sub-categories, in order |
| Categories.CategoryDoc.Load | controllers/categories.js:107 | the loaded document is the stored category |
| Categories.CategoryDoc.PushSubCategory | controllers/categories.js:117 | `push` appends exactly the new sub-category and changes nothing else |
| Categories.CategoryDoc.SetSubCategory | controllers/categories.js:171-175 | the sibling at the index is replaced and nothing else changes |
| Categories.CategoryDoc.SpliceSubCategory | controllers/categories.js:204 | `splice(index, 1)` removes exactly the sibling at the index |
| Categories.CategoryDoc.Touch | controllers/categories.js:118 | only the category's update stamp changes |
| Categories.EditSub | controllers/categories.js:172-175 | only truthy name, slug and description overwrite. The id and creation date are kept and the sub-category is stamped |
| Categories.EditCategory | controllers/categories.js:64-68 | every field present in the body is written as given, even empty. Absent ones are kept, the sub-categories are untouched, and the category is stamped |
| Categories.AppendKeepsUnique | controllers/categories.js:112-117 | appending a sub-category with a fresh id and a slug no sibling holds keeps sibling ids and slugs distinct |
| Categories.RemoveKeepsUnique | controllers/categories.js:204 | a splice shrinks the sequence by one, keeps the others in order, and keeps sibling ids and slugs distinct |
| Categories.ReplaceKeepsUnique | controllers/categories.js:164-175 | replacing a sibling by one with its id and a slug no other sibling holds keeps sibling ids and slugs distinct |
| Categories.ReplaceKeepsAllSiblingSlugsUnique | controllers/categories.js:119 | saving back one category whose siblings have distinct slugs keeps sibling slugs distinct in every category |
| Categories.CategoryStore.CreateCategory | controllers/categories.js:6-22 | a slug some category holds gives 400 and no change. Otherwise the new category is appended, or 500 when it lacks a name or slug. Slug uniqueness is kept |
| Categories.CategoryStore.UpdateCategory | controllers/categories.js:50-78 | 404 for a malformed id. Then 400 if another category holds the slug, never counting the category's own. Then 404 if unknown. Otherwise the fields are written unvalidated and slug uniqueness is kept |
| Categories.CategoryStore.DeleteCategory | controllers/categories.js:80-96 | 404 for a malformed or unknown id. Otherwise exactly that category, with its sub-categories, is removed. Every handler of the store keeps ids well formed and distinct, category slugs distinct (the unique index) and sibling ids distinct |
| Categories.CategoryStore.Save | controllers/categories.js:119 | the loaded category is written back iff it passes the schema |
| Categories.CategoryStore.CreateSubCategory | controllers/categories.js:98-125 | 404 for a malformed or unknown parent. 400 when a sibling holds the slug, with no change. Otherwise the entry is appended after the others and the parent stamped and saved. Sibling slugs stay distinct |
| Categories.CategoryStore.UpdateSubCategory | controllers/categories.js:145-184 | 404 for a malformed id, unknown parent or unknown sub-category. 400 when a truthy slug is held by another sibling. Otherwise only that sibling changes, by the truthy fields, and the parent is stamped and saved. Sibling slugs stay distinct |
| Categories.CategoryStore.DeleteSubCategory | controllers/categories.js:186-212 | the same 404 answers. Otherwise the first sibling with the id is spliced out and the parent stamped and saved. Sibling slugs stay distinct |
| Routing.Bind | routes/blogRoutes.js:16-23 | a path matches a pattern iff it has as many segments, each literal matching and each parameter non-empty, and exactly the parameter names are bound |
| Routing.BindValues | routes/blogRoutes.js:16-23 | a matched parameter is bound to the segment in the place of its name's last occurrence, so with distinct names each parameter gets the segment in its own place |
| Routing.BindCons | routes/blogRoutes.js:16-23 | a parameter in the leading place binds the leading segment on top of the rest's bindings |
| Routing.Resolve | routes/blogRoutes.js:16-23 | a request reaches the first declared route with its verb and a matching pattern, with that route's chain and bindings. Nothing is reached iff no route matches |
| Routing.FirstServing | routes/blogRoutes.js:16-23 | a route that matches when no earlier one does is the one reached |
| Routing.RunGuards | routes/blogRoutes.js:21-23 | a chain with no middleware reaches the handler unchanged, and every response a chain sends is 401, 403 or 404 |
| Routing.RunChain | routes/blogRoutes.js:21-23 | running the middleware in turn until one responds leaves the user and response `RunGuards` gives. `next` is called once per middleware when the handler is reached |
| Routing.AuthorChainAdmits | routes/blogRoutes.js:21-23 | `verifyToken` then `isAuthorOrAdmin` reaches the handler iff the token identifies an admin or author, who is attached. Token failures answer 401 or 404 before any 403 |
| Routing.AdminChainAdmits | routes/categories.js:23-30 | `verifyToken` then `isAdmin` reaches the handler iff the token identifies an admin. Token failures answer 401 or 404 before any 403 |
| BlogRoutes.ReadsArePublic | routes/blogRoutes.js:16-18 | every GET runs no middleware |
| BlogRoutes.WritesNeedAuthor | routes/blogRoutes.js:21-23 | every POST, PUT and DELETE runs `verifyToken` then `isAuthorOrAdmin` |
| BlogRoutes.ListingRoute | routes/blogRoutes.js:16 | GET / reaches the listing with no middleware |
| BlogRoutes.DetailRoute | routes/blogRoutes.js:17 | GET /:id reaches the detail read with that id, even when the segment is "related" |
| BlogRoutes.RelatedRoute | routes/blogRoutes.js:18 | GET /:id/related reaches the related-posts read with that id |
| BlogRoutes.WriteRoutes | routes/blogRoutes.js:21-23 | POST /, PUT /:id and DELETE /:id reach create, update and delete through the author chain with the id bound |
| BlogRoutes.Unrouted | routes/blogRoutes.js:21-23 | POST /:id, PUT / and DELETE / match no route |
| BlogRoutes.ListingIsPublishedOnly | routes/blogRoutes.js:16 | the listing never sees a caller, whatever token is sent, so it lists published posts only |
| BlogRoutes.ReaderCannotWrite | routes/blogRoutes.js:21-23 | a caller with a good token and a role other than admin or author is answered 403 by every write |
| CategoryRoutes.ReadsArePublic | routes/categories.js:18-20 | every GET runs no middleware |
| CategoryRoutes.WritesNeedAdmin | routes/categories.js:23-30 | every POST, PUT and DELETE runs `verifyToken` then `isAdmin` |
| CategoryRoutes.OnlyAdminWrites | routes/categories.js:23-30 | a caller with a good token and any role but admin, author included, is answered 403 by every write |
| CategoryRoutes.CategoryRoute | routes/categories.js:19 | GET /:identifier reaches the id-or-slug read with that identifier |
| CategoryRoutes.SubCategoriesRoute | routes/categories.js:20 | GET /:categoryId/subcategories reaches the sub-category list with that category id |
| CategoryRoutes.BindOneSub | routes/categories.js:29-30 | the path of one sub-category binds both the category id and the sub-category id |
| CategoryRoutes.CreateSubCategoryRoute | routes/categories.js:28 | POST /:categoryId/subcategories reaches creation through the admin chain with the parent id |
| CategoryRoutes.UpdateSubCategoryRoute | routes/categories.js:29 | PUT /:categoryId/subcategories/:subCategoryId reaches the update through the admin chain with both ids |
| CategoryRoutes.DeleteSubCategoryRoute | routes/categories.js:30 | DELETE /:categoryId/subcategories/:subCategoryId reaches deletion through the admin chain with both ids |
| BlogRoutes.Table | routes/blogRoutes.js:16-23 | the six post routes in declaration order, the three writes behind `verifyToken` then `isAuthorOrAdmin` |
| CategoryRoutes.Table | routes/categories.js:18-30 | the nine category routes in declaration order, the six writes behind `verifyToken` then `isAdmin` |
| Server.Mounts | server.js:29-31 | the routers the server mounts, in order: authentication, posts and dashboard, and no category router |
| Server.Mounted | server.js:29-31 | a path goes to the first mounted router whose mount path leads it, with the remaining segments, or to none |
| Server.CategoryRouterUnreachable | server.js:29-31 | no path reaches the category router |
| Server.BlogsMounted | server.js:30 | every path under /api/blogs goes to the post router with the rest of its segments |

## Left out

- Blog.GetPosts: the `search` parameter and its `$text` condition on the text index are not modelled. Full-text matching is left to the store.
- Blog.GetPosts: `parseInt` is taken to yield a page and a limit of at least 1. A non-numeric, zero or negative value (NaN, a division by zero, a negative skip) is excluded by its requires.
- `populate` and the registration of models are not modelled: a reply is taken to carry the stored references as they are. The post schema refers to a "SubCategory" model that none of the modelled files registers, and the post handlers never load the category schema themselves (the only imports outside this model are controllers/authController.js, which the authentication router loads, and models/User.js; either might register them). If a referenced model is unregistered, the populate rejects and the handlers' catch blocks answer 500 for the reads and writes of posts that populate. The model does not capture that failure; it shows the replies the handlers send when population succeeds.
- `jwt.verify`, `User.findById` and the user model are parameters. The user model and the authentication controller are not part of this model.
- Common.IsObjectId: only the canonical spelling of an id is modelled, 24 lower-case hexadecimal digits. The upper-case spelling and the 12-character form some driver versions accept are not.
- Categories.SlugIndex: a query on an absent slug is taken to match no category. The store's treatment of an `undefined` condition depends on the driver's options.
- A JSON `null` in a body is not distinguished from an absent field.
- A body field of the wrong JSON type is not modelled, for example tags sent as an array, which makes `split` throw.
- Dates are instants of an abstract clock passed in as `now`. The instant at which the post schema computes its default dates is not modelled, because the handlers always set both dates.
- Text.IsSpace: the white space `trim` removes is the fixed set of code points listed. Strings are sequences of Unicode characters, not UTF-16 code units.
- Cursor.Sort: records with equal sort keys keep store order. The store leaves their order unspecified.
- Concurrency is not modelled. The read-check-then-write races of the slug and ownership checks need two interleaved requests, and each handler here runs alone.
- The store failing for other reasons (a lost connection, a timeout) is not modelled. Only the 500 answers the handlers' own inputs provoke are.
- The console logging of errors and the `error` text sent beside the message are not modelled.
- The authentication and dashboard routers, CORS, the static upload folder, the `/api/hello` route, and connecting and listening are not modelled. They are I/O plumbing outside the core.
- PostStore.DeletePost, Blog.MergeUpdate: the store is taken to be Mongoose 6 or 7, the repository pinning no version. From version 6 an update drops the keys whose value is `undefined`, which MergeUpdate relies on for the fields a body leaves out (older versions could clear them instead). Version 8 removed `findByIdAndRemove`: there every authorised delete would throw, answer 500 and remove nothing, where DeletePost removes the post.
- Routing.Resolve: paths are taken as already split and decoded segments. HEAD requests answered by GET routes and trailing-slash handling are not modelled.

## Findings

| source | as written | input that shows it | evidently intended | confidence | as-written member | corrected member |
|---|---|---|---|---|---|---|
| controllers/blog.js:21-36 | `createPost` never copies `slug` or `description` into the new post, which the schema requires (models/Blog.js:18-19), so every save fails validation and the request answers 500 | POST /api/blogs by an author with body `{title: "T", slug: "t", description: "D", category: <id>}` | the body's slug and description are copied, and a valid post with a free slug is created | not executed | Blog.BuildPostNeverValid, Blog.PostStore.CreatePost | Blog.BuildPostWithSlugValid, Blog.PostStore.CreatePostWithSlug |
| controllers/blog.js:159-176 | `findByIdAndUpdate` runs without validators, so `status: status \|\| post.status` stores any truthy status. Afterwards every GET /:id of that post fails the validation of its save and answers 500 | PUT /api/blogs/<id> by its author with body `{status: "deleted"}` | a status outside the enum (or a non-id category) is refused and the post is left unchanged | not executed | Blog.UpdateStoresUnknownStatus, Blog.PostStore.UpdatePost | Blog.ValidatedUpdate, Blog.PostStore.UpdatePostValidated |
