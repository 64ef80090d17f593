/** The post handlers (controllers/blog.js). Listing and related posts only
    read the collection and are functions of it; creation, the detail read
    (which bumps the view counter), update and deletion change the collection
    and are methods of `PostStore`. Every handler receives the caller the
    middleware attached, when its route has one. */
module Blog {
  import opened Common
  import opened Text
  import opened Cursor
  import opened BlogModel
  import opened Auth

  const NoPostWithId := "No post with that id"
  const PostNotFound := "Post not found"
  const NotAuthorizedToUpdate := "Not authorized to update this post"
  const NotAuthorizedToDelete := "Not authorized to delete this post"
  const PostDeleted := "Post deleted successfully"

  const DefaultPage := 1
  const DefaultLimit := 10
  const RelatedLimit := 3

  /** The JSON body of a create or update request. A client may send `slug`,
      `description` and `author`; the handlers read none of them. Arrays and
      objects are truthy whenever present, even when empty. */
  datatype PostBody = PostBody(
    title: Option<string>,
    slug: Option<string>,
    description: Option<string>,
    author: Option<string>,
    content: Option<string>,
    summary: Option<string>,
    category: Option<string>,
    subCategory: Option<string>,
    tags: Option<string>,
    featuredImage: Option<string>,
    images: Option<seq<string>>,
    status: Option<string>,
    sections: Option<seq<Section>>,
    meta: Option<Meta>)

  // ---------------------------------------------------------------- tags

  /** `tags ? tags.split(",").map(tag => tag.trim()) : []`. */
  function SplitTags(tags: Option<string>): (r: seq<string>)
    ensures !Truthy(tags) ==> r == []
    ensures Truthy(tags) ==> |r| == multiset(tags.value)[','] + 1
    ensures Truthy(tags) ==> |r| == |Split(tags.value, ',')|
                             && forall i :: 0 <= i < |r| ==> r[i] == Trim(Split(tags.value, ',')[i])
    ensures forall i :: 0 <= i < |r| ==>
              ',' !in r[i] && (r[i] == [] || (!IsSpace(r[i][0]) && !IsSpace(r[i][|r[i]| - 1])))
  {
    if Truthy(tags) then
      var pieces := Split(tags.value, ',');
      SplitCount(tags.value, ',');
      seq(|pieces|, i requires 0 <= i < |pieces| => Trim(pieces[i]))
    else []
  }

  /** Tags written without white space come back from the split as written:
      joining them with commas gives the submitted string. */
  lemma {:induction false} TagsRoundTrip(tags: string)
    requires tags != []
    requires forall i :: 0 <= i < |tags| ==> !IsSpace(tags[i])
    ensures Join(SplitTags(Some(tags)), ',') == tags
  {
    var pieces := Split(tags, ',');
    var r := SplitTags(Some(tags));
    assert r == seq(|pieces|, i requires 0 <= i < |pieces| => Trim(pieces[i]));
    forall i | 0 <= i < |pieces|
      ensures r[i] == pieces[i]
    {
      PieceHasNoSpace(tags, i);
      TrimFixpoint(pieces[i]);
    }
    assert r == pieces;
    JoinSplit(tags, ',');
  }

  /** Tags submitted as comma-separated words, with white space around
      them or not, come back as the words trimmed, one tag per word. */
  lemma {:induction false} TagsOfJoin(words: seq<string>)
    requires |words| >= 1 && Join(words, ',') != []
    requires forall i :: 0 <= i < |words| ==> ',' !in words[i]
    ensures |SplitTags(Some(Join(words, ',')))| == |words|
    ensures forall i :: 0 <= i < |words| ==> SplitTags(Some(Join(words, ',')))[i] == Trim(words[i])
  {
    SplitJoin(words, ',');
  }

  /** A piece of a split holds only characters of the split string. */
  lemma {:induction false} PieceHasNoSpace(s: string, i: int)
    requires forall k :: 0 <= k < |s| ==> !IsSpace(s[k])
    requires 0 <= i < |Split(s, ',')|
    ensures forall k :: 0 <= k < |Split(s, ',')[i]| ==> !IsSpace(Split(s, ',')[i][k])
  {
    if s != [] {
      var rest := Split(s[1..], ',');
      if s[0] == ',' {
        if i > 0 { PieceHasNoSpace(s[1..], i - 1); }
      } else if i == 0 {
        PieceHasNoSpace(s[1..], 0);
      } else {
        PieceHasNoSpace(s[1..], i);
      }
    }
  }

  // ---------------------------------------------------------------- create

  /** The record `createPost` builds: the caller's id as author, the tags
      split, arrays defaulting to empty, meta to `{}`, status to draft. The
      handler never copies the body's `slug` or `description`. */
  function BuildPost(caller: User, body: PostBody, id: string, now: int): (p: Post)
    ensures p.id == id && p.author == caller.id
    ensures p.slug.None? && p.description.None?
    ensures p.viewCount == 0 && !p.featured && p.createdAt == now && p.updatedAt == now
  {
    NewPost(id, caller.id, now).(
      title := body.title,
      summary := body.summary,
      content := body.content,
      category := body.category,
      subCategory := body.subCategory,
      tags := SplitTags(body.tags),
      featuredImage := body.featuredImage,
      images := body.images.GetOr([]),
      sections := body.sections.GetOr([]),
      meta := Some(body.meta.GetOr(EmptyMeta)),
      status := if Truthy(body.status) then body.status.value else Draft)
  }

  /** The author of a new post is the caller, whatever the body says. */
  lemma BuildPostIgnoresBodyAuthor(caller: User, body: PostBody, author: Option<string>, id: string, now: int)
    ensures BuildPost(caller, body, id, now) == BuildPost(caller, body.(author := author), id, now)
    ensures BuildPost(caller, body, id, now).author == caller.id
  {
  }

  /** Each optional field takes its default on its own when the body leaves
      it out: draft status, no tags, images or sections, and an empty meta
      record; a field the body carries is taken from it. */
  lemma BuildPostDefaults(caller: User, body: PostBody, id: string, now: int)
    ensures var p := BuildPost(caller, body, id, now);
            && (!Truthy(body.status) ==> p.status == Draft)
            && (Truthy(body.status) ==> p.status == body.status.value)
            && p.tags == SplitTags(body.tags)
            && (!Truthy(body.tags) ==> p.tags == [])
            && (body.images.None? ==> p.images == []) && (body.images.Some? ==> p.images == body.images.value)
            && (body.sections.None? ==> p.sections == [])
            && (body.sections.Some? ==> p.sections == body.sections.value)
            && (body.meta.None? ==> p.meta == Some(EmptyMeta)) && (body.meta.Some? ==> p.meta == body.meta)
  {
  }

  /** As written, no request creates a post: the record never carries the
      slug and description the schema requires. */
  lemma BuildPostNeverValid(caller: User, body: PostBody, id: string, now: int)
    ensures !PostValid(BuildPost(caller, body, id, now))
  {
  }

  /** The creation the schema evidently expects: the body's slug and
      description copied like the other fields, and every other field as
      the handler builds it. */
  function BuildPostWithSlug(caller: User, body: PostBody, id: string, now: int): (p: Post)
    ensures p.slug == body.slug && p.description == body.description
    ensures p.(slug := None, description := None) == BuildPost(caller, body, id, now)
  {
    BuildPost(caller, body, id, now).(slug := body.slug, description := body.description)
  }

  /** With the slug and description copied, a body holding every required
      field and an admissible status builds a post the schema accepts. */
  lemma {:induction false} BuildPostWithSlugValid(caller: User, body: PostBody, id: string, now: int)
    requires IsObjectId(id) && IsObjectId(caller.id)
    requires Required(body.title) && Required(body.slug) && Required(body.description)
    requires Truthy(body.category) && IsObjectId(body.category.value)
    requires OptionalRef(body.subCategory)
    requires !Truthy(body.status) || IsStatus(body.status.value)
    ensures PostValid(BuildPostWithSlug(caller, body, id, now))
  {
  }

  // ---------------------------------------------------------------- list

  /** The query string of a listing request. The page and the limit are the
      integers `parseInt` reads from them. */
  datatype PostQuery = PostQuery(
    page: Option<int>,
    limit: Option<int>,
    category: Option<string>,
    subCategory: Option<string>,
    tag: Option<string>,
    author: Option<string>,
    status: Option<string>)

  /** The conditions of the `find` query; `None` puts no condition. */
  datatype Filter = Filter(
    category: Option<string>,
    subCategory: Option<string>,
    tag: Option<string>,
    author: Option<string>,
    status: Option<string>)

  datatype PostPage = PostPage(posts: seq<Post>, currentPage: int, totalPages: int, totalPosts: int)

  predicate Privileged(caller: Option<User>) {
    caller.Some? && (caller.value.role == AdminRole || caller.value.role == AuthorRole)
  }

  /** The status condition: an admin or author filters by the requested
      status only when one is given; anyone else sees published posts only,
      whatever status was asked for. */
  function StatusFilter(caller: Option<User>, requested: Option<string>): (s: Option<string>)
    ensures !Privileged(caller) ==> s == Some(Published)
    ensures Privileged(caller) ==> (s.Some? <==> Truthy(requested))
    ensures Privileged(caller) && s.Some? ==> s == requested
  {
    if Privileged(caller) then
      if Truthy(requested) then requested else None
    else Some(Published)
  }

  function WhenTruthy(o: Option<string>): Option<string> {
    if Truthy(o) then o else None
  }

  function QueryFilter(q: PostQuery, caller: Option<User>): Filter {
    Filter(WhenTruthy(q.category), WhenTruthy(q.subCategory), WhenTruthy(q.tag),
           WhenTruthy(q.author), StatusFilter(caller, q.status))
  }

  predicate Matches(f: Filter, p: Post) {
    && (f.category.None? || p.category == f.category)
    && (f.subCategory.None? || p.subCategory == f.subCategory)
    && (f.tag.None? || f.tag.value in p.tags)
    && (f.author.None? || p.author == f.author.value)
    && (f.status.None? || p.status == f.status.value)
  }

  /** The store casts the conditions on id paths; a value that is not an id
      makes the query throw. */
  predicate FilterCasts(f: Filter) {
    OptionalRef(f.category) && OptionalRef(f.subCategory) && OptionalRef(f.author)
  }

  predicate NewerOrSame(a: Post, b: Post) {
    a.createdAt >= b.createdAt
  }

  /** `sort({ createdAt: -1 })`. */
  function NewestFirst(s: seq<Post>): (r: seq<Post>)
    ensures multiset(r) == multiset(s)
    ensures forall i, j :: 0 <= i < j < |r| ==> r[i].createdAt >= r[j].createdAt
  {
    var r := Sort(s, NewerOrSame);
    SortSorted(s, NewerOrSame);
    forall i, j | 0 <= i < j < |r| ensures r[i].createdAt >= r[j].createdAt {
      SortedPairwise(r, NewerOrSame, i, j);
    }
    r
  }

  /** `n` pages of `limit` posts hold `total` posts, and fewer would not. */
  predicate PagesHold(total: int, limit: int, n: int) {
    limit * (n - 1) < total <= limit * n
  }

  /** `Math.ceil(total / limit)`. */
  function TotalPages(total: nat, limit: int): (n: nat)
    requires limit >= 1
    ensures PagesHold(total, limit, n)
  {
    var n := (total + limit - 1) / limit;
    assert limit * n + (total + limit - 1) % limit == total + limit - 1;
    n
  }

  function Matching(docs: seq<Post>, f: Filter): seq<Post> {
    Keep(docs, p => Matches(f, p))
  }

  /** The posts a window of the newest-first matches shows all match and
      all come from the collection. */
  lemma {:induction false} ShownPostsMatch(docs: seq<Post>, f: Filter, skip: nat, limit: nat)
    ensures var shown := Window(NewestFirst(Matching(docs, f)), skip, limit);
            forall k :: 0 <= k < |shown| ==> shown[k] in docs && Matches(f, shown[k])
  {
    var matching := Matching(docs, f);
    var sorted := NewestFirst(matching);
    var shown := Window(sorted, skip, limit);
    forall k | 0 <= k < |shown| ensures shown[k] in docs && Matches(f, shown[k]) {
      assert shown[k] == sorted[skip + k];
      assert shown[k] in multiset(sorted);
      assert shown[k] in matching;
      var j :| 0 <= j < |matching| && matching[j] == shown[k];
    }
  }

  /** `(page - 1) * limit`: how many matches the page skips. */
  function Skip(page: int, limit: int): (n: nat)
    requires page >= 1 && limit >= 1
    ensures n == (page - 1) * limit
  {
    var before: nat := page - 1;
    before * limit
  }

  /** One page of the listing: page `page` (1-based) of the matching posts,
      newest first, with the page count and the match count. */
  function ListPage(docs: seq<Post>, f: Filter, page: int, limit: int): (r: PostPage)
    requires page >= 1 && limit >= 1
    ensures r.currentPage == page && |r.posts| <= limit
    ensures r.posts == Window(NewestFirst(Matching(docs, f)), Skip(page, limit), limit)
    ensures var n := |Matching(docs, f)|; var skip := Skip(page, limit);
            |r.posts| == if skip >= n then 0 else if n - skip < limit then n - skip else limit
    ensures forall k :: 0 <= k < |r.posts| ==> r.posts[k] in docs && Matches(f, r.posts[k])
    ensures r.totalPosts == |Matching(docs, f)|
    ensures PagesHold(r.totalPosts, limit, r.totalPages)
  {
    var matching := Matching(docs, f);
    var skip := Skip(page, limit);
    var shown := Window(NewestFirst(matching), skip, limit);
    var pages := TotalPages(|matching|, limit);
    ShownPostsMatch(docs, f, skip, limit);
    PostPage(shown, page, pages, |matching|)
  }

  /** `getPosts`: the page of posts matching the query, or 500 when a
      condition on an id path is not an id. */
  function GetPosts(docs: seq<Post>, caller: Option<User>, q: PostQuery): (r: Reply<PostPage>)
    requires q.page.None? || q.page.value >= 1
    requires q.limit.None? || q.limit.value >= 1
    ensures !FilterCasts(QueryFilter(q, caller)) ==> r == Fail(500, ServerError)
    ensures FilterCasts(QueryFilter(q, caller)) ==> r.Ok? && r.code == 200
    ensures r.Ok? ==> r.value.currentPage == q.page.GetOr(DefaultPage)
    ensures r.Ok? ==> |r.value.posts| <= q.limit.GetOr(DefaultLimit)
    ensures r.Ok? ==> forall k :: 0 <= k < |r.value.posts| ==>
              r.value.posts[k] in docs && Matches(QueryFilter(q, caller), r.value.posts[k])
    ensures r.Ok? ==> r.value.totalPosts == |Matching(docs, QueryFilter(q, caller))|
    ensures r.Ok? ==> PagesHold(r.value.totalPosts, q.limit.GetOr(DefaultLimit), r.value.totalPages)
    ensures r.Ok? ==> r.value == ListPage(docs, QueryFilter(q, caller), q.page.GetOr(DefaultPage),
                                          q.limit.GetOr(DefaultLimit))
  {
    var f := QueryFilter(q, caller);
    if !FilterCasts(f) then Fail(500, ServerError)
    else Ok(200, ListPage(docs, f, q.page.GetOr(DefaultPage), q.limit.GetOr(DefaultLimit)))
  }

  /** The page is the `(page-1)*limit`-th window of the matching posts,
      newest first. */
  lemma ListPageWindow(docs: seq<Post>, f: Filter, page: int, limit: int, k: int)
    requires page >= 1 && limit >= 1
    requires 0 <= k < |ListPage(docs, f, page, limit).posts|
    ensures var sorted := NewestFirst(Matching(docs, f));
            Skip(page, limit) + k < |sorted|
            && ListPage(docs, f, page, limit).posts[k] == sorted[Skip(page, limit) + k]
  {
  }

  /** A caller that is absent, or neither admin nor author, only ever lists
      published posts, whatever status it asks for. */
  lemma {:induction false} ListingHidesUnpublished(docs: seq<Post>, caller: Option<User>, q: PostQuery)
    requires q.page.None? || q.page.value >= 1
    requires q.limit.None? || q.limit.value >= 1
    requires !Privileged(caller)
    ensures var r := GetPosts(docs, caller, q);
            r.Ok? ==> forall k :: 0 <= k < |r.value.posts| ==> r.value.posts[k].status == Published
    ensures GetPosts(docs, caller, q) == GetPosts(docs, caller, q.(status := None))
  {
    assert QueryFilter(q, caller) == QueryFilter(q.(status := None), caller);
  }

  /** An admin or author asking for a status sees exactly the posts of that
      status that match the other conditions. */
  lemma {:induction false} PrivilegedStatusFilter(docs: seq<Post>, caller: Option<User>, q: PostQuery, p: Post)
    requires Privileged(caller) && Truthy(q.status)
    requires q.page.None? || q.page.value >= 1
    requires q.limit.None? || q.limit.value >= 1
    ensures p in Matching(docs, QueryFilter(q, caller)) <==>
              p in docs && p.status == q.status.value && Matches(QueryFilter(q.(status := None), caller), p)
  {
    var f := QueryFilter(q, caller);
    if p in docs && Matches(f, p) {
      var k :| 0 <= k < |docs| && docs[k] == p;
      assert docs[k] in Matching(docs, f);
    }
  }

  // ---------------------------------------------------------------- lookups

  /** `findById`: the position of the post with this id, or -1. */
  function IndexOf(docs: seq<Post>, id: string): (i: int)
    ensures -1 <= i < |docs|
    ensures i >= 0 ==> docs[i].id == id
    ensures i < 0 <==> forall k :: 0 <= k < |docs| ==> docs[k].id != id
  {
    FirstIndex(docs, (p: Post) => p.id == id)
  }

  /** The ownership check of update and delete: the recorded author or an
      admin. */
  predicate CanModify(p: Post, caller: User) {
    p.author == caller.id || caller.role == AdminRole
  }

  // ---------------------------------------------------------------- update

  /** The update `updatePost` sends: each submitted field replaces the stored
      one only when truthy, tags are re-split, and `updatedAt` is stamped.
      No validator runs on this write. */
  function MergeUpdate(p: Post, b: PostBody, now: int): (q: Post)
    ensures q.id == p.id && q.slug == p.slug && q.description == p.description
    ensures q.author == p.author && q.viewCount == p.viewCount && q.featured == p.featured
    ensures q.createdAt == p.createdAt && q.updatedAt == now
    ensures q.title == (if Truthy(b.title) then b.title else p.title)
    ensures q.content == (if Truthy(b.content) then b.content else p.content)
    ensures q.summary == (if Truthy(b.summary) then b.summary else p.summary)
    ensures q.category == (if Truthy(b.category) then b.category else p.category)
    ensures q.subCategory == (if Truthy(b.subCategory) then b.subCategory else p.subCategory)
    ensures q.tags == (if Truthy(b.tags) then SplitTags(b.tags) else p.tags)
    ensures q.featuredImage == (if Truthy(b.featuredImage) then b.featuredImage else p.featuredImage)
    ensures q.images == (if b.images.Some? then b.images.value else p.images)
    ensures q.sections == (if b.sections.Some? then b.sections.value else p.sections)
    ensures q.meta == (if b.meta.Some? then b.meta else p.meta)
    ensures q.status == (if Truthy(b.status) then b.status.value else p.status)
  {
    p.(
      title := OrElse(b.title, p.title),
      content := OrElse(b.content, p.content),
      summary := OrElse(b.summary, p.summary),
      category := OrElse(b.category, p.category),
      subCategory := OrElse(b.subCategory, p.subCategory),
      tags := if Truthy(b.tags) then SplitTags(b.tags) else p.tags,
      featuredImage := OrElse(b.featuredImage, p.featuredImage),
      images := b.images.GetOr(p.images),
      sections := b.sections.GetOr(p.sections),
      meta := if b.meta.Some? then b.meta else p.meta,
      status := if Truthy(b.status) then b.status.value else p.status,
      updatedAt := now)
  }

  /** The body with no field submitted. */
  const EmptyBody := PostBody(None, None, None, None, None, None, None, None, None, None, None, None, None, None)

  /** A body holding only a title changes the title and the update stamp and
      nothing else: content, tags and status stay as they were. */
  lemma TitleOnlyUpdate(p: Post, title: string, now: int)
    requires title != ""
    ensures MergeUpdate(p, EmptyBody.(title := Some(title)), now) == p.(title := Some(title), updatedAt := now)
  {
  }

  /** Applying the same update twice is applying it once. */
  lemma MergeIdempotent(p: Post, b: PostBody, t1: int, t2: int)
    ensures MergeUpdate(MergeUpdate(p, b, t1), b, t2) == MergeUpdate(p, b, t2)
  {
  }

  /** Finding: the status of an update is stored without the enum check, so
      "deleted" is kept as the post's status and the post no longer passes
      the schema. */
  lemma {:induction false} UpdateStoresUnknownStatus(p: Post, now: int)
    requires PostValid(p)
    ensures var q := MergeUpdate(p, EmptyBody.(status := Some("deleted")), now);
            q.status == "deleted" && !PostValid(q)
  {
  }

  /** The update the schema evidently expects: the merged post is checked by
      the validators, and an update they refuse changes nothing. */
  function ValidatedUpdate(p: Post, b: PostBody, now: int): (r: Option<Post>)
    requires PostValid(p)
    ensures r.Some? ==> PostValid(r.value) && r.value == MergeUpdate(p, b, now)
    ensures r.None? <==> (Truthy(b.status) && !IsStatus(b.status.value))
                         || (Truthy(b.category) && !IsObjectId(b.category.value))
                         || (Truthy(b.subCategory) && !IsObjectId(b.subCategory.value))
  {
    var q := MergeUpdate(p, b, now);
    if PostValid(q) then Some(q) else None
  }

  /** The store casts the id paths of the update; a value that is not an id
      makes it throw. */
  predicate UpdateCasts(b: PostBody) {
    (!Truthy(b.category) || IsObjectId(b.category.value))
    && (!Truthy(b.subCategory) || IsObjectId(b.subCategory.value))
  }

  // ---------------------------------------------------------------- related

  /** The candidates of `getRelatedPosts`: other published posts of the same
      category. */
  predicate RelatedTo(src: Post, p: Post) {
    p.id != src.id && p.category == src.category && p.status == Published
  }

  function Candidates(docs: seq<Post>, src: Post): seq<Post> {
    Keep(docs, p => RelatedTo(src, p))
  }

  /** Every post of a window of the newest-first candidates is a stored
      candidate. */
  lemma {:induction false} ShownAreCandidates(docs: seq<Post>, src: Post, skip: nat, limit: nat)
    ensures var shown := Window(NewestFirst(Candidates(docs, src)), skip, limit);
            forall k :: 0 <= k < |shown| ==> shown[k] in docs && RelatedTo(src, shown[k])
  {
    var c := Candidates(docs, src);
    var sorted := NewestFirst(c);
    var shown := Window(sorted, skip, limit);
    forall k | 0 <= k < |shown| ensures shown[k] in docs && RelatedTo(src, shown[k]) {
      assert shown[k] == sorted[skip + k];
      assert shown[k] in multiset(sorted);
      assert shown[k] in c;
    }
  }

  /** Up to three candidates, newest first. */
  function Related(docs: seq<Post>, src: Post): (r: seq<Post>)
    ensures |r| <= RelatedLimit
    ensures |r| == if |Candidates(docs, src)| < RelatedLimit then |Candidates(docs, src)| else RelatedLimit
    ensures forall k :: 0 <= k < |r| ==> r[k] in docs && RelatedTo(src, r[k])
    ensures forall j, k :: 0 <= j < k < |r| ==> r[j].createdAt >= r[k].createdAt
    ensures multiset(r) <= multiset(Candidates(docs, src))
  {
    var sorted := NewestFirst(Candidates(docs, src));
    ShownAreCandidates(docs, src, 0, RelatedLimit);
    WindowWithin(sorted, 0, RelatedLimit);
    Window(sorted, 0, RelatedLimit)
  }

  /** No candidate left out of the related posts is newer than any of them. */
  lemma {:induction false} RelatedAreNewest(docs: seq<Post>, src: Post, c: Post)
    requires c in Candidates(docs, src) && c !in Related(docs, src)
    ensures forall k :: 0 <= k < |Related(docs, src)| ==> Related(docs, src)[k].createdAt >= c.createdAt
  {
    var sorted := NewestFirst(Candidates(docs, src));
    var r := Related(docs, src);
    assert c in multiset(sorted);
    var j :| 0 <= j < |sorted| && sorted[j] == c;
    assert r == Window(sorted, 0, RelatedLimit);
    assert forall i :: 0 <= i < |r| ==> sorted[i] == r[i] && sorted[i] != c;
    assert |r| <= j;
    forall k | 0 <= k < |r| ensures r[k].createdAt >= c.createdAt {
      assert r[k] == sorted[k];
    }
  }

  /** `getRelatedPosts`. */
  function GetRelatedPosts(docs: seq<Post>, id: string): (r: Reply<seq<Post>>)
    ensures !IsObjectId(id) ==> r == Fail(404, NoPostWithId)
    ensures IsObjectId(id) && IndexOf(docs, id) < 0 ==> r == Fail(404, PostNotFound)
    ensures IsObjectId(id) && IndexOf(docs, id) >= 0 ==> r == Ok(200, Related(docs, docs[IndexOf(docs, id)]))
    ensures r.Ok? ==> r.code == 200 && IndexOf(docs, id) >= 0 && |r.value| <= RelatedLimit
    ensures r.Ok? ==> forall k :: 0 <= k < |r.value| ==>
              r.value[k].id != id && r.value[k].status == Published
              && r.value[k].category == docs[IndexOf(docs, id)].category
  {
    if !IsObjectId(id) then Fail(404, NoPostWithId)
    else
      var i := IndexOf(docs, id);
      if i < 0 then Fail(404, PostNotFound)
      else Ok(200, Related(docs, docs[i]))
  }

  // ---------------------------------------------------------------- the store

  /** The post collection, in the order the store holds it. */
  class PostStore {
    var docs: seq<Post>

    ghost predicate Valid()
      reads this
    {
      IdsUnique(docs) && SlugsUnique(docs)
    }

    constructor (docs: seq<Post>)
      requires IdsUnique(docs) && SlugsUnique(docs)
      ensures Valid() && this.docs == docs
    {
      this.docs := docs;
    }

    /** `save()` of a new document: the validators run, then the unique
        index on `slug`; either failure is thrown and answered with 500. */
    method Insert(p: Post) returns (r: Reply<Post>)
      requires Valid()
      requires IndexOf(docs, p.id) < 0
      modifies this
      ensures Valid()
      ensures var accepted := PostValid(p) && forall k :: 0 <= k < |old(docs)| ==> old(docs)[k].slug != p.slug;
              if accepted then docs == old(docs) + [p] && r == Ok(201, p)
              else docs == old(docs) && r == Fail(500, ServerError)
    {
      if !PostValid(p) {
        return Fail(500, ServerError);
      }
      var k := 0;
      while k < |docs|
        invariant 0 <= k <= |docs|
        invariant forall j :: 0 <= j < k ==> docs[j].slug != p.slug
      {
        if docs[k].slug == p.slug {
          return Fail(500, ServerError);
        }
        k := k + 1;
      }
      docs := docs + [p];
      r := Ok(201, p);
    }

    /** `createPost` as written: it builds the record and saves it, and the
        save always fails because the record has no slug. */
    method CreatePost(caller: User, body: PostBody, newId: string, now: int) returns (r: Reply<Post>)
      requires Valid()
      requires IndexOf(docs, newId) < 0
      modifies this
      ensures Valid()
      ensures r == Fail(500, ServerError) && docs == old(docs)
    {
      var post := BuildPost(caller, body, newId, now);
      BuildPostNeverValid(caller, body, newId, now);
      r := Insert(post);
    }

    /** Creation with the slug and description copied from the body: a valid
        post with a fresh slug is appended, anything else is refused with
        500 and changes nothing. */
    method CreatePostWithSlug(caller: User, body: PostBody, newId: string, now: int) returns (r: Reply<Post>)
      requires Valid()
      requires IndexOf(docs, newId) < 0
      modifies this
      ensures Valid()
      ensures var p := BuildPostWithSlug(caller, body, newId, now);
              if PostValid(p) && forall k :: 0 <= k < |old(docs)| ==> old(docs)[k].slug != body.slug
              then docs == old(docs) + [p] && r == Ok(201, p) && p.author == caller.id
              else docs == old(docs) && r == Fail(500, ServerError)
    {
      var post := BuildPostWithSlug(caller, body, newId, now);
      r := Insert(post);
    }

    /** `getPostById`: a malformed or unknown id gives 404 and changes
        nothing; otherwise exactly that post's view count goes up by one and
        the reply carries the incremented post. The save validates the whole
        post, so a stored post the schema refuses answers 500 instead. */
    method GetPostById(id: string) returns (r: Reply<Post>)
      requires Valid()
      modifies this
      ensures Valid()
      ensures !IsObjectId(id) ==> r == Fail(404, NoPostWithId) && docs == old(docs)
      ensures IsObjectId(id) && IndexOf(old(docs), id) < 0 ==> r == Fail(404, PostNotFound) && docs == old(docs)
      ensures IsObjectId(id) && IndexOf(old(docs), id) >= 0 ==>
                var i := IndexOf(old(docs), id);
                var viewed := old(docs)[i].(viewCount := old(docs)[i].viewCount + 1);
                if PostValid(old(docs)[i]) then docs == old(docs)[i := viewed] && r == Ok(200, viewed)
                else docs == old(docs) && r == Fail(500, ServerError)
    {
      if !IsObjectId(id) {
        return Fail(404, NoPostWithId);
      }
      var i := IndexOf(docs, id);
      if i < 0 {
        return Fail(404, PostNotFound);
      }
      var post := docs[i];
      post := post.(viewCount := post.viewCount + 1);
      if !PostValid(post) {
        return Fail(500, ServerError);
      }
      docs := docs[i := post];
      r := Ok(200, post);
    }

    /** `updatePost`: 404 for a malformed or unknown id, 403 unless the
        caller is the author or an admin, 500 when an id field of the body is
        not an id; otherwise the post is replaced by the merge, with no
        validation. Nothing else changes. */
    method UpdatePost(caller: User, id: string, body: PostBody, now: int) returns (r: Reply<Post>)
      requires Valid()
      modifies this
      ensures Valid()
      ensures !IsObjectId(id) ==> r == Fail(404, NoPostWithId) && docs == old(docs)
      ensures IsObjectId(id) && IndexOf(old(docs), id) < 0 ==> r == Fail(404, PostNotFound) && docs == old(docs)
      ensures IsObjectId(id) && IndexOf(old(docs), id) >= 0 ==>
                var i := IndexOf(old(docs), id);
                if !CanModify(old(docs)[i], caller) then r == Fail(403, NotAuthorizedToUpdate) && docs == old(docs)
                else if !UpdateCasts(body) then r == Fail(500, ServerError) && docs == old(docs)
                else docs == old(docs)[i := MergeUpdate(old(docs)[i], body, now)]
                     && r == Ok(200, MergeUpdate(old(docs)[i], body, now))
    {
      if !IsObjectId(id) {
        return Fail(404, NoPostWithId);
      }
      var i := IndexOf(docs, id);
      if i < 0 {
        return Fail(404, PostNotFound);
      }
      var post := docs[i];
      if post.author != caller.id && caller.role != AdminRole {
        return Fail(403, NotAuthorizedToUpdate);
      }
      if !UpdateCasts(body) {
        return Fail(500, ServerError);
      }
      var updated := MergeUpdate(post, body, now);
      docs := docs[i := updated];
      r := Ok(200, updated);
    }

    /** The update with the validators run: a merge the schema refuses is
        answered 500 and changes nothing, so every stored post keeps passing
        the schema and the detail read never fails on one. */
    method UpdatePostValidated(caller: User, id: string, body: PostBody, now: int) returns (r: Reply<Post>)
      requires Valid() && AllValid(docs)
      modifies this
      ensures Valid() && AllValid(docs)
      ensures !IsObjectId(id) ==> r == Fail(404, NoPostWithId) && docs == old(docs)
      ensures IsObjectId(id) && IndexOf(old(docs), id) < 0 ==> r == Fail(404, PostNotFound) && docs == old(docs)
      ensures IsObjectId(id) && IndexOf(old(docs), id) >= 0 ==>
                var i := IndexOf(old(docs), id);
                if !CanModify(old(docs)[i], caller) then r == Fail(403, NotAuthorizedToUpdate) && docs == old(docs)
                else match ValidatedUpdate(old(docs)[i], body, now)
                     case None => r == Fail(500, ServerError) && docs == old(docs)
                     case Some(q) => docs == old(docs)[i := q] && r == Ok(200, q)
    {
      if !IsObjectId(id) {
        return Fail(404, NoPostWithId);
      }
      var i := IndexOf(docs, id);
      if i < 0 {
        return Fail(404, PostNotFound);
      }
      var post := docs[i];
      if post.author != caller.id && caller.role != AdminRole {
        return Fail(403, NotAuthorizedToUpdate);
      }
      var updated := ValidatedUpdate(post, body, now);
      if updated.None? {
        return Fail(500, ServerError);
      }
      docs := docs[i := updated.value];
      r := Ok(200, updated.value);
    }

    /** `deletePost`: the same 404 and 403 answers as update; otherwise
        exactly the post with this id is removed and the others keep their
        order. */
    method DeletePost(caller: User, id: string) returns (r: Reply<string>)
      requires Valid()
      modifies this
      ensures Valid()
      ensures !IsObjectId(id) ==> r == Fail(404, NoPostWithId) && docs == old(docs)
      ensures IsObjectId(id) && IndexOf(old(docs), id) < 0 ==> r == Fail(404, PostNotFound) && docs == old(docs)
      ensures IsObjectId(id) && IndexOf(old(docs), id) >= 0 ==>
                var i := IndexOf(old(docs), id);
                if !CanModify(old(docs)[i], caller) then r == Fail(403, NotAuthorizedToDelete) && docs == old(docs)
                else docs == old(docs)[..i] + old(docs)[i + 1..] && r == Ok(200, PostDeleted)
      ensures r.Ok? ==> |docs| == |old(docs)| - 1 && IndexOf(docs, id) < 0
    {
      if !IsObjectId(id) {
        return Fail(404, NoPostWithId);
      }
      var i := IndexOf(docs, id);
      if i < 0 {
        return Fail(404, PostNotFound);
      }
      if docs[i].author != caller.id && caller.role != AdminRole {
        return Fail(403, NotAuthorizedToDelete);
      }
      ghost var before := docs;
      docs := docs[..i] + docs[i + 1..];
      assert forall k :: 0 <= k < |docs| ==> docs[k] == (if k < i then before[k] else before[k + 1]);
      r := Ok(200, PostDeleted);
    }
  }
}
