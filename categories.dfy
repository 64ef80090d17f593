/** The category and sub-category handlers (controllers/categories.js). The
    collection is a `CategoryStore`; the sub-category handlers load one
    category as a `CategoryDoc`, change its embedded sequence in place
    (`push`, field assignment, `splice`), stamp it and save it back. */
module Categories {
  import opened Common
  import opened Text
  import opened Cursor
  import opened CategoryModel

  const SlugExists := "Category with this slug already exists"
  const InvalidCategoryId := "Invalid category ID"
  const CategoryNotFound := "Category not found"
  const CategoryDeleted := "Category deleted successfully"
  const SubSlugExists := "Subcategory with this slug already exists"
  const InvalidId := "Invalid ID"
  const SubNotFound := "Subcategory not found"
  const SubDeleted := "Subcategory deleted successfully"

  /** The JSON body of every category and sub-category write. */
  datatype Body = Body(name: Option<string>, slug: Option<string>, description: Option<string>)

  // ---------------------------------------------------------------- lookups

  /** `findById`: the position of the category with this id, or -1. */
  function IndexOf(docs: seq<Category>, id: string): (i: int)
    ensures -1 <= i < |docs|
    ensures i >= 0 ==> docs[i].id == id
    ensures i < 0 <==> forall k :: 0 <= k < |docs| ==> docs[k].id != id
  {
    FirstIndex(docs, (c: Category) => c.id == id)
  }

  /** The condition `{ slug }` of a query: a category holding this slug. A
      query without a slug is taken to match no category. */
  predicate HoldsSlug(c: Category, slug: Option<string>) {
    slug.Some? && c.slug == slug
  }

  /** `findOne({ slug })`: the first category holding the slug, or -1. */
  function SlugIndex(docs: seq<Category>, slug: Option<string>): (i: int)
    ensures -1 <= i < |docs|
    ensures i >= 0 ==> HoldsSlug(docs[i], slug)
    ensures i < 0 <==> forall k :: 0 <= k < |docs| ==> !HoldsSlug(docs[k], slug)
  {
    FirstIndex(docs, (c: Category) => HoldsSlug(c, slug))
  }

  /** `findOne({ slug, _id: { $ne: id } })`: whether a category other than
      `id` holds the slug. */
  predicate SlugHeldByOther(docs: seq<Category>, slug: Option<string>, id: string) {
    exists k :: 0 <= k < |docs| && docs[k].id != id && HoldsSlug(docs[k], slug)
  }

  /** `findIndex(sub => sub._id.toString() === id)`. */
  method FindSubIndex(subs: seq<SubCategory>, id: string) returns (i: int)
    ensures i == SubIndex(subs, id)
    ensures -1 <= i < |subs|
    ensures i >= 0 ==> subs[i].id == id && forall k :: 0 <= k < i ==> subs[k].id != id
    ensures i < 0 <==> forall k :: 0 <= k < |subs| ==> subs[k].id != id
  {
    i := 0;
    while i < |subs|
      invariant 0 <= i <= |subs|
      invariant forall k :: 0 <= k < i ==> subs[k].id != id
    {
      if subs[i].id == id {
        return;
      }
      i := i + 1;
    }
    i := -1;
  }

  /** `some(sub => sub.slug === slug && sub._id.toString() !== except)`; with
      no `except`, the plain slug test of creation. */
  method SiblingHasSlug(subs: seq<SubCategory>, slug: Option<string>, except: Option<string>) returns (b: bool)
    ensures b <==> exists k :: 0 <= k < |subs| && subs[k].slug == slug
                                && (except.None? || subs[k].id != except.value)
  {
    b := false;
    var i := 0;
    while i < |subs|
      invariant 0 <= i <= |subs|
      invariant forall k :: 0 <= k < i ==> !(subs[k].slug == slug && (except.None? || subs[k].id != except.value))
    {
      if subs[i].slug == slug && (except.None? || subs[i].id != except.value) {
        return true;
      }
      i := i + 1;
    }
  }

  /** The position of the first sub-category with this id, or -1: what
      `FindSubIndex` computes. */
  function SubIndex(subs: seq<SubCategory>, id: string): (i: int)
    ensures -1 <= i < |subs|
    ensures i >= 0 ==> subs[i].id == id && forall k :: 0 <= k < i ==> subs[k].id != id
    ensures i < 0 <==> forall k :: 0 <= k < |subs| ==> subs[k].id != id
  {
    FirstIndex(subs, (s: SubCategory) => s.id == id)
  }

  // ---------------------------------------------------------------- reads

  /** `sort({ name: 1 })`: a category without a name comes first, names in
      code-point order. */
  predicate NameOrder(a: Category, b: Category) {
    a.name.None? || (b.name.Some? && LexLe(a.name.value, b.name.value))
  }

  lemma NameOrderTotal()
    ensures forall a: Category, b: Category :: NameOrder(a, b) || NameOrder(b, a)
  {
    forall a: Category, b: Category ensures NameOrder(a, b) || NameOrder(b, a) {
      if a.name.Some? && b.name.Some? {
        LexTotal(a.name.value, b.name.value);
      }
    }
  }

  lemma NameOrderTransitive()
    ensures forall a: Category, b: Category, c: Category :: NameOrder(a, b) && NameOrder(b, c) ==> NameOrder(a, c)
  {
    forall a: Category, b: Category, c: Category | NameOrder(a, b) && NameOrder(b, c)
      ensures NameOrder(a, c)
    {
      if a.name.Some? {
        LexTransitive(a.name.value, b.name.value, c.name.value);
      }
    }
  }

  /** `getCategories`: every category, ordered by name. */
  function GetCategories(docs: seq<Category>): (r: seq<Category>)
    ensures multiset(r) == multiset(docs)
    ensures forall i, j :: 0 <= i < j < |r| ==> NameOrder(r[i], r[j])
  {
    var r := Sort(docs, NameOrder);
    NameOrderTotal();
    NameOrderTransitive();
    SortSorted(docs, NameOrder);
    forall i, j | 0 <= i < j < |r| ensures NameOrder(r[i], r[j]) {
      SortedPairwise(r, NameOrder, i, j);
    }
    r
  }

  /** `getCategoryByIdOrSlug`: an id-shaped identifier is looked up as an id
      only, anything else as a slug; no match is 404. */
  function GetCategoryByIdOrSlug(docs: seq<Category>, identifier: string): (r: Reply<Category>)
    ensures IsObjectId(identifier) ==>
              (r.Ok? <==> IndexOf(docs, identifier) >= 0)
              && (r.Ok? ==> r.value.id == identifier && r.value in docs)
    ensures !IsObjectId(identifier) ==>
              (r.Ok? <==> exists k :: 0 <= k < |docs| && docs[k].slug == Some(identifier))
              && (r.Ok? ==> r.value.slug == Some(identifier) && r.value in docs)
    ensures r.Fail? ==> r == Fail(404, CategoryNotFound)
    ensures r.Ok? ==> r.code == 200
  {
    var i := if IsObjectId(identifier) then IndexOf(docs, identifier) else SlugIndex(docs, Some(identifier));
    if i < 0 then Fail(404, CategoryNotFound) else Ok(200, docs[i])
  }

  /** An id-shaped identifier never falls back to a slug: a category whose
      slug looks like an id is not found by it. */
  lemma IdShapedSlugNotFound(docs: seq<Category>, identifier: string)
    requires IsObjectId(identifier)
    requires forall k :: 0 <= k < |docs| ==> docs[k].id != identifier
    ensures GetCategoryByIdOrSlug(docs, identifier) == Fail(404, CategoryNotFound)
  {
  }

  /** `getSubCategories`: the embedded sequence of the category, in order. */
  function GetSubCategories(docs: seq<Category>, categoryId: string): (r: Reply<seq<SubCategory>>)
    ensures !IsObjectId(categoryId) ==> r == Fail(404, InvalidCategoryId)
    ensures IsObjectId(categoryId) && IndexOf(docs, categoryId) < 0 ==> r == Fail(404, CategoryNotFound)
    ensures IsObjectId(categoryId) && IndexOf(docs, categoryId) >= 0 ==>
              r == Ok(200, docs[IndexOf(docs, categoryId)].subCategories)
    ensures r.Ok? ==> exists k :: 0 <= k < |docs| && docs[k].id == categoryId && r.value == docs[k].subCategories
  {
    if !IsObjectId(categoryId) then Fail(404, InvalidCategoryId)
    else
      var i := IndexOf(docs, categoryId);
      if i < 0 then Fail(404, CategoryNotFound) else Ok(200, docs[i].subCategories)
  }

  // ---------------------------------------------------------------- a loaded category

  /** One category document loaded from the store, whose fields the
      sub-category handlers assign before saving it back. */
  class CategoryDoc {
    const id: string
    var name: Option<string>
    var slug: Option<string>
    var description: Option<string>
    var subCategories: seq<SubCategory>
    const createdAt: int
    var updatedAt: int

    constructor Load(c: Category)
      ensures Value() == c
    {
      id := c.id;
      name := c.name;
      slug := c.slug;
      description := c.description;
      subCategories := c.subCategories;
      createdAt := c.createdAt;
      updatedAt := c.updatedAt;
    }

    /** The document as the store would hold it. */
    function Value(): Category
      reads this
    {
      Category(id, name, slug, description, subCategories, createdAt, updatedAt)
    }

    /** `subCategories.push(sub)`. */
    method PushSubCategory(sub: SubCategory)
      modifies this`subCategories
      ensures Value() == old(Value()).(subCategories := old(subCategories) + [sub])
    {
      subCategories := subCategories + [sub];
    }

    /** Assigning the fields of the sub-category at `index`. */
    method SetSubCategory(index: nat, sub: SubCategory)
      requires index < |subCategories|
      modifies this`subCategories
      ensures Value() == old(Value()).(subCategories := old(subCategories)[index := sub])
    {
      subCategories := subCategories[index := sub];
    }

    /** `subCategories.splice(index, 1)`. */
    method SpliceSubCategory(index: nat)
      requires index < |subCategories|
      modifies this`subCategories
      ensures Value() == old(Value()).(subCategories := old(subCategories)[..index] + old(subCategories)[index + 1..])
    {
      subCategories := subCategories[..index] + subCategories[index + 1..];
    }

    /** `category.updatedAt = new Date()`. */
    method Touch(now: int)
      modifies this`updatedAt
      ensures Value() == old(Value()).(updatedAt := now)
    {
      updatedAt := now;
    }
  }

  // ---------------------------------------------------------------- sub-category edits

  /** The sub-category `updateSubCategory` leaves: only truthy fields of the
      body overwrite, and the sub-category is stamped. */
  function EditSub(s: SubCategory, b: Body, now: int): (t: SubCategory)
    ensures t.id == s.id && t.createdAt == s.createdAt && t.updatedAt == now
    ensures t.name == (if Truthy(b.name) then b.name else s.name)
    ensures t.slug == (if Truthy(b.slug) then b.slug else s.slug)
    ensures t.description == (if Truthy(b.description) then b.description else s.description)
  {
    s.(name := OrElse(b.name, s.name), slug := OrElse(b.slug, s.slug),
       description := OrElse(b.description, s.description), updatedAt := now)
  }

  /** The fields `findByIdAndUpdate` sets in `updateCategory`: each field of
      the body that is present, even empty; absent ones are dropped from the
      update. */
  function EditCategory(c: Category, b: Body, now: int): (d: Category)
    ensures d.id == c.id && d.subCategories == c.subCategories && d.createdAt == c.createdAt
    ensures d.updatedAt == now
    ensures d.name == (if b.name.Some? then b.name else c.name)
    ensures d.slug == (if b.slug.Some? then b.slug else c.slug)
    ensures d.description == (if b.description.Some? then b.description else c.description)
  {
    c.(name := if b.name.Some? then b.name else c.name,
       slug := if b.slug.Some? then b.slug else c.slug,
       description := if b.description.Some? then b.description else c.description,
       updatedAt := now)
  }

  /** The category after `push` of a new sub-category and the stamp. */
  function WithSub(c: Category, sub: SubCategory, now: int): Category {
    c.(subCategories := c.subCategories + [sub], updatedAt := now)
  }

  /** The category after the sub-category at `j` is edited and both are
      stamped. */
  function WithEditedSub(c: Category, j: nat, b: Body, now: int): Category
    requires j < |c.subCategories|
  {
    c.(subCategories := c.subCategories[j := EditSub(c.subCategories[j], b, now)], updatedAt := now)
  }

  /** The category after `splice(j, 1)` and the stamp. */
  function WithoutSub(c: Category, j: nat, now: int): Category
    requires j < |c.subCategories|
  {
    c.(subCategories := c.subCategories[..j] + c.subCategories[j + 1..], updatedAt := now)
  }

  /** Sibling slugs stay distinct in every category. */
  ghost predicate AllSiblingSlugsUnique(docs: seq<Category>) {
    forall k :: 0 <= k < |docs| ==> SiblingSlugsUnique(docs[k].subCategories)
  }

  /** Appending a sub-category with a fresh id keeps sibling ids distinct,
      and one whose slug no sibling holds keeps sibling slugs distinct. */
  lemma {:induction false} AppendKeepsUnique(subs: seq<SubCategory>, sub: SubCategory)
    ensures SubIdsUnique(subs) && (forall k :: 0 <= k < |subs| ==> subs[k].id != sub.id) ==>
              SubIdsUnique(subs + [sub])
    ensures SiblingSlugsUnique(subs) && (forall k :: 0 <= k < |subs| ==> subs[k].slug != sub.slug) ==>
              SiblingSlugsUnique(subs + [sub])
  {
    var r := subs + [sub];
    assert forall k :: 0 <= k < |subs| ==> r[k] == subs[k];
    assert r[|subs|] == sub;
  }

  /** Removing one sub-category keeps sibling ids and slugs distinct and the
      others in their order. */
  lemma {:induction false} RemoveKeepsUnique(subs: seq<SubCategory>, index: nat)
    requires index < |subs|
    ensures var r := subs[..index] + subs[index + 1..];
            && |r| == |subs| - 1
            && (forall k :: 0 <= k < index ==> r[k] == subs[k])
            && (forall k :: index <= k < |r| ==> r[k] == subs[k + 1])
            && (SubIdsUnique(subs) ==> SubIdsUnique(r))
            && (SiblingSlugsUnique(subs) ==> SiblingSlugsUnique(r))
  {
    var r := subs[..index] + subs[index + 1..];
    assert forall k :: 0 <= k < |r| ==> r[k] == (if k < index then subs[k] else subs[k + 1]);
    forall i, j | 0 <= i < j < |r|
      ensures SubIdsUnique(subs) ==> r[i].id != r[j].id
      ensures SiblingSlugsUnique(subs) ==> r[i].slug != r[j].slug
    {
      var i' := if i < index then i else i + 1;
      var j' := if j < index then j else j + 1;
      assert r[i] == subs[i'] && r[j] == subs[j'] && i' < j';
    }
  }

  /** Replacing a sub-category by one with the same id keeps sibling ids
      distinct, and by one whose slug no other sibling holds keeps sibling
      slugs distinct. */
  lemma {:induction false} ReplaceKeepsUnique(subs: seq<SubCategory>, index: nat, sub: SubCategory)
    requires index < |subs|
    ensures SubIdsUnique(subs) && sub.id == subs[index].id ==> SubIdsUnique(subs[index := sub])
    ensures SiblingSlugsUnique(subs) && (forall k :: 0 <= k < |subs| && k != index ==> subs[k].slug != sub.slug) ==>
              SiblingSlugsUnique(subs[index := sub])
  {
    var r := subs[index := sub];
    assert forall k :: 0 <= k < |subs| && k != index ==> r[k] == subs[k];
  }

  /** Writing back one category whose siblings have distinct slugs keeps
      sibling slugs distinct in every category. */
  lemma ReplaceKeepsAllSiblingSlugsUnique(docs: seq<Category>, i: nat, c: Category)
    requires i < |docs|
    requires AllSiblingSlugsUnique(docs) && SiblingSlugsUnique(c.subCategories)
    ensures AllSiblingSlugsUnique(docs[i := c])
  {
  }

  // ---------------------------------------------------------------- the store

  /** The category collection, in the order the store holds it. */
  class CategoryStore {
    var docs: seq<Category>

    /** Category ids are well formed and distinct, no two categories hold
        the same slug (the unique index), and the ids of the sub-categories
        within each category are distinct. */
    ghost predicate Valid()
      reads this
    {
      && IdsUnique(docs)
      && SlugsUnique(docs)
      && forall k :: 0 <= k < |docs| ==> SubIdsUnique(docs[k].subCategories)
    }

    constructor (docs: seq<Category>)
      requires IdsUnique(docs) && SlugsUnique(docs)
      requires forall k :: 0 <= k < |docs| ==> SubIdsUnique(docs[k].subCategories)
      ensures Valid() && this.docs == docs
    {
      this.docs := docs;
    }

    /** `createCategory`: a slug some category already holds is 400 and
        changes nothing; otherwise the new category is validated (500 when
        name or slug is missing) and appended. */
    method CreateCategory(body: Body, newId: string, now: int) returns (r: Reply<Category>)
      requires Valid() && IsObjectId(newId) && IndexOf(docs, newId) < 0
      modifies this
      ensures Valid()
      ensures (exists k :: 0 <= k < |old(docs)| && HoldsSlug(old(docs)[k], body.slug)) ==>
                r == Fail(400, SlugExists) && docs == old(docs)
      ensures (forall k :: 0 <= k < |old(docs)| ==> !HoldsSlug(old(docs)[k], body.slug)) ==>
                var c := Category(newId, body.name, body.slug, body.description, [], now, now);
                if CategoryValid(c) then docs == old(docs) + [c] && r == Ok(201, c)
                else docs == old(docs) && r == Fail(500, ServerError)
      ensures old(AllSiblingSlugsUnique(docs)) ==> AllSiblingSlugsUnique(docs)
    {
      if SlugIndex(docs, body.slug) >= 0 {
        return Fail(400, SlugExists);
      }
      var c := Category(newId, body.name, body.slug, body.description, [], now, now);
      if !CategoryValid(c) {
        return Fail(500, ServerError);
      }
      ghost var before := docs;
      docs := docs + [c];
      assert forall k :: 0 <= k < |before| ==> docs[k] == before[k];
      r := Ok(201, c);
    }

    /** `updateCategory`: a malformed id is 404; a slug held by another
        category is 400 (checked before the category is looked up, and never
        against the category's own slug); an unknown id is then 404.
        Otherwise the present fields are written as given, with no
        validation. */
    method UpdateCategory(id: string, body: Body, now: int) returns (r: Reply<Category>)
      requires Valid()
      modifies this
      ensures Valid()
      ensures !IsObjectId(id) ==> r == Fail(404, InvalidCategoryId) && docs == old(docs)
      ensures IsObjectId(id) && SlugHeldByOther(old(docs), body.slug, id) ==>
                r == Fail(400, SlugExists) && docs == old(docs)
      ensures IsObjectId(id) && !SlugHeldByOther(old(docs), body.slug, id) && IndexOf(old(docs), id) < 0 ==>
                r == Fail(404, CategoryNotFound) && docs == old(docs)
      ensures IsObjectId(id) && !SlugHeldByOther(old(docs), body.slug, id) && IndexOf(old(docs), id) >= 0 ==>
                var i := IndexOf(old(docs), id);
                docs == old(docs)[i := EditCategory(old(docs)[i], body, now)]
                && r == Ok(200, EditCategory(old(docs)[i], body, now))
    {
      if !IsObjectId(id) {
        return Fail(404, InvalidCategoryId);
      }
      var k := 0;
      while k < |docs|
        invariant 0 <= k <= |docs|
        invariant forall j :: 0 <= j < k ==> !(docs[j].id != id && HoldsSlug(docs[j], body.slug))
      {
        if docs[k].id != id && HoldsSlug(docs[k], body.slug) {
          return Fail(400, SlugExists);
        }
        k := k + 1;
      }
      var i := IndexOf(docs, id);
      if i < 0 {
        return Fail(404, CategoryNotFound);
      }
      ghost var before := docs;
      var updated := EditCategory(docs[i], body, now);
      docs := docs[i := updated];
      r := Ok(200, updated);
      forall a, b | 0 <= a < b < |docs| ensures docs[a].slug != docs[b].slug {
        if a == i || b == i {
          var other := if a == i then b else a;
          assert docs[other] == before[other] && before[other].id != id;
        }
      }
    }

    /** `deleteCategory`: a malformed or unknown id is 404; otherwise exactly
        that category, with all its sub-categories, is removed. */
    method DeleteCategory(id: string) returns (r: Reply<string>)
      requires Valid()
      modifies this
      ensures Valid()
      ensures !IsObjectId(id) ==> r == Fail(404, InvalidCategoryId) && docs == old(docs)
      ensures IsObjectId(id) && IndexOf(old(docs), id) < 0 ==> r == Fail(404, CategoryNotFound) && docs == old(docs)
      ensures IsObjectId(id) && IndexOf(old(docs), id) >= 0 ==>
                var i := IndexOf(old(docs), id);
                docs == old(docs)[..i] + old(docs)[i + 1..] && r == Ok(200, CategoryDeleted)
    {
      if !IsObjectId(id) {
        return Fail(404, InvalidCategoryId);
      }
      var i := IndexOf(docs, id);
      if i < 0 {
        return Fail(404, CategoryNotFound);
      }
      ghost var before := docs;
      docs := docs[..i] + docs[i + 1..];
      assert forall k :: 0 <= k < |docs| ==> docs[k] == (if k < i then before[k] else before[k + 1]);
      r := Ok(200, CategoryDeleted);
    }

    /** `category.save()`: the whole category is validated, then written
        back in place. */
    method Save(i: nat, doc: CategoryDoc) returns (ok: bool)
      requires Valid() && i < |docs| && doc.id == docs[i].id && doc.slug == docs[i].slug
      requires SubIdsUnique(doc.subCategories)
      modifies this
      ensures Valid()
      ensures ok == CategoryValid(doc.Value())
      ensures docs == if ok then old(docs)[i := doc.Value()] else old(docs)
    {
      ok := CategoryValid(doc.Value());
      if ok {
        docs := docs[i := doc.Value()];
      }
    }

    /** `createSubCategory`: 404 for a malformed or unknown parent; 400 when
        a sibling in this parent already holds the slug (other categories are
        not consulted); otherwise the new sub-category is appended after the
        existing ones and the parent is stamped and saved. */
    method CreateSubCategory(categoryId: string, body: Body, newSubId: string, now: int)
      returns (r: Reply<Category>)
      requires Valid()
      requires forall k, m :: 0 <= k < |docs| && 0 <= m < |docs[k].subCategories| ==>
                 docs[k].subCategories[m].id != newSubId
      modifies this
      ensures Valid()
      ensures !IsObjectId(categoryId) ==> r == Fail(404, InvalidCategoryId) && docs == old(docs)
      ensures IsObjectId(categoryId) && IndexOf(old(docs), categoryId) < 0 ==>
                r == Fail(404, CategoryNotFound) && docs == old(docs)
      ensures IsObjectId(categoryId) && IndexOf(old(docs), categoryId) >= 0 ==>
                var c := old(docs)[IndexOf(old(docs), categoryId)];
                (exists k :: 0 <= k < |c.subCategories| && c.subCategories[k].slug == body.slug) ==>
                  r == Fail(400, SubSlugExists) && docs == old(docs)
      ensures IsObjectId(categoryId) && IndexOf(old(docs), categoryId) >= 0 ==>
                var i := IndexOf(old(docs), categoryId);
                var c := old(docs)[i];
                var parent := WithSub(c, SubCategory(newSubId, body.name, body.slug, body.description, now, now), now);
                (forall k :: 0 <= k < |c.subCategories| ==> c.subCategories[k].slug != body.slug) ==>
                  if CategoryValid(parent) then docs == old(docs)[i := parent] && r == Ok(201, parent)
                  else docs == old(docs) && r == Fail(500, ServerError)
      ensures old(AllSiblingSlugsUnique(docs)) ==> AllSiblingSlugsUnique(docs)
    {
      if !IsObjectId(categoryId) {
        return Fail(404, InvalidCategoryId);
      }
      var i := IndexOf(docs, categoryId);
      if i < 0 {
        return Fail(404, CategoryNotFound);
      }
      var doc := new CategoryDoc.Load(docs[i]);
      var taken := SiblingHasSlug(doc.subCategories, body.slug, None);
      if taken {
        return Fail(400, SubSlugExists);
      }
      ghost var before := docs;
      var sub := SubCategory(newSubId, body.name, body.slug, body.description, now, now);
      AppendKeepsUnique(before[i].subCategories, sub);
      doc.PushSubCategory(sub);
      doc.Touch(now);
      assert doc.Value() == WithSub(before[i], sub, now);
      if AllSiblingSlugsUnique(before) {
        ReplaceKeepsAllSiblingSlugsUnique(before, i, doc.Value());
      }
      var saved := Save(i, doc);
      if !saved {
        return Fail(500, ServerError);
      }
      r := Ok(201, doc.Value());
    }

    /** `updateSubCategory`: 404 for a malformed id, an unknown parent or an
        id no sibling has; 400 when a truthy slug is held by another sibling;
        otherwise only the truthy fields overwrite, in place, and the
        sequence keeps its length and every other sibling. */
    method UpdateSubCategory(categoryId: string, subId: string, body: Body, now: int)
      returns (r: Reply<Category>)
      requires Valid()
      modifies this
      ensures Valid()
      ensures (!IsObjectId(categoryId) || !IsObjectId(subId)) ==> r == Fail(404, InvalidId) && docs == old(docs)
      ensures IsObjectId(categoryId) && IsObjectId(subId) && IndexOf(old(docs), categoryId) < 0 ==>
                r == Fail(404, CategoryNotFound) && docs == old(docs)
      ensures IsObjectId(categoryId) && IsObjectId(subId) && IndexOf(old(docs), categoryId) >= 0 ==>
                var subs := old(docs)[IndexOf(old(docs), categoryId)].subCategories;
                SubIndex(subs, subId) < 0 ==> r == Fail(404, SubNotFound) && docs == old(docs)
      ensures IsObjectId(categoryId) && IsObjectId(subId) && IndexOf(old(docs), categoryId) >= 0 ==>
                var subs := old(docs)[IndexOf(old(docs), categoryId)].subCategories;
                SubIndex(subs, subId) >= 0 && Truthy(body.slug)
                && (exists k :: 0 <= k < |subs| && subs[k].slug == body.slug && subs[k].id != subId) ==>
                  r == Fail(400, SubSlugExists) && docs == old(docs)
      ensures IsObjectId(categoryId) && IsObjectId(subId) && IndexOf(old(docs), categoryId) >= 0 ==>
                var i := IndexOf(old(docs), categoryId);
                var subs := old(docs)[i].subCategories;
                var j := SubIndex(subs, subId);
                var parent := if j >= 0 then WithEditedSub(old(docs)[i], j, body, now) else old(docs)[i];
                j >= 0
                && (!Truthy(body.slug) || forall k :: 0 <= k < |subs| && subs[k].id != subId ==> subs[k].slug != body.slug) ==>
                  if CategoryValid(parent) then docs == old(docs)[i := parent] && r == Ok(200, parent)
                  else docs == old(docs) && r == Fail(500, ServerError)
      ensures old(AllSiblingSlugsUnique(docs)) ==> AllSiblingSlugsUnique(docs)
    {
      if !IsObjectId(categoryId) || !IsObjectId(subId) {
        return Fail(404, InvalidId);
      }
      var i := IndexOf(docs, categoryId);
      if i < 0 {
        return Fail(404, CategoryNotFound);
      }
      var doc := new CategoryDoc.Load(docs[i]);
      var j := FindSubIndex(doc.subCategories, subId);
      if j == -1 {
        return Fail(404, SubNotFound);
      }
      var taken := false;
      if Truthy(body.slug) {
        taken := SiblingHasSlug(doc.subCategories, body.slug, Some(subId));
      }
      if taken {
        return Fail(400, SubSlugExists);
      }
      ghost var before := docs;
      ghost var subs := before[i].subCategories;
      var sub := EditSub(doc.subCategories[j], body, now);
      forall k | 0 <= k < |subs| && k != j && SiblingSlugsUnique(subs) ensures subs[k].slug != sub.slug {
        if !Truthy(body.slug) {
          assert sub.slug == subs[j].slug;
        } else {
          assert subs[j].id == subId;
        }
      }
      ReplaceKeepsUnique(subs, j, sub);
      doc.SetSubCategory(j, sub);
      doc.Touch(now);
      assert doc.Value() == WithEditedSub(before[i], j, body, now);
      if AllSiblingSlugsUnique(before) {
        ReplaceKeepsAllSiblingSlugsUnique(before, i, doc.Value());
      }
      var saved := Save(i, doc);
      if !saved {
        return Fail(500, ServerError);
      }
      r := Ok(200, doc.Value());
    }

    /** `deleteSubCategory`: the same 404 answers as update; otherwise the
        first sub-category with the id is spliced out and the parent is
        stamped and saved. */
    method DeleteSubCategory(categoryId: string, subId: string, now: int) returns (r: Reply<string>)
      requires Valid()
      modifies this
      ensures Valid()
      ensures (!IsObjectId(categoryId) || !IsObjectId(subId)) ==> r == Fail(404, InvalidId) && docs == old(docs)
      ensures IsObjectId(categoryId) && IsObjectId(subId) && IndexOf(old(docs), categoryId) < 0 ==>
                r == Fail(404, CategoryNotFound) && docs == old(docs)
      ensures IsObjectId(categoryId) && IsObjectId(subId) && IndexOf(old(docs), categoryId) >= 0 ==>
                var i := IndexOf(old(docs), categoryId);
                var j := SubIndex(old(docs)[i].subCategories, subId);
                var parent := if j >= 0 then WithoutSub(old(docs)[i], j, now) else old(docs)[i];
                if j < 0 then r == Fail(404, SubNotFound) && docs == old(docs)
                else if CategoryValid(parent) then docs == old(docs)[i := parent] && r == Ok(200, SubDeleted)
                else docs == old(docs) && r == Fail(500, ServerError)
      ensures old(AllSiblingSlugsUnique(docs)) ==> AllSiblingSlugsUnique(docs)
    {
      if !IsObjectId(categoryId) || !IsObjectId(subId) {
        return Fail(404, InvalidId);
      }
      var i := IndexOf(docs, categoryId);
      if i < 0 {
        return Fail(404, CategoryNotFound);
      }
      var doc := new CategoryDoc.Load(docs[i]);
      var j := FindSubIndex(doc.subCategories, subId);
      if j == -1 {
        return Fail(404, SubNotFound);
      }
      ghost var before := docs;
      RemoveKeepsUnique(before[i].subCategories, j);
      doc.SpliceSubCategory(j);
      doc.Touch(now);
      assert doc.Value() == WithoutSub(before[i], j, now);
      if AllSiblingSlugsUnique(before) {
        ReplaceKeepsAllSiblingSlugsUnique(before, i, doc.Value());
      }
      var saved := Save(i, doc);
      if !saved {
        return Fail(500, ServerError);
      }
      r := Ok(200, SubDeleted);
    }
  }
}
