/** The Post document schema (models/Blog.js): its fields, the status enum,
    the defaults, and what the schema's validators demand before a save. */
module BlogModel {
  import opened Common

  /** The three values the `status` enum admits. */
  const Draft := "draft"
  const Published := "published"
  const Archived := "archived"

  predicate IsStatus(s: string) {
    s == Draft || s == Published || s == Archived
  }

  datatype Section = Section(
    image: Option<string>,
    title: Option<string>,
    description: Option<string>,
    list: seq<string>)

  datatype Meta = Meta(
    title: Option<string>,
    description: Option<string>,
    keywords: seq<string>)

  /** The meta sub-document built from `{}`: no title, no description, and the
      keyword array the schema initialises to empty. */
  const EmptyMeta := Meta(None, None, [])

  /** A stored post. `status` is kept as the string the store holds: the
      enum is checked by the schema's validators, which not every write runs.
      Dates are instants of an abstract clock. */
  datatype Post = Post(
    id: string,
    title: Option<string>,
    slug: Option<string>,
    description: Option<string>,
    summary: Option<string>,
    content: Option<string>,
    author: string,
    category: Option<string>,
    subCategory: Option<string>,
    tags: seq<string>,
    featuredImage: Option<string>,
    images: seq<string>,
    status: string,
    featured: bool,
    viewCount: int,
    sections: seq<Section>,
    meta: Option<Meta>,
    createdAt: int,
    updatedAt: int)

  /** An object-id path holds a castable id, or nothing when it is optional. */
  predicate OptionalRef(o: Option<string>) {
    o.None? || IsObjectId(o.value)
  }

  /** What a save demands of a post: title, slug and description present,
      author and category set to ids, an optional sub-category id, and a
      status from the enum. */
  predicate PostValid(p: Post) {
    && IsObjectId(p.id)
    && Required(p.title)
    && Required(p.slug)
    && Required(p.description)
    && IsObjectId(p.author)
    && p.category.Some? && IsObjectId(p.category.value)
    && OptionalRef(p.subCategory)
    && IsStatus(p.status)
  }

  /** The unique index on `slug`: no two posts of the collection share one
      (the index is not sparse, so two posts without a slug clash too). */
  ghost predicate SlugsUnique(docs: seq<Post>) {
    forall i, j :: 0 <= i < j < |docs| ==> docs[i].slug != docs[j].slug
  }

  /** Every stored post passes the schema. */
  ghost predicate AllValid(docs: seq<Post>) {
    forall k :: 0 <= k < |docs| ==> PostValid(docs[k])
  }

  /** Document ids are well formed and identify one post each. */
  ghost predicate IdsUnique(docs: seq<Post>) {
    && (forall i :: 0 <= i < |docs| ==> IsObjectId(docs[i].id))
    && (forall i, j :: 0 <= i < j < |docs| ==> docs[i].id != docs[j].id)
  }

  /** The post the schema builds from a creation payload: every field the
      payload leaves out takes the schema default (draft status, no views,
      not featured). */
  function NewPost(id: string, author: string, now: int): (p: Post)
    ensures p.status == Draft && p.viewCount == 0 && !p.featured
    ensures p.tags == [] && p.images == [] && p.sections == []
  {
    Post(id, None, None, None, None, None, author, None, None, [], None, [], Draft,
         false, 0, [], None, now, now)
  }

  /** A post lacking a slug or a description never passes validation. */
  lemma MissingSlugOrDescriptionInvalid(p: Post)
    requires p.slug.None? || p.description.None?
    ensures !PostValid(p)
  {
  }
}
