/** The Category document schema and its embedded SubCategory schema
    (models/Categories.js). A category owns its sub-categories: they are an
    ordered sequence inside the category document, with no collection of
    their own. */
module CategoryModel {
  import opened Common

  datatype SubCategory = SubCategory(
    id: string,
    name: Option<string>,
    slug: Option<string>,
    description: Option<string>,
    createdAt: int,
    updatedAt: int)

  datatype Category = Category(
    id: string,
    name: Option<string>,
    slug: Option<string>,
    description: Option<string>,
    subCategories: seq<SubCategory>,
    createdAt: int,
    updatedAt: int)

  /** A sub-category needs a name and a slug; its description is optional. */
  predicate SubCategoryValid(s: SubCategory) {
    IsObjectId(s.id) && Required(s.name) && Required(s.slug)
  }

  /** What a save of a category demands: its own name and slug, and every
      embedded sub-category valid. The description is optional. */
  predicate CategoryValid(c: Category) {
    && IsObjectId(c.id)
    && Required(c.name)
    && Required(c.slug)
    && forall i :: 0 <= i < |c.subCategories| ==> SubCategoryValid(c.subCategories[i])
  }

  /** A category lacking its name or its slug never passes validation. */
  lemma MissingNameOrSlugInvalid(c: Category)
    requires !Required(c.name) || !Required(c.slug)
    ensures !CategoryValid(c)
  {
  }

  /** Embedded sub-categories are validated with their parent: one invalid
      sub-category, one without a name or slug for instance, makes the whole
      category fail its save. */
  lemma InvalidSubInvalidates(c: Category, i: int)
    requires 0 <= i < |c.subCategories| && !SubCategoryValid(c.subCategories[i])
    ensures !CategoryValid(c)
  {
  }

  /** The unique index on a category's `slug` (not sparse: two categories
      without a slug clash too). */
  ghost predicate SlugsUnique(docs: seq<Category>) {
    forall i, j :: 0 <= i < j < |docs| ==> docs[i].slug != docs[j].slug
  }

  ghost predicate IdsUnique(docs: seq<Category>) {
    && (forall i :: 0 <= i < |docs| ==> IsObjectId(docs[i].id))
    && (forall i, j :: 0 <= i < j < |docs| ==> docs[i].id != docs[j].id)
  }

  /** Sub-category slugs are not declared unique; the handlers keep them
      distinct among the siblings of one category. */
  ghost predicate SiblingSlugsUnique(subs: seq<SubCategory>) {
    forall i, j :: 0 <= i < j < |subs| ==> subs[i].slug != subs[j].slug
  }

  /** Each embedded sub-category gets an id of its own when it is pushed. */
  ghost predicate SubIdsUnique(subs: seq<SubCategory>) {
    forall i, j :: 0 <= i < j < |subs| ==> subs[i].id != subs[j].id
  }
}
