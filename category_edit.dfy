/** The category edit form: the data it starts from and the slug it derives
    from the name. */
module CategoryEdit {
  import opened Js
  import opened Forms
  import Slugs

  /** The form's starting data, each field `category.field || default`. */
  function InitialCategoryData(category: Record): FormData
  {
    map[
      "name" := Raw(Or(Get(category, "name"), Str(""))),
      "slug" := Raw(Or(Get(category, "slug"), Str(""))),
      "description" := Raw(Or(Get(category, "description"), Str(""))),
      "image_url" := Raw(Or(Get(category, "image_url"), Str(""))),
      "is_active" := Raw(Or(Get(category, "is_active"), Bool(true))),
      "sort_order" := Raw(Or(Get(category, "sort_order"), Num(0)))
    ]
  }

  /** `category.is_active || true` is truthy for every category: an inactive
      one (false, 0 or null) starts the form as active. A truthy stored value
      is kept as it is. */
  lemma InitialActiveAlwaysTrue(category: Record)
    ensures Truthy(InitialCategoryData(category)["is_active"].v)
    ensures !Truthy(Get(category, "is_active")) ==>
              InitialCategoryData(category)["is_active"] == Raw(Bool(true))
    ensures Truthy(Get(category, "is_active")) ==>
              InitialCategoryData(category)["is_active"] == Raw(Get(category, "is_active"))
  {
    OrTruthy(Get(category, "is_active"), Bool(true));
  }

  /** The sort order starts at 0 whenever the stored one is falsy, and the text
      fields start as '' when missing. */
  lemma InitialFallbacks(category: Record)
    ensures !Truthy(Get(category, "sort_order")) ==>
              InitialCategoryData(category)["sort_order"] == Raw(Num(0))
    ensures Truthy(Get(category, "sort_order")) ==>
              InitialCategoryData(category)["sort_order"] == Raw(Get(category, "sort_order"))
    ensures forall f :: f in {"name", "slug", "description", "image_url"} && !Truthy(Get(category, f)) ==>
              InitialCategoryData(category)[f] == Raw(Str(""))
  {
  }

  /** The state of the category edit page's form. */
  class CategoryEditForm {
    const form: FormState

    constructor (category: Record)
      ensures fresh(form) && form.data == InitialCategoryData(category)
    {
      form := new FormState(InitialCategoryData(category));
    }

    /** handleNameChange: stores the typed name and replaces the slug, whatever
        it held (a slug typed by hand included), with the one derived from it. */
    method HandleNameChange(name: string)
      modifies form
      ensures form.data == old(form.data)["name" := Raw(Str(name))]["slug" := Raw(Str(Slugs.Slug(name)))]
      ensures form.data["slug"] == Raw(Str(Slugs.Slug(name)))
    {
      form.SetData("name", Raw(Str(name)));
      form.SetData("slug", Raw(Str(Slugs.Slug(name))));
    }
  }
}
