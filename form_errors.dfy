/** Error bookkeeping for the admin forms (the useFormErrors hook): how many
    fields have an error, and the human label shown for a field. */
module FormErrors {
  import ProductConstants

  /** The errors the server sent back: field name to message. */
  type Errors = map<string, string>

  /** Custom labels a page passes in; a label '' counts as absent, as a falsy
      value does in `fieldLabels[name] || …`. */
  type Labels = map<string, string>

  /** errorCount: the number of fields that have an error. */
  function ErrorCount(errors: Errors): nat
  {
    |errors.Keys|
  }

  /** hasErrors */
  predicate HasErrors(errors: Errors)
  {
    ErrorCount(errors) > 0
  }

  /** There are errors exactly when some field has one. */
  lemma HasErrorsIff(errors: Errors)
    ensures HasErrors(errors) <==> exists f :: f in errors
    ensures !HasErrors(errors) <==> errors == map[]
  {
    if exists f :: f in errors {
      var f :| f in errors;
      assert f in errors.Keys;
    }
  }

  /** One more field with an error adds one to the count; a new message for a
      field that already has one does not. */
  lemma ErrorCountUpdate(errors: Errors, field: string, message: string)
    ensures field !in errors ==> ErrorCount(errors[field := message]) == ErrorCount(errors) + 1
    ensures field in errors ==> ErrorCount(errors[field := message]) == ErrorCount(errors)
  {
    assert errors[field := message].Keys == errors.Keys + {field};
  }

  /** defaultLabels */
  const DefaultLabels: Labels := map[
    "name" := "Name", "slug" := "URL Slug", "description" := "Description",
    "price" := "Price", "category_id" := "Category", "artist_id" := "Artist",
    "featured_image" := "Featured Image", "gallery_images" := "Gallery Images",
    "materials" := "Materials", "dimensions" := "Dimensions",
    "colors_available" := "Available Colors", "stock_quantity" := "Stock Quantity",
    "sku" := "SKU", "tags" := "Tags", "weight" := "Weight",
    "customization_options" := "Customization Options", "status" := "Status",
    "title" := "Title", "email" := "Email", "phone" := "Phone", "address" := "Address",
    "website" := "Website", "bio" := "Bio", "image" := "Image",
    "sort_order" := "Sort Order", "is_active" := "Active Status"
  ]

  /** `labels[field] || …` treats a missing or empty label as absent. */
  predicate HasLabel(labels: Labels, field: string)
  {
    field in labels && labels[field] != ""
  }

  /** getFieldLabel: the custom label, else the default one, else the field name. */
  function GetFieldLabel(fieldLabels: Labels, field: string): string
  {
    if HasLabel(fieldLabels, field) then fieldLabels[field]
    else if HasLabel(DefaultLabels, field) then DefaultLabels[field]
    else field
  }

  /** Which label is chosen: a custom label wins; without one a default label
      is used; without either the field name itself is shown, so a field
      always gets a non-empty label when its name is not empty. */
  lemma GetFieldLabelChoice(fieldLabels: Labels, field: string)
    ensures HasLabel(fieldLabels, field) ==> GetFieldLabel(fieldLabels, field) == fieldLabels[field]
    ensures !HasLabel(fieldLabels, field) && HasLabel(DefaultLabels, field) ==>
              GetFieldLabel(fieldLabels, field) == DefaultLabels[field]
    ensures !HasLabel(fieldLabels, field) && !HasLabel(DefaultLabels, field) ==>
              GetFieldLabel(fieldLabels, field) == field
    ensures field != "" ==> GetFieldLabel(fieldLabels, field) != ""
  {
  }

  /** Without custom labels, known fields take the default table's label:
      slug is shown as 'URL Slug'. */
  lemma DefaultLabelExamples()
    ensures GetFieldLabel(map[], "slug") == "URL Slug"
    ensures GetFieldLabel(map[], "is_active") == "Active Status"
    ensures GetFieldLabel(map[], "seo_keywords") == "seo_keywords"
  {
  }

  /** On the product forms every field except is_customizable shows its
      product label. */
  lemma ProductFormLabels(field: string)
    requires field in ProductConstants.ProductFields && field != "is_customizable"
    ensures GetFieldLabel(ProductConstants.ProductFieldLabels, field) ==
              ProductConstants.ProductFieldLabels[field]
  {
    ProductConstants.EveryFieldLabelled();
    assert field in ProductConstants.InitialProductData();
  }

  /** is_customizable has neither a product label nor a default label, so the
      product forms show it by its field name. */
  lemma IsCustomizableUnlabelled()
    ensures GetFieldLabel(ProductConstants.ProductFieldLabels, "is_customizable") == "is_customizable"
  {
    ProductConstants.EveryFieldLabelled();
    NoDefaultLabel();
  }

  lemma NoDefaultLabel()
    ensures "is_customizable" !in DefaultLabels
  {
    assert forall k :: k in DefaultLabels ==> |k| != |"is_customizable"|;
  }
}
