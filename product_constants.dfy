/** The product form's starting data: empty for a new product, and taken from
    the stored product for an edit; and the labels shown for its fields. */
module ProductConstants {
  import opened Js
  import opened Forms

  /** The fields of the product form, in the order both builders list them. */
  const ProductFieldKeys: seq<string> := [
    "name", "slug", "description", "price", "category_id", "artist_id",
    "featured_image", "gallery_images", "materials", "dimensions",
    "colors_available", "stock_quantity", "sku", "tags", "weight",
    "is_customizable", "customization_options", "status", "finish_type",
    "theme", "processing_time_days", "care_instructions", "ideal_for",
    "inclusions", "safety_notes", "meta_title", "meta_description", "seo_keywords"
  ]

  /** Fields that hold JSON: the edit form shows them as JSON text. */
  const JsonFieldKeys: set<string> :=
    {"gallery_images", "materials", "dimensions", "colors_available", "customization_options"}

  /** Fields that hold a list of strings. */
  const ListFieldKeys: set<string> := {"theme", "ideal_for", "inclusions"}

  /** Fields that do not start as the empty string in a new product. */
  const NonTextFieldKeys: set<string> := {"tags", "is_customizable", "status"} + ListFieldKeys

  /** The form's fields as a set. */
  const ProductFields: set<string> := set k | k in ProductFieldKeys

  /** The value getInitialProductData() gives a field. */
  function InitialValue(key: string): FormValue
  {
    if key == "tags" || key in ListFieldKeys then Raw(Arr([]))
    else if key == "is_customizable" then Raw(Bool(false))
    else if key == "status" then Raw(Str("draft"))
    else Raw(Str(""))
  }

  /** getInitialProductData() */
  function InitialProductData(): FormData
  {
    map k | k in ProductFields :: InitialValue(k)
  }

  /** PRODUCT_FIELD_LABELS */
  const ProductFieldLabels: map<string, string> := map[
    "name" := "Product Name", "slug" := "URL Slug", "description" := "Description",
    "price" := "Price", "category_id" := "Category", "artist_id" := "Artist",
    "featured_image" := "Featured Image", "gallery_images" := "Gallery Images",
    "materials" := "Materials", "dimensions" := "Dimensions",
    "colors_available" := "Available Colors", "stock_quantity" := "Stock Quantity",
    "sku" := "SKU", "tags" := "Tags", "weight" := "Weight",
    "customization_options" := "Customization Options", "status" := "Status",
    "finish_type" := "Finish Type", "theme" := "Theme/Style",
    "processing_time_days" := "Processing Time", "care_instructions" := "Care Instructions",
    "ideal_for" := "Ideal For", "inclusions" := "Included Items",
    "safety_notes" := "Safety Notes", "meta_title" := "Page Title",
    "meta_description" := "Meta Description", "seo_keywords" := "SEO Keywords"
  ]

  /** `product.tags.map(tag => tag.id)` */
  function TagIds(tags: seq<Value>): (ids: seq<Value>)
  {
    seq(|tags|, i requires 0 <= i < |tags| => Member(tags[i], "id"))
  }

  /** `v ? JSON.stringify(v) : ''` */
  function EncodedOrEmpty(v: Value): FormValue
  {
    if Truthy(v) then Encoded(v) else Raw(Str(""))
  }

  /** `product.tags` can be mapped over: a list, or a falsy value that is skipped
      (any other value would make `.map` throw). */
  predicate TagsMappable(product: Record)
  {
    Get(product, "tags").Arr? || !Truthy(Get(product, "tags"))
  }

  /** The value getEditProductData(product) gives a field. */
  function EditValue(product: Record, key: string): FormValue
    requires TagsMappable(product)
  {
    var v := Get(product, key);
    if key in JsonFieldKeys then EncodedOrEmpty(v)
    else if key == "tags" then Raw(if Truthy(v) then Arr(TagIds(v.elems)) else Arr([]))
    else if key == "is_customizable" then Raw(Or(v, Bool(false)))
    else if key == "status" then Raw(Or(v, Str("draft")))
    else if key in ListFieldKeys then Raw(Or(v, Arr([])))
    else Raw(Or(v, Str("")))
  }

  /** getEditProductData(product) */
  function EditProductData(product: Record): FormData
    requires TagsMappable(product)
  {
    map k | k in ProductFields :: EditValue(product, k)
  }

  /** A new product starts as a draft with no tags, not customisable, empty
      lists, and '' in every other field. */
  lemma InitialDataDefaults()
    ensures InitialProductData()["status"] == Raw(Str("draft"))
    ensures InitialProductData()["tags"] == Raw(Arr([]))
    ensures InitialProductData()["is_customizable"] == Raw(Bool(false))
    ensures forall k :: k in ListFieldKeys ==> InitialProductData()[k] == Raw(Arr([]))
    ensures forall k :: k in InitialProductData() && k !in NonTextFieldKeys ==>
              InitialProductData()[k] == Raw(Str(""))
  {
  }

  /** The new-product data and the edit data of any product have the same fields. */
  lemma SameFieldKeys(product: Record)
    requires TagsMappable(product)
    ensures EditProductData(product).Keys == InitialProductData().Keys == ProductFields
  {
  }

  /** Every form field except is_customizable has a label. */
  lemma EveryFieldLabelled()
    ensures forall k :: k in InitialProductData() && k != "is_customizable" ==> k in ProductFieldLabels
    ensures "is_customizable" !in ProductFieldLabels
  {
  }

  /** Tags become the list of the tag ids, in order; no tags give []. */
  lemma EditTags(product: Record)
    requires TagsMappable(product)
    ensures var t := EditProductData(product)["tags"];
            t.Raw? && t.v.Arr?
            && (Truthy(Get(product, "tags")) ==>
                  |t.v.elems| == |Get(product, "tags").elems|
                  && forall i :: 0 <= i < |t.v.elems| ==>
                       t.v.elems[i] == Member(Get(product, "tags").elems[i], "id"))
            && (!Truthy(Get(product, "tags")) ==> t.v.elems == [])
  {
  }

  /** status falls back to 'draft'. */
  lemma EditStatusFallback(product: Record)
    requires TagsMappable(product)
    ensures !Truthy(Get(product, "status")) ==> EditProductData(product)["status"] == Raw(Str("draft"))
    ensures Truthy(Get(product, "status")) ==> EditProductData(product)["status"] == Raw(Get(product, "status"))
  {
    assert ProductFieldKeys[17] == "status";
  }

  /** is_customizable falls back to false. */
  lemma EditCustomizableFallback(product: Record)
    requires TagsMappable(product)
    ensures !Truthy(Get(product, "is_customizable")) ==>
              EditProductData(product)["is_customizable"] == Raw(Bool(false))
  {
    assert ProductFieldKeys[15] == "is_customizable";
  }

  /** A falsy stock_quantity (0 included) becomes ''. */
  lemma EditStockFallback(product: Record)
    requires TagsMappable(product)
    ensures Get(product, "stock_quantity") == Num(0) ==>
              EditProductData(product)["stock_quantity"] == Raw(Str(""))
    ensures Truthy(Get(product, "stock_quantity")) ==>
              EditProductData(product)["stock_quantity"] == Raw(Get(product, "stock_quantity"))
  {
    assert ProductFieldKeys[11] == "stock_quantity";
  }

  /** The JSON and list fields are fields of the form. */
  lemma SpecialKeysAreFields()
    ensures JsonFieldKeys <= ProductFields && ListFieldKeys <= ProductFields
  {
    assert ProductFieldKeys[7] == "gallery_images" && ProductFieldKeys[8] == "materials";
    assert ProductFieldKeys[9] == "dimensions" && ProductFieldKeys[10] == "colors_available";
    assert ProductFieldKeys[16] == "customization_options";
    assert ProductFieldKeys[19] == "theme" && ProductFieldKeys[22] == "ideal_for";
    assert ProductFieldKeys[23] == "inclusions";
  }

  /** JSON fields are shown as JSON text when present and as '' otherwise. */
  lemma EditJsonFields(product: Record)
    requires TagsMappable(product)
    ensures forall k :: k in JsonFieldKeys ==>
              k in EditProductData(product) &&
              EditProductData(product)[k] ==
                (if Truthy(Get(product, k)) then Encoded(Get(product, k)) else Raw(Str("")))
  {
    SpecialKeysAreFields();
    forall k | k in JsonFieldKeys
      ensures EditProductData(product)[k] ==
                (if Truthy(Get(product, k)) then Encoded(Get(product, k)) else Raw(Str("")))
    {
      EditAt(product, k);
    }
  }

  /** List fields default to []. */
  lemma EditListFields(product: Record)
    requires TagsMappable(product)
    ensures forall k :: k in ListFieldKeys ==>
              k in EditProductData(product) &&
              EditProductData(product)[k] ==
                (if Truthy(Get(product, k)) then Raw(Get(product, k)) else Raw(Arr([])))
  {
    SpecialKeysAreFields();
    forall k | k in ListFieldKeys
      ensures EditProductData(product)[k] ==
                (if Truthy(Get(product, k)) then Raw(Get(product, k)) else Raw(Arr([])))
    {
      EditAt(product, k);
      ListKeysPlain(k);
      assert EditValue(product, k) == Raw(Or(Get(product, k), Arr([])));
    }
  }

  lemma ListKeysPlain(k: string)
    requires k in ListFieldKeys
    ensures k !in JsonFieldKeys && k != "tags" && k != "is_customizable" && k != "status"
  {
  }

  lemma EditAt(product: Record, k: string)
    requires TagsMappable(product) && k in ProductFields
    ensures EditProductData(product)[k] == EditValue(product, k)
  {
  }

  /** A set field that is neither JSON nor tags is kept as it is. */
  lemma EditSetFields(product: Record)
    requires TagsMappable(product)
    ensures forall k :: k in ProductFields && k !in JsonFieldKeys && k != "tags" && Truthy(Get(product, k)) ==>
              EditProductData(product)[k] == Raw(Get(product, k))
  {
  }

  /** Editing a product none of whose fields is set starts from exactly the
      new-product data. */
  lemma EditOfBlankIsInitial(product: Record)
    requires forall k :: k in product ==> !Truthy(product[k])
    ensures TagsMappable(product)
    ensures EditProductData(product) == InitialProductData()
  {
    assert forall k :: !Truthy(Get(product, k));
    forall k | k in ProductFields
      ensures EditValue(product, k) == InitialValue(k)
    {
      assert !Truthy(Get(product, k));
    }
  }
}
