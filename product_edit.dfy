/** The product edit page: the form and the unsaved-change baseline both start
    from the stored product, the slug follows the name, and a successful
    update marks the form clean. */
module ProductEdit {
  import opened Common
  import opened Js
  import opened Forms
  import opened ProductConstants
  import opened FormDirty
  import Slugs

  /** The page's form data and its unsaved-change tracker (no ignored fields). */
  class EditPage {
    const form: FormState
    const dirty: Tracker

    /** The tracker ignores no field. */
    predicate Valid()
    {
      dirty.ignoreFields == []
    }
    const initialData: FormData

    /** Mounting the page for a product: form data and baseline are both
        getEditProductData(product), so the form starts clean. */
    constructor (product: Record)
      requires TagsMappable(product)
      ensures fresh(form) && fresh(dirty)
      ensures initialData == EditProductData(product)
      ensures form.data == EditProductData(product)
      ensures dirty.baseline == Some(EditProductData(product)) && dirty.ignoreFields == []
      ensures !dirty.isDirty && Valid()
    {
      initialData := EditProductData(product);
      form := new FormState(EditProductData(product));
      var t := new Tracker([]);
      t.CaptureBaseline(Some(EditProductData(product)), Some(EditProductData(product)));
      t.Recompute(Some(EditProductData(product)));
      DiffersWithoutIgnored(EditProductData(product), EditProductData(product));
      dirty := t;
    }

    /** handleNameChange, followed by the re-render's effects: the name is set,
        the stored slug is overwritten by the one derived from the new name,
        and isDirty says whether the data differ from the product's data. */
    method HandleNameChange(name: string)
      requires Valid()
      modifies form, dirty
      ensures form.data == old(form.data)["name" := Raw(Str(name))]["slug" := Raw(Str(Slugs.Slug(name)))]
      ensures dirty.baseline == Some(initialData)
      ensures dirty.isDirty <==> form.data != initialData
    {
      form.SetData("name", Raw(Str(name)));
      form.SetData("slug", Raw(Str(Slugs.Slug(name))));
      var data := form.data;
      dirty.CaptureBaseline(Some(data), Some(initialData));
      dirty.Recompute(Some(data));
      DiffersWithoutIgnored(data, initialData);
    }

    /** The end of the update request: markClean on success; on failure the
        error handler runs and the tracker is left as it was. */
    method UpdateFinished(success: bool)
      modifies dirty
      ensures dirty.baseline == old(dirty.baseline)
      ensures success ==> !dirty.isDirty
      ensures !success ==> dirty.isDirty == old(dirty.isDirty)
    {
      if success {
        dirty.MarkClean();
      }
    }
  }
}
