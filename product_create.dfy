/** The product creation page: the form starts from the empty product data,
    unsaved changes are measured against a fresh copy of that data, and the
    slug follows the name. */
module ProductCreate {
  import opened Common
  import opened Js
  import opened Forms
  import opened ProductConstants
  import opened FormDirty
  import Slugs

  /** The page's form data and its unsaved-change tracker (no ignored fields). */
  class CreatePage {
    const form: FormState
    const dirty: Tracker

    /** The tracker ignores no field. */
    predicate Valid()
    {
      dirty.ignoreFields == []
    }

    /** Mounting the page: the form starts from getInitialProductData(), and
        the tracker's two effects run once, taking the empty data as baseline. */
    constructor ()
      ensures fresh(form) && fresh(dirty)
      ensures form.data == InitialProductData()
      ensures dirty.baseline == Some(InitialProductData()) && dirty.ignoreFields == []
      ensures !dirty.isDirty && Valid()
    {
      form := new FormState(InitialProductData());
      var t := new Tracker([]);
      t.CaptureBaseline(Some(InitialProductData()), Some(InitialProductData()));
      t.Recompute(Some(InitialProductData()));
      DiffersWithoutIgnored(InitialProductData(), InitialProductData());
      dirty := t;
    }

    /** handleNameChange, followed by the re-render's effects: name and slug
        are set (the slug fully re-derived), the baseline is taken again from a
        fresh getInitialProductData(), and isDirty says whether the data now
        differ from the empty data. */
    method HandleNameChange(name: string)
      requires Valid()
      modifies form, dirty
      ensures form.data == old(form.data)["name" := Raw(Str(name))]["slug" := Raw(Str(Slugs.Slug(name)))]
      ensures dirty.baseline == Some(InitialProductData())
      ensures dirty.isDirty <==> form.data != InitialProductData()
    {
      form.SetData("name", Raw(Str(name)));
      form.SetData("slug", Raw(Str(Slugs.Slug(name))));
      var data := form.data;
      dirty.CaptureBaseline(Some(data), Some(InitialProductData()));
      dirty.Recompute(Some(data));
      DiffersWithoutIgnored(data, InitialProductData());
    }
  }

  /** Typing a non-empty name into a new product's form makes it dirty. */
  method NameMakesDirty(page: CreatePage, name: string)
    requires name != "" && page.Valid()
    modifies page.form, page.dirty
    ensures page.dirty.isDirty
  {
    page.HandleNameChange(name);
    assert page.form.data["name"] == Raw(Str(name));
    assert InitialProductData()["name"] == Raw(Str(""));
  }
}
