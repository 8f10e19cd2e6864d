/** Unsaved-change tracking for a form (the useFormDirty hook): a baseline copy
    of the data, and an isDirty flag that says whether the current data differs
    from the baseline once the ignored fields are removed. */
module FormDirty {
  import opened Common
  import opened Forms

  /** The data without the ignored fields. */
  function WithoutFields(d: FormData, ignore: seq<string>): FormData
  {
    map k | k in d && k !in ignore :: d[k]
  }

  /** The two data disagree on key k: one has it and the other does not, or
      both have it with different values. */
  ghost predicate DisagreeAt(a: FormData, b: FormData, k: string)
  {
    (k in a) != (k in b) || (k in a && k in b && a[k] != b[k])
  }

  /** compareData: the current data differs from the baseline outside the
      ignored fields. The hook compares the two copies' JSON texts; here the
      data themselves are compared. */
  predicate Differs(current: FormData, initial: FormData, ignore: seq<string>)
  {
    WithoutFields(current, ignore) != WithoutFields(initial, ignore)
  }

  /** The data differ exactly when they disagree on some key that is not ignored. */
  lemma DiffersIff(current: FormData, initial: FormData, ignore: seq<string>)
    ensures Differs(current, initial, ignore) <==>
              exists k :: k !in ignore && DisagreeAt(current, initial, k)
  {
    var a := WithoutFields(current, ignore);
    var b := WithoutFields(initial, ignore);
    if a != b {
      if a.Keys != b.Keys {
        var k :| (k in a.Keys) != (k in b.Keys);
        assert k !in ignore && DisagreeAt(current, initial, k);
      } else {
        var k :| k in a && a[k] != b[k];
        assert k !in ignore && DisagreeAt(current, initial, k);
      }
    } else {
      forall k | k !in ignore ensures !DisagreeAt(current, initial, k) {
        assert (k in a) == (k in current);
        assert (k in b) == (k in initial);
        if k in a {
          assert a[k] == current[k] && b[k] == initial[k];
        }
      }
    }
  }

  /** Setting an ignored field never changes whether the data differ. */
  lemma IgnoredChangeKeepsDiffers(current: FormData, initial: FormData, ignore: seq<string>,
                                  key: string, value: FormValue)
    requires key in ignore
    ensures Differs(current[key := value], initial, ignore) == Differs(current, initial, ignore)
  {
    assert WithoutFields(current[key := value], ignore) == WithoutFields(current, ignore);
  }

  /** With no ignored fields, the data differ exactly when they are not equal. */
  lemma DiffersWithoutIgnored(current: FormData, initial: FormData)
    ensures Differs(current, initial, []) <==> current != initial
  {
    assert WithoutFields(current, []) == current;
    assert WithoutFields(initial, []) == initial;
  }

  /** The hook's state: `initialDataRef.current` and `isDirty`. */
  class Tracker {
    var baseline: Option<FormData>
    var isDirty: bool
    const ignoreFields: seq<string>

    constructor (ignoreFields: seq<string>)
      ensures baseline == None && !isDirty && this.ignoreFields == ignoreFields
    {
      baseline := None;
      isDirty := false;
      this.ignoreFields := ignoreFields;
    }

    /** filterFields: a copy of obj with every ignored field deleted. */
    method FilterFields(obj: FormData) returns (filtered: FormData)
      ensures filtered == WithoutFields(obj, ignoreFields)
    {
      filtered := obj;
      for i := 0 to |ignoreFields|
        invariant filtered == WithoutFields(obj, ignoreFields[..i])
      {
        assert ignoreFields[..i + 1] == ignoreFields[..i] + [ignoreFields[i]];
        filtered := filtered - {ignoreFields[i]};
      }
      assert ignoreFields[..|ignoreFields|] == ignoreFields;
    }

    /** The baseline effect: the original data when it is supplied, otherwise
        the form data, but only while there is no baseline yet. */
    method CaptureBaseline(formData: Option<FormData>, originalData: Option<FormData>)
      modifies this
      ensures originalData.Some? ==> baseline == originalData
      ensures originalData.None? && formData.Some? && old(baseline).None? ==> baseline == formData
      ensures originalData.None? && (formData.None? || old(baseline).Some?) ==> baseline == old(baseline)
      ensures isDirty == old(isDirty)
    {
      if originalData.Some? {
        baseline := originalData;
      } else if formData.Some? && baseline.None? {
        baseline := formData;
      }
    }

    /** The change effect: while both the baseline and the form data are
        there, isDirty becomes whether they differ; otherwise nothing happens. */
    method Recompute(formData: Option<FormData>)
      modifies this
      ensures baseline == old(baseline)
      ensures baseline.Some? && formData.Some? ==>
                isDirty == Differs(formData.value, baseline.value, ignoreFields)
      ensures baseline.None? || formData.None? ==> isDirty == old(isDirty)
    {
      if baseline.None? || formData.None? {
        return;
      }
      var currentFiltered := FilterFields(formData.value);
      var initialFiltered := FilterFields(baseline.value);
      isDirty := currentFiltered != initialFiltered;
    }

    /** resetDirty: the current data become the baseline, and the form is clean. */
    method ResetDirty(formData: Option<FormData>)
      modifies this
      ensures formData.Some? ==> baseline == formData && !isDirty
      ensures formData.None? ==> baseline == old(baseline) && isDirty == old(isDirty)
    {
      if formData.Some? {
        baseline := formData;
        isDirty := false;
      }
    }

    /** markClean: the form is clean; the baseline stays where it was. */
    method MarkClean()
      modifies this
      ensures !isDirty && baseline == old(baseline)
    {
      isDirty := false;
    }
  }

  /** After resetDirty, recomputing on the same data finds the form clean. */
  method ResetThenRecompute(t: Tracker, formData: FormData)
    modifies t
    ensures t.baseline == Some(formData) && !t.isDirty
  {
    t.ResetDirty(Some(formData));
    t.Recompute(Some(formData));
  }
}
