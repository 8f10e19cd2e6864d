/** Form data as the admin forms hold it: a map from field name to value,
    and the `data`/`setData` pair that Inertia's useForm gives each page. */
module Forms {
  import opened Js

  /** A form field value: a JavaScript value as it is, or the text that
      `JSON.stringify` makes of a value (the text itself is not modelled;
      two encodings are equal exactly when the values are). */
  datatype FormValue = Raw(v: Value) | Encoded(v: Value)

  type FormData = map<string, FormValue>

  /** The `data` state of a form page. */
  class FormState {
    var data: FormData

    constructor (initial: FormData)
      ensures data == initial
    {
      data := initial;
    }

    /** `setData(key, value)`: replaces one field and keeps the others. */
    method SetData(key: string, value: FormValue)
      modifies this
      ensures data == old(data)[key := value]
      ensures forall k :: k in old(data) && k != key ==> k in data && data[k] == old(data)[k]
    {
      data := data[key := value];
    }
  }
}
