/** The controlled-form update both the checkout and the registration forms use: the changed
    input's `name` gets its `checked` flag when it is a checkbox and its `value` otherwise. */
module Forms {

  datatype FieldValue = Text(text: string) | Flag(checked: bool)

  /** The value a change event stores for its input. */
  function EventValue(value: string, inputType: string, checked: bool): (v: FieldValue)
    ensures v.Flag? <==> inputType == "checkbox"
    ensures v.Flag? ==> v.checked == checked
    ensures v.Text? ==> v.text == value
  {
    if inputType == "checkbox" then Flag(checked) else Text(value)
  }

  /** `setFormData({ ...formData, [name]: type === 'checkbox' ? checked : value })`. */
  function ChangeField(form: map<string, FieldValue>, name: string, value: string, inputType: string, checked: bool)
    : (r: map<string, FieldValue>)
    ensures r.Keys == form.Keys + {name}
    ensures r[name] == EventValue(value, inputType, checked)
    ensures forall f :: f in form && f != name ==> r[f] == form[f]
  {
    form[name := EventValue(value, inputType, checked)]
  }

  /** A `required` text input is satisfied when it holds a non-empty value. */
  predicate Filled(form: map<string, FieldValue>, name: string) {
    name in form && form[name].Text? && form[name].text != ""
  }

  /** A later change to the same input overrides an earlier one; changes to different inputs
      commute. */
  lemma ChangesCompose(form: map<string, FieldValue>, a: string, va: string, ta: string, ca: bool,
                       b: string, vb: string, tb: string, cb: bool)
    ensures a == b ==> ChangeField(ChangeField(form, a, va, ta, ca), b, vb, tb, cb) == ChangeField(form, b, vb, tb, cb)
    ensures a != b ==>
      ChangeField(ChangeField(form, a, va, ta, ca), b, vb, tb, cb)
        == ChangeField(ChangeField(form, b, vb, tb, cb), a, va, ta, ca)
  {
  }

  /** Re-entering the value a field already holds leaves the form as it was. */
  lemma ChangeToSameValue(form: map<string, FieldValue>, name: string, value: string, inputType: string, checked: bool)
    requires name in form && form[name] == EventValue(value, inputType, checked)
    ensures ChangeField(form, name, value, inputType, checked) == form
  {
  }
}
