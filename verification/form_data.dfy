/** Multipart form bodies (`FormData`) as an ordered list of named fields. */
module FormData {

  /** A browser `File`; only its name matters to the front-end. */
  datatype File = File(name: string)

  datatype FieldValue = Text(text: string) | Upload(file: File)

  datatype Field = Field(name: string, value: FieldValue)

  type Form = seq<Field>

  /** `formData.getAll(name)`: the values appended under `name`, in order. */
  function Values(form: Form, name: string): seq<FieldValue> {
    if |form| == 0 then []
    else (if form[0].name == name then [form[0].value] else []) + Values(form[1..], name)
  }

  /** Appending forms appends their values under every name. */
  lemma {:induction false} ValuesAppend(a: Form, b: Form, name: string)
    ensures Values(a + b, name) == Values(a, name) + Values(b, name)
    decreases |a|
  {
    if |a| == 0 {
      assert a + b == b;
    } else {
      var first := if a[0].name == name then [a[0].value] else [];
      assert (a + b)[0] == a[0];
      assert (a + b)[1..] == a[1..] + b;
      assert Values(a + b, name) == first + Values(a[1..] + b, name);
      ValuesAppend(a[1..], b, name);
      assert Values(a, name) == first + Values(a[1..], name);
    }
  }

  /** A form whose every field carries one of `names` has no value under any
      other name. */
  lemma {:induction false} ValuesOutside(form: Form, names: set<string>, name: string)
    requires forall k :: 0 <= k < |form| ==> form[k].name in names
    requires name !in names
    ensures Values(form, name) == []
    decreases |form|
  {
    if |form| > 0 {
      ValuesOutside(form[1..], names, name);
    }
  }
}
