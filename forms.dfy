/**
 * Form extraction: every `<form>` of a document becomes a Form whose Fields
 * map each control name to the list of values a submission would carry.
 */
module FormExtraction {
  import opened Common
  import opened Dom
  import opened Text

  /** Go's url.Values: a name maps to an ordered list of values. */
  type Values = map<string, seq<string>>

  /** The form's method attribute (`verb`), id, name, action and collected fields. */
  datatype Form = Form(verb: string, id: string, name: string, action: string, fields: Values)

  /** `r` and `f` agree on every name except possibly `name`. */
  ghost predicate SameExcept(f: Values, r: Values, name: string)
  {
    forall k :: k != name ==> Lookup(r, k) == Lookup(f, k)
  }

  /** The input's type attribute, lower-cased; "" when absent. */
  function InputType(input: Element): string
  {
    ToLower(AttrOr(input, "type", ""))
  }

  /** Types whose value is always appended: text, hidden, or no type at all. */
  predicate IsTextLike(typ: string)
  {
    typ == "text" || typ == "hidden" || typ == ""
  }

  /** A radio counts as checked when its `checked` attribute is not the sentinel "unchecked". */
  predicate RadioChecked(input: Element)
    ensures "checked" !in input.attrs ==> !RadioChecked(input)
    ensures "checked" in input.attrs ==> (RadioChecked(input) <==> input.attrs["checked"] != "unchecked")
  {
    AttrOr(input, "checked", "unchecked") != "unchecked"
  }

  /** The input contributes to the fields at all. */
  predicate Contributes(input: Element)
  {
    var typ := InputType(input);
    IsTextLike(typ)
    || (typ == "radio" && RadioChecked(input))
    || (typ == "submit" && AttrOr(input, "name", "") != "")
  }

  /** The fields after one `<input>` has been visited. */
  function ApplyInput(fields: Values, input: Element): (r: Values)
    ensures SameExcept(fields, r, AttrOr(input, "name", ""))
    ensures IsTextLike(InputType(input)) ==>
              Lookup(r, AttrOr(input, "name", "")) == Lookup(fields, AttrOr(input, "name", "")) + [AttrOr(input, "value", "")]
    ensures !IsTextLike(InputType(input)) && Contributes(input) ==>
              Lookup(r, AttrOr(input, "name", "")) == [AttrOr(input, "value", "")]
    ensures !Contributes(input) ==> r == fields
  {
    var typ := InputType(input);
    var name := AttrOr(input, "name", "");
    var value := AttrOr(input, "value", "");
    if IsTextLike(typ) then fields[name := Lookup(fields, name) + [value]]
    else if typ == "radio" then
      (if RadioChecked(input) then fields[name := [value]] else fields)
    else if typ == "submit" then
      (if name != "" then fields[name := [value]] else fields)
    else fields
  }

  /** The fields after the inputs have been visited in order. */
  function ApplyInputs(fields: Values, inputs: seq<Element>): Values
  {
    if inputs == [] then fields
    else ApplyInput(ApplyInputs(fields, inputs[..|inputs| - 1]), inputs[|inputs| - 1])
  }

  /** An option contributes when its `selected` attribute is not the sentinel "notselected". */
  predicate IsSelected(option: Element)
    ensures "selected" !in option.attrs ==> !IsSelected(option)
    ensures "selected" in option.attrs ==> (IsSelected(option) <==> option.attrs["selected"] != "notselected")
  {
    AttrOr(option, "selected", "notselected") != "notselected"
  }

  /** A selected option's value: its `value` attribute if present, else its trimmed text. */
  function OptionValue(option: Element): (v: string)
    ensures "value" in option.attrs ==> v == option.attrs["value"]
    ensures "value" !in option.attrs ==> v == TrimSpace(option.text) && (v == [] || (!IsSpace(v[0]) && !IsSpace(v[|v| - 1])))
  {
    match Attr(option, "value")
    case Some(v) => v
    case None => TrimSpace(option.text)
  }

  /** The fields after the options of a select named `name` have been visited in order. */
  function ApplyOptions(fields: Values, name: string, options: seq<Element>): Values
  {
    if options == [] then fields
    else
      var f := ApplyOptions(fields, name, options[..|options| - 1]);
      var o := options[|options| - 1];
      if IsSelected(o) then f[name := Lookup(f, name) + [OptionValue(o)]] else f
  }

  /** The values of the selected options, in order: an independent statement of what a select adds. */
  function SelectedValues(options: seq<Element>): seq<string>
  {
    if options == [] then []
    else (if IsSelected(options[0]) then [OptionValue(options[0])] else []) + SelectedValues(options[1..])
  }

  /** The fields after one `<select>` has been visited; unnamed selects are skipped. */
  function ApplySelect(fields: Values, sel: SelectElem): (r: Values)
    ensures AttrOr(sel.elem, "name", "") == "" ==> r == fields
  {
    var name := AttrOr(sel.elem, "name", "");
    if name == "" then fields else ApplyOptions(fields, name, sel.options)
  }

  /** The fields after the selects have been visited in order. */
  function ApplySelects(fields: Values, selects: seq<SelectElem>): Values
  {
    if selects == [] then fields
    else ApplySelect(ApplySelects(fields, selects[..|selects| - 1]), selects[|selects| - 1])
  }

  /** The Form one `<form>` element yields: all inputs first, then all selects. */
  function FormOf(f: FormElem): (r: Form)
    ensures "method" in f.elem.attrs ==> r.verb == f.elem.attrs["method"]
    ensures "method" !in f.elem.attrs ==> r.verb == "GET"
  {
    Form(AttrOr(f.elem, "method", "GET"), AttrOr(f.elem, "id", ""), AttrOr(f.elem, "name", ""),
         AttrOr(f.elem, "action", ""), ApplySelects(ApplyInputs(map[], f.inputs), f.selects))
  }

  /** A named select appends exactly its selected options' values to its name, and nothing else changes. */
  lemma {:induction false} SelectAppendsSelected(fields: Values, name: string, options: seq<Element>)
    ensures Lookup(ApplyOptions(fields, name, options), name) == Lookup(fields, name) + SelectedValues(options)
    ensures SameExcept(fields, ApplyOptions(fields, name, options), name)
  {
    if options != [] {
      var init := options[..|options| - 1];
      var o := options[|options| - 1];
      SelectAppendsSelected(fields, name, init);
      SelectedValuesSnoc(init, o);
      assert init + [o] == options;
    }
  }

  /** Selected values of a longer option list extend those of the shorter one. */
  lemma {:induction false} SelectedValuesSnoc(options: seq<Element>, o: Element)
    ensures SelectedValues(options + [o]) == SelectedValues(options) + (if IsSelected(o) then [OptionValue(o)] else [])
  {
    if options == [] {
      assert options + [o] == [o];
    } else {
      assert (options + [o])[1..] == options[1..] + [o];
      SelectedValuesSnoc(options[1..], o);
    }
  }

  /** Selects only ever append: every name's values before the selects are a prefix of those after. */
  lemma {:induction false} SelectsOnlyAppend(fields: Values, selects: seq<SelectElem>, k: string)
    ensures Lookup(fields, k) <= Lookup(ApplySelects(fields, selects), k)
  {
    if selects != [] {
      var before := ApplySelects(fields, selects[..|selects| - 1]);
      SelectsOnlyAppend(fields, selects[..|selects| - 1], k);
      var sel := selects[|selects| - 1];
      var name := AttrOr(sel.elem, "name", "");
      if name != "" {
        SelectAppendsSelected(before, name, sel.options);
      }
    }
  }

  /** In a form, every value an input contributed comes before any value a select contributed. */
  lemma InputsPrecedeSelects(f: FormElem, k: string)
    ensures Lookup(ApplyInputs(map[], f.inputs), k) <= Lookup(FormOf(f).fields, k)
  {
    SelectsOnlyAppend(ApplyInputs(map[], f.inputs), f.selects, k);
  }

  /** The values of the inputs named `name`, in document order. */
  function ValuesNamed(inputs: seq<Element>, name: string): seq<string>
  {
    if inputs == [] then []
    else
      var last := inputs[|inputs| - 1];
      ValuesNamed(inputs[..|inputs| - 1], name)
      + (if AttrOr(last, "name", "") == name then [AttrOr(last, "value", "")] else [])
  }

  /**
   * Text-like inputs are never deduplicated: when every input named `name`
   * is text, hidden or untyped, the field lists all their values in order.
   */
  lemma {:induction false} TextValuesInOrder(fields: Values, inputs: seq<Element>, name: string)
    requires forall i :: 0 <= i < |inputs| && AttrOr(inputs[i], "name", "") == name ==> IsTextLike(InputType(inputs[i]))
    ensures Lookup(ApplyInputs(fields, inputs), name) == Lookup(fields, name) + ValuesNamed(inputs, name)
  {
    if inputs != [] {
      TextValuesInOrder(fields, inputs[..|inputs| - 1], name);
    }
  }

  /**
   * Radios replace instead of appending: when every input named `name` is a
   * radio, the field never holds more than one value (given it held at most
   * one before).
   */
  lemma {:induction false} RadioKeepsOne(fields: Values, inputs: seq<Element>, name: string)
    requires |Lookup(fields, name)| <= 1
    requires forall i :: 0 <= i < |inputs| && AttrOr(inputs[i], "name", "") == name ==> InputType(inputs[i]) == "radio"
    ensures |Lookup(ApplyInputs(fields, inputs), name)| <= 1
  {
    if inputs != [] {
      RadioKeepsOne(fields, inputs[..|inputs| - 1], name);
    }
  }

  /** Inputs that contribute nothing (checkboxes, buttons, files, ...) leave the fields exactly as they were. */
  lemma {:induction false} IgnoredInputsKeepFields(fields: Values, inputs: seq<Element>)
    requires forall i :: 0 <= i < |inputs| ==> !Contributes(inputs[i])
    ensures ApplyInputs(fields, inputs) == fields
  {
    if inputs != [] {
      IgnoredInputsKeepFields(fields, inputs[..|inputs| - 1]);
    }
  }

  /** Visits the inputs in order, appending or replacing per input type. */
  method ParseInputs(fields: Values, inputs: seq<Element>) returns (out: Values)
    ensures out == ApplyInputs(fields, inputs)
  {
    out := fields;
    for j := 0 to |inputs|
      invariant out == ApplyInputs(fields, inputs[..j])
    {
      assert inputs[..j + 1][..j] == inputs[..j];
      ghost var prev := out;
      var input := inputs[j];
      var typ := ToLower(AttrOr(input, "type", ""));
      var name := AttrOr(input, "name", "");
      var value := AttrOr(input, "value", "");
      if typ == "text" || typ == "hidden" || typ == "" {
        out := out[name := Lookup(out, name) + [value]];
      } else if typ == "radio" {
        if AttrOr(input, "checked", "unchecked") != "unchecked" {
          out := out[name := [value]];
        }
      } else if typ == "submit" {
        if name != "" {
          out := out[name := [value]];
        }
      }
      assert out == ApplyInput(prev, input);
    }
    assert inputs[..|inputs|] == inputs;
  }

  /** Visits the options of a select named `name` in order, appending each selected option's value. */
  method ParseOptions(fields: Values, name: string, options: seq<Element>) returns (out: Values)
    ensures out == ApplyOptions(fields, name, options)
  {
    out := fields;
    for k := 0 to |options|
      invariant out == ApplyOptions(fields, name, options[..k])
    {
      assert options[..k + 1][..k] == options[..k];
      ghost var prev := out;
      var option := options[k];
      if AttrOr(option, "selected", "notselected") != "notselected" {
        var v := if "value" in option.attrs then option.attrs["value"] else TrimSpace(option.text);
        assert v == OptionValue(option);
        out := out[name := Lookup(out, name) + [v]];
      }
      assert out == if IsSelected(option) then prev[name := Lookup(prev, name) + [OptionValue(option)]] else prev;
    }
    assert options[..|options|] == options;
  }

  /** Visits the selects in order; a named select appends the values of its selected options. */
  method ParseSelects(fields: Values, selects: seq<SelectElem>) returns (out: Values)
    ensures out == ApplySelects(fields, selects)
  {
    out := fields;
    for j := 0 to |selects|
      invariant out == ApplySelects(fields, selects[..j])
    {
      assert selects[..j + 1][..j] == selects[..j];
      ghost var prev := out;
      var sel := selects[j];
      var name := AttrOr(sel.elem, "name", "");
      if name != "" {
        out := ParseOptions(out, name, sel.options);
      }
      assert out == ApplySelect(prev, sel);
    }
    assert selects[..|selects|] == selects;
  }

  /** The Form of one `<form>`: its attributes, then its inputs, then its selects. */
  method ParseForm(f: FormElem) returns (form: Form)
    ensures form == FormOf(f)
    ensures forall k :: Lookup(ApplyInputs(map[], f.inputs), k) <= Lookup(form.fields, k)
  {
    var id := AttrOr(f.elem, "id", "");
    var action := AttrOr(f.elem, "action", "");
    var verb := AttrOr(f.elem, "method", "GET");
    var name := AttrOr(f.elem, "name", "");
    var fields := ParseInputs(map[], f.inputs);
    fields := ParseSelects(fields, f.selects);
    form := Form(verb, id, name, action, fields);
    forall k ensures Lookup(ApplyInputs(map[], f.inputs), k) <= Lookup(form.fields, k) {
      InputsPrecedeSelects(f, k);
    }
  }

  /** One Form per `<form>` of the document, in document order. */
  method ExtractForms(doc: Document) returns (forms: seq<Form>)
    ensures |forms| == |doc.forms|
    ensures forall i :: 0 <= i < |forms| ==> forms[i] == FormOf(doc.forms[i])
  {
    forms := [];
    for i := 0 to |doc.forms|
      invariant |forms| == i
      invariant forall j :: 0 <= j < i ==> forms[j] == FormOf(doc.forms[j])
    {
      var form := ParseForm(doc.forms[i]);
      forms := forms + [form];
    }
  }
}
