/**
 * spa.js: the second generation of the shared helpers. `escapeHTML`, a `Validators` record
 * with its own messages, `bootstrap_inputs`, and the two list mixins.
 */
module Spa {
  import opened Wrappers
  import opened Text
  import opened Patterns
  import opened Fields
  import Core

  /** `escapeHTML`: the same replacement as core.js's `html`. */
  function EscapeHtml(str: Option<string>): (r: string)
    ensures str.None? ==> r == ""
    ensures str.Some? ==> Unescape(r) == str.value
    ensures forall i :: 0 <= i < |r| ==> !IsMarkupChar(r[i])
    ensures r == Core.Html(str)
  {
    match str
    case None => ""
    case Some(s) => UnescapeEscape(s); Escape(s)
  }

  // ---------------------------------------------------------------- Validators

  /** `Validators.required`: no error exactly when the value exists and is not all whitespace. */
  function Required(v: Option<string>): (r: Option<string>)
    ensures r.None? <==> v.Some? && exists i :: 0 <= i < |v.value| && !IsWhitespace(v.value[i])
    ensures r.Some? ==> r.value == "This field is required"
  {
    if v.Some? && Trim(v.value) != "" then None else Some("This field is required")
  }

  /** `Validators.pattern(p, msg)`: the message exactly when `p` rejects the value. */
  function PatternCheck(p: string -> bool, msg: string, v: string): (r: Option<string>)
    ensures r.None? <==> p(v)
    ensures r.Some? ==> r.value == msg
  {
    if p(v) then None else Some(msg)
  }

  /** `Validators.gphc`: exactly seven ASCII digits. */
  function Gphc(v: string): (r: Option<string>)
    ensures r.None? <==> |v| == 7 && forall i :: 0 <= i < 7 ==> '0' <= v[i] <= '9'
    ensures r.Some? ==> r.value == "Must be exactly 7 digits"
  {
    PatternCheck(s => IsDigitString(s, 7), "Must be exactly 7 digits", v)
  }

  /** `Validators.ods`: the same language as core.js's, with a longer message. */
  function Ods(v: string): (r: Option<string>)
    ensures r.None? <==> OdsLanguage(v)
    ensures r.None? <==> Core.Ods(v).None?
    ensures r.Some? ==> r.value == "Format: 2-3 letters + 2-3 digits (e.g., FA123)"
  {
    OdsCodeIsOdsLanguage(v);
    PatternCheck(IsOdsCode, "Format: 2-3 letters + 2-3 digits (e.g., FA123)", v)
  }

  /** `Validators.companyNumber`: exactly eight ASCII digits. */
  function CompanyNumber(v: string): (r: Option<string>)
    ensures r.None? <==> |v| == 8 && forall i :: 0 <= i < 8 ==> '0' <= v[i] <= '9'
    ensures r.Some? ==> r.value == "Must be exactly 8 digits"
  {
    PatternCheck(s => IsDigitString(s, 8), "Must be exactly 8 digits", v)
  }

  /** `Validators.ukPhone`: whitespace anywhere is ignored, then the UK number language. */
  function UkPhone(v: string): (r: Option<string>)
    ensures r.None? <==> UkPhoneLanguage(StripWhitespace(v))
    ensures r.Some? ==> r.value == "Enter a valid UK phone number"
  {
    UkPhoneIsUkPhoneLanguage(StripWhitespace(v));
    PatternCheck(IsUkPhone, "Enter a valid UK phone number", StripWhitespace(v))
  }

  /** A value without whitespace is judged as it stands. */
  lemma UkPhoneUnspaced(v: string)
    requires forall i :: 0 <= i < |v| ==> !IsWhitespace(v[i])
    ensures UkPhone(v).None? <==> IsUkPhone(v)
  {
    StripWhitespaceKeeps(v);
    UkPhoneIsUkPhoneLanguage(v);
  }

  /** A worked example: a mobile number in international format passes. */
  lemma UkPhoneAcceptsMobile()
    ensures UkPhone("+447912345678") == None
  {
    var v := "+447912345678";
    assert UkPhone(v).None? <==> IsUkPhone(v) by {
      UkPhoneUnspaced(v);
    }
    UkPhoneExamples();
  }

  /** A worked example: a London landline number fails. */
  lemma UkPhoneRejectsLandline()
    ensures UkPhone("0207123456") == Some("Enter a valid UK phone number")
  {
    var v := "0207123456";
    assert UkPhone(v).None? <==> IsUkPhone(v) by {
      UkPhoneUnspaced(v);
    }
    UkPhoneExamples();
  }

  /** Whitespace anywhere in the value never changes the verdict: the value is judged as its
      whitespace-free form, and a whitespace character of any kind inserted anywhere changes
      nothing. */
  lemma UkPhoneIgnoresWhitespace(a: string, c: char, b: string)
    ensures UkPhone(a + b) == UkPhone(StripWhitespace(a + b))
    ensures IsWhitespace(c) ==> UkPhone(a + [c] + b) == UkPhone(a + b)
  {
    StripWhitespaceIdempotent(a + b);
    if IsWhitespace(c) {
      StripWhitespaceDrops(a, c, b);
    }
  }

  // ---------------------------------------------------------------- bootstrap_inputs

  /** The attributes `bootstrap_inputs` always considers before the optional ones: type,
      class, id and name, the value only when `values` is given, and the placeholder. */
  function LeadingAttrs(f: FieldSpec, values: Values): (h: seq<Attr>)
    ensures Attr(TypeAttr, f.inputType.GetOr("text")) in h
    ensures Attr(ClassAttr, "form-control " + f.cssClass.GetOr("")) in h
    ensures Attr(IdAttr, f.key) in h && Attr(NameAttr, f.key) in h
    ensures HasAttr(h, ValueAttr) <==> !values.Undefined?
    ensures !values.Undefined? ==> Attr(ValueAttr, EscapeHtml(Some(ValueFor(values, f.key)))) in h
    ensures Attr(PlaceholderAttr, f.placeholder.GetOr(" ")) in h
    ensures Names(h) <= {TypeAttr, ClassAttr, IdAttr, NameAttr, ValueAttr, PlaceholderAttr}
  {
    var t, c, k, n := Attr(TypeAttr, f.inputType.GetOr("text")), Attr(ClassAttr, "form-control " + f.cssClass.GetOr("")),
      Attr(IdAttr, f.key), Attr(NameAttr, f.key);
    var p := Attr(PlaceholderAttr, f.placeholder.GetOr(" "));
    if values.Undefined? then
      var h := [t, c, k, n, p];
      NamesWithin(h, {TypeAttr, ClassAttr, IdAttr, NameAttr, PlaceholderAttr});
      h
    else
      var h := [t, c, k, n, Attr(ValueAttr, EscapeHtml(Some(ValueFor(values, f.key)))), p];
      NamedAt(h, 4);
      NamesWithin(h, {TypeAttr, ClassAttr, IdAttr, NameAttr, ValueAttr, PlaceholderAttr});
      h
  }

  /** The order of the leading attributes: type, class, id and name, then the value when
      there is one, and the placeholder last. */
  lemma LeadingAttrsOrder(f: FieldSpec, values: Values)
    ensures var h := LeadingAttrs(f, values);
      && |h| == (if values.Undefined? then 5 else 6)
      && h[..4] == [Attr(TypeAttr, f.inputType.GetOr("text")), Attr(ClassAttr, "form-control " + f.cssClass.GetOr("")),
        Attr(IdAttr, f.key), Attr(NameAttr, f.key)]
      && (!values.Undefined? ==> h[4] == Attr(ValueAttr, EscapeHtml(Some(ValueFor(values, f.key)))))
      && h[|h| - 1] == Attr(PlaceholderAttr, f.placeholder.GetOr(" "))
  {
    var h := LeadingAttrs(f, values);
    assert h[..4] == [h[0], h[1], h[2], h[3]];
  }

  /** The `<input>` `bootstrap_inputs` writes for one field, under a floating label. */
  function BootstrapInput(f: FieldSpec, values: Values): (r: InputElement)
    ensures Attr(TypeAttr, f.inputType.GetOr("text")) in r.attrs
    ensures Attr(ClassAttr, "form-control " + f.cssClass.GetOr("")) in r.attrs
    ensures Attr(IdAttr, f.key) in r.attrs && Attr(NameAttr, f.key) in r.attrs
    ensures HasAttr(r.attrs, ValueAttr) <==> !values.Undefined?
    ensures !values.Undefined? ==> Attr(ValueAttr, EscapeHtml(Some(ValueFor(values, f.key)))) in r.attrs
    ensures Attr(PlaceholderAttr, f.placeholder.GetOr(" ")) in r.attrs
    ensures HasAttr(r.attrs, RequiredAttr) <==> !f.optional
    ensures HasAttr(r.attrs, PatternAttr) <==> f.pattern.Some?
    ensures HasAttr(r.attrs, MaxlengthAttr) <==> f.maxlength.Some? && f.maxlength.value != 0
    ensures HasAttr(r.attrs, AutocompleteAttr) <==> f.autocomplete.Some? && f.autocomplete.value != ""
    ensures r.labelText == f.labelText && r.icon.None?
    ensures r.attrs == LeadingAttrs(f, values) + OptionalAttrs(f)
  {
    var head := LeadingAttrs(f, values);
    var tail := OptionalAttrs(f);
    OptionalAfter(head, f);
    InputElement(head + tail, f.labelText, None)
  }

  /** `bootstrap_inputs(fields, values)`: one input per field, in declaration order. */
  function BootstrapInputs(fields: seq<FieldSpec>, values: Values): (r: seq<InputElement>)
    ensures |r| == |fields|
    ensures forall i :: 0 <= i < |fields| ==> r[i] == BootstrapInput(fields[i], values)
  {
    seq(|fields|, i requires 0 <= i < |fields| => BootstrapInput(fields[i], values))
  }

  // ---------------------------------------------------------------- ListEditorMixin

  /** An element built with `ListEditorMixin`: item records in list order, the inputs for the
      next one, and the `validateInputs`/`getInputValues` hooks a subclass overrides. */
  class ListEditorMixin {
    const validateInputs: seq<Input> -> Check
    const getInputValues: seq<Input> -> map<string, string>

    /** One record per `[data-item]` row: its `data-field` names and values. */
    var items: seq<map<string, string>>
    var inputs: seq<Input>

    constructor (validateInputs: seq<Input> -> Check, getInputValues: seq<Input> -> map<string, string>, inputCount: nat)
      ensures this.validateInputs == validateInputs && this.getInputValues == getInputValues
      ensures items == [] && inputs == BlankInputs(inputCount)
    {
      this.validateInputs := validateInputs;
      this.getInputValues := getInputValues;
      items := [];
      inputs := BlankInputs(inputCount);
    }

    /** `count`: the number of item rows. */
    function Count(): (n: nat)
      reads this
      ensures n == |items|
    {
      |items|
    }

    /** `clearInputs`: every input loses its value and its custom validity message. */
    method ClearInputs()
      modifies this`inputs
      ensures inputs == BlankInputs(|old(inputs)|)
    {
      var i := 0;
      while i < |inputs|
        invariant i <= |inputs| == |old(inputs)|
        invariant forall j :: 0 <= j < i ==> inputs[j] == Input("", "")
      {
        inputs := inputs[i := Input("", "")];
        i := i + 1;
      }
    }

    /** `addItem`: a (truthy) validation message leaves the list alone and raises no `change`;
        otherwise the record the inputs describe is appended, the inputs are cleared and
        `change` is raised. */
    method AddItem() returns (changed: bool)
      modifies this`items, this`inputs
      ensures var c := validateInputs(old(inputs));
        if Truthy(c.error) then !changed && items == old(items) && inputs == c.inputs
        else changed && items == old(items) + [getInputValues(c.inputs)] && inputs == BlankInputs(|c.inputs|)
    {
      var c := validateInputs(inputs);
      inputs := c.inputs;
      if Truthy(c.error) {
        return false;
      }
      items := items + [getInputValues(inputs)];
      ClearInputs();
      return true;
    }

    /** The `remove` action on row i: that row goes, the others keep their order, and
        `change` is raised even when there was no row to remove. */
    method Remove(i: nat) returns (changed: bool)
      modifies this`items
      ensures changed
      ensures items == if i < |old(items)| then old(items)[..i] + old(items)[i + 1..] else old(items)
    {
      if i < |items| {
        items := items[..i] + items[i + 1..];
      }
      return true;
    }

    /** `getItems`: one record per row, in list order. */
    method GetItems() returns (xs: seq<map<string, string>>)
      ensures xs == items && |xs| == Count()
    {
      xs := items;
    }

    /** `setItems(xs)`: the list becomes exactly `xs`, in order. */
    method SetItems(xs: seq<map<string, string>>)
      modifies this`items
      ensures items == xs
    {
      items := xs;
    }

    /** `clear`: the list becomes empty. */
    method Clear()
      modifies this`items
      ensures items == [] && Count() == 0
    {
      items := [];
    }
  }

  // ---------------------------------------------------------------- ListGroupMixin

  /** An element built with `ListGroupMixin`: a list of `.list-group-item` entries. */
  class ListGroup {
    var entries: seq<string>

    constructor ()
      ensures entries == []
    {
      entries := [];
    }

    /** `addItem(item)`: one entry more, at the end. */
    method AddItem(item: string)
      modifies this
      ensures entries == old(entries) + [item]
    {
      entries := entries + [item];
    }

    /** `setItems(items)`: the entries become exactly `items`, in order. */
    method SetItems(items: seq<string>)
      modifies this
      ensures entries == items
    {
      entries := items;
    }

    /** `clear`: no entry is left. */
    method Clear()
      modifies this
      ensures entries == []
    {
      entries := [];
    }
  }
}
