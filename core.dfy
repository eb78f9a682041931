/**
 * core.js: the `html` escaper, the `Validators` record (`required`, `digits(n)`, `ods`) and
 * `formInputs`, which turns a field group into one floating-label input per field.
 */
module Core {
  import opened Wrappers
  import opened Text
  import opened Patterns
  import opened Fields

  /** `html(str)`: `null` and `undefined` give the empty string; otherwise each of & < > " '
      becomes its entity. The result has no raw markup character and decodes to the input. */
  function Html(str: Option<string>): (r: string)
    ensures str.None? ==> r == ""
    ensures str.Some? ==> Unescape(r) == str.value && |r| >= |str.value|
    ensures forall i :: 0 <= i < |r| ==> !IsMarkupChar(r[i])
  {
    match str
    case None => ""
    case Some(s) => UnescapeEscape(s); Escape(s)
  }

  // ---------------------------------------------------------------- Validators

  /** `Validators.required`: no error exactly when the value exists and holds a character
      other than whitespace. */
  function Required(v: Option<string>): (r: Option<string>)
    ensures r.None? <==> v.Some? && exists i :: 0 <= i < |v.value| && !IsWhitespace(v.value[i])
    ensures r.Some? ==> r.value == "Required"
  {
    if v.Some? && Trim(v.value) != "" then None else Some("Required")
  }

  /** `Validators.digits(n)`: no error exactly when the value is n ASCII digits. */
  function Digits(n: nat, v: string): (r: Option<string>)
    ensures r.None? <==> |v| == n && forall i :: 0 <= i < |v| ==> '0' <= v[i] <= '9'
    ensures r.Some? ==> r.value == "Must be " + NatToString(n) + " digits"
  {
    if IsDigitString(v, n) then None else Some("Must be " + NatToString(n) + " digits")
  }

  /** The message of `digits(7)`, spelled out. */
  lemma SevenDigitsMessage()
    ensures "Must be " + NatToString(7) + " digits" == "Must be 7 digits"
  {
    assert NatToString(7) == "7";
  }

  /** `Validators.ods`: no error exactly when the value is in the language of
      `[a-zA-Z]{2,3}\d{2,3}` (case-insensitive). */
  function Ods(v: string): (r: Option<string>)
    ensures r.None? <==> OdsLanguage(v)
    ensures r.Some? ==> r.value == "Format: FA123"
  {
    OdsCodeIsOdsLanguage(v);
    if IsOdsCode(v) then None else Some("Format: FA123")
  }

  /** The worked examples: a 7-digit registration passes `digits(7)` and a 5-digit one fails;
      a lower-case site code passes `ods` and a too-short one fails with the format hint. */
  lemma ValidatorExamples()
    ensures Digits(7, "1234567") == None
    ensures Digits(7, "12345") == Some("Must be 7 digits")
    ensures Ods("fa123") == None
    ensures Ods("F1") == Some("Format: FA123")
  {
    SevenDigitsMessage();
    assert LeadingLetters("fa123") == 2 by {
      LeadingLettersAt("fa123", 2);
    }
    assert "fa123"[2..] == "123";
  }

  // ---------------------------------------------------------------- formInputs

  /** The `<input>` `formInputs` writes for one field, wrapped in an icon input group when the
      field has an icon. */
  function FormInput(f: FieldSpec, values: Values): (r: InputElement)
    ensures Attr(TypeAttr, f.inputType.GetOr("text")) in r.attrs
    ensures Attr(IdAttr, f.key) in r.attrs && Attr(NameAttr, f.key) in r.attrs
    ensures Attr(ValueAttr, Html(Some(ValueFor(values, f.key)))) in r.attrs
    ensures Attr(PlaceholderAttr, f.placeholder.GetOr(f.labelText)) in r.attrs
    ensures HasAttr(r.attrs, RequiredAttr) <==> !f.optional
    ensures HasAttr(r.attrs, PatternAttr) <==> f.pattern.Some?
    ensures HasAttr(r.attrs, MaxlengthAttr) <==> f.maxlength.Some? && f.maxlength.value != 0
    ensures HasAttr(r.attrs, AutocompleteAttr) <==> f.autocomplete.Some? && f.autocomplete.value != ""
    ensures r.labelText == f.labelText
    ensures r.icon.Some? <==> f.icon.Some? && f.icon.value != ""
  {
    var head := [
      Attr(TypeAttr, f.inputType.GetOr("text")),
      Attr(ClassAttr, "form-control"),
      Attr(IdAttr, f.key),
      Attr(NameAttr, f.key),
      Attr(ValueAttr, Html(Some(ValueFor(values, f.key)))),
      Attr(PlaceholderAttr, f.placeholder.GetOr(f.labelText))
    ];
    var tail := OptionalAttrs(f);
    NamesWithin(head, {TypeAttr, ClassAttr, IdAttr, NameAttr, ValueAttr, PlaceholderAttr});
    OptionalAfter(head, f);
    InputElement(head + tail, f.labelText, if f.icon.Some? && f.icon.value != "" then f.icon else None)
  }

  /** The order of `formInputs`' attributes: type, class, id, name, value and placeholder,
      then the optional part in its own order. */
  lemma FormInputOrder(f: FieldSpec, values: Values)
    ensures var a := FormInput(f, values).attrs;
      && |a| >= 6 && a[6..] == OptionalAttrs(f)
      && a[..6] == [
        Attr(TypeAttr, f.inputType.GetOr("text")), Attr(ClassAttr, "form-control"),
        Attr(IdAttr, f.key), Attr(NameAttr, f.key),
        Attr(ValueAttr, Html(Some(ValueFor(values, f.key)))),
        Attr(PlaceholderAttr, f.placeholder.GetOr(f.labelText))]
  {
    var a := FormInput(f, values).attrs;
    assert a[..6] == [a[0], a[1], a[2], a[3], a[4], a[5]];
  }

  /** `formInputs(fields, values)`: one input per field, in declaration order. */
  function FormInputs(fields: seq<FieldSpec>, values: Values): (r: seq<InputElement>)
    ensures |r| == |fields|
    ensures forall i :: 0 <= i < |fields| ==> r[i] == FormInput(fields[i], values)
    ensures forall i :: 0 <= i < |fields| ==> Attr(NameAttr, fields[i].key) in r[i].attrs && r[i].labelText == fields[i].labelText
  {
    seq(|fields|, i requires 0 <= i < |fields| => FormInput(fields[i], values))
  }
}
