/**
 * business.js, first part: the `FIELDS` schema of the application form, and the pharmacy and
 * pharmacist editors, which are `ListEditor`s with their own `validate()` and `values()`.
 */
module Business {
  import opened Wrappers
  import opened Text
  import opened Patterns
  import opened Fields
  import opened Components
  import Core

  // ---------------------------------------------------------------- FIELDS

  /** `FIELDS.contact`, in declaration order. */
  const Contact: seq<FieldSpec> := [
    Field("name", "Full Name").(autocomplete := Some("name"), icon := Some("person")),
    Field("position", "Position / Role").(icon := Some("briefcase")),
    Field("email", "Email Address").(inputType := Some("email"), icon := Some("envelope")),
    Field("telephone", "Phone Number (UK) ").(inputType := Some("tel"), pattern := Some(UkPhonePattern), icon := Some("telephone")),
    Field("invoiceEmail", "Invoice Email (optional)").(inputType := Some("email"), optional := true, icon := Some("receipt"))
  ]

  /** One entry of `FIELDS.business`: the key the radio button carries, its card and its fields. */
  datatype BusinessType = BusinessType(key: string, name: string, icon: string, description: string, fields: seq<FieldSpec>)

  const LimitedCompany := BusinessType("limitedCompany", "Limited Company", "building", "Registered company with Companies House", [
    Field("companyName", "Registered Company Name").(icon := Some("building")),
    Field("companyNumber", "Company Number").(pattern := Some(DigitsPattern(8)), maxlength := Some(8), placeholder := Some("8-digit number"), icon := Some("hash")),
    Field("registeredAddress", "Registered Office Address").(icon := Some("geo-alt")),
    Field("tradingAddress", "Trading Address (if different)").(optional := true, icon := Some("shop"))
  ])

  const SoleTrader := BusinessType("soleTrader", "Sole Trader", "person", "Self-employed individual", [
    Field("tradingName", "Trading Name").(icon := Some("tag")),
    Field("businessAddress", "Business Address").(icon := Some("geo-alt")),
    Field("utrNumber", "UTR Number (optional)").(optional := true, pattern := Some(DigitsPattern(10)), maxlength := Some(10), placeholder := Some("10-digit number"), icon := Some("file-earmark-text"))
  ])

  const Partnership := BusinessType("partnership", "Partnership", "people", "Two or more people in business together", [
    Field("partnershipName", "Partnership Name").(icon := Some("people")),
    Field("businessAddress", "Business Address").(icon := Some("geo-alt")),
    Field("partnerNames", "Partner Names").(placeholder := Some("Comma-separated names"), icon := Some("person-lines-fill")),
    Field("utrNumber", "Partnership UTR (optional)").(optional := true, pattern := Some(DigitsPattern(10)), maxlength := Some(10), icon := Some("file-earmark-text"))
  ])

  /** `FIELDS.business`, in declaration order. */
  const BusinessTypes: seq<BusinessType> := [LimitedCompany, SoleTrader, Partnership]

  /** `FIELDS.business[key]`: the type registered under the key, if any (`null` finds none). */
  function FindBusinessType(key: Option<string>): (r: Option<BusinessType>)
    ensures r.Some? <==> key.Some? && exists i :: 0 <= i < |BusinessTypes| && BusinessTypes[i].key == key.value
    ensures r.Some? ==> r.value in BusinessTypes && r.value.key == key.value
  {
    if key == Some(LimitedCompany.key) then assert BusinessTypes[0] == LimitedCompany; Some(LimitedCompany)
    else if key == Some(SoleTrader.key) then assert BusinessTypes[1] == SoleTrader; Some(SoleTrader)
    else if key == Some(Partnership.key) then assert BusinessTypes[2] == Partnership; Some(Partnership)
    else None
  }

  /** Every group's keys are unique, and so are the business type keys. */
  lemma SchemaKeysUnique()
    ensures UniqueFieldKeys(Contact)
    ensures forall b :: b in BusinessTypes ==> UniqueFieldKeys(b.fields)
    ensures forall i, j :: 0 <= i < j < |BusinessTypes| ==> BusinessTypes[i].key != BusinessTypes[j].key
  {
  }

  // ---------------------------------------------------------------- the editors' inputs

  /** The value of the i-th `[data-input]`, or "" when the editor has no such input. */
  function ValueAt(inputs: seq<Input>, i: nat): string {
    if i < |inputs| then inputs[i].value else ""
  }

  /** `setCustomValidity(msg)` on the i-th input (nothing when there is no such input). */
  function SetCustomError(inputs: seq<Input>, i: nat, msg: string): (r: seq<Input>)
    ensures |r| == |inputs| && InputValues(r) == InputValues(inputs)
    ensures i < |inputs| ==> r[i].customError == msg
    ensures forall j :: 0 <= j < |inputs| && j != i ==> r[j] == inputs[j]
  {
    if i < |inputs| then inputs[i := inputs[i].(customError := msg)] else inputs
  }

  // ---------------------------------------------------------------- pharmacy editor

  /** A pharmacy row: its ODS code. */
  datatype PharmacyItem = PharmacyItem(ods: string)

  /** The pharmacy editor's `validate()`: `Validators.ods` on the trimmed code; a failure is also
      set as the input's custom validity message. */
  function PharmacyValidate(inputs: seq<Input>): (c: Check)
    ensures c.error.None? <==> OdsLanguage(Trim(ValueAt(inputs, 0)))
    ensures c.error.Some? ==> c.error == Some("Format: FA123") && c.inputs == SetCustomError(inputs, 0, "Format: FA123")
    ensures c.error.None? ==> c.inputs == inputs
  {
    var error := Core.Ods(Trim(ValueAt(inputs, 0)));
    if Truthy(error) then Check(error, SetCustomError(inputs, 0, error.value)) else Check(error, inputs)
  }

  /** The pharmacy editor's `values()`: the trimmed code in upper case. */
  function PharmacyValues(inputs: seq<Input>): (item: PharmacyItem)
    ensures item.ods == UpperAscii(Trim(ValueAt(inputs, 0)))
    ensures |item.ods| <= |ValueAt(inputs, 0)|
    ensures forall i :: 0 <= i < |item.ods| ==> !IsLower(item.ods[i])
  {
    PharmacyItem(UpperAscii(Trim(ValueAt(inputs, 0))))
  }

  /** Upper-casing keeps a string inside the ODS language: letters stay letters, digits stay. */
  lemma UpperAsciiKeepsOds(s: string)
    requires OdsLanguage(s)
    ensures OdsLanguage(UpperAscii(s))
  {
    var k :| 2 <= k <= 3 && k <= |s| && 2 <= |s| - k <= 3 && AllLetters(s[..k]) && AllDigits(s[k..]);
    var u := UpperAscii(s);
    assert AllLetters(u[..k]) by {
      forall i | 0 <= i < k ensures IsLetter(u[..k][i]) {
        assert IsLetter(s[..k][i]);
      }
    }
    assert AllDigits(u[k..]) by {
      forall i | 0 <= i < |u| - k ensures IsDigit(u[k..][i]) {
        assert IsDigit(s[k..][i]);
      }
    }
  }

  /** An accepted pharmacy row holds a well-formed code in upper case. */
  lemma AcceptedPharmacyIsOdsCode(inputs: seq<Input>)
    requires PharmacyValidate(inputs).error.None?
    ensures OdsLanguage(PharmacyValues(inputs).ods)
    ensures forall i :: 0 <= i < |PharmacyValues(inputs).ods| ==> !IsLower(PharmacyValues(inputs).ods[i])
  {
    UpperAsciiKeepsOds(Trim(ValueAt(inputs, 0)));
  }

  /** The pharmacy editor's verdict on a single typed value. */
  lemma PharmacyValidateOne(typed: string)
    ensures PharmacyValidate([Input(typed, "")]) ==
      if OdsLanguage(Trim(typed)) then Check(None, [Input(typed, "")])
      else Check(Some("Format: FA123"), [Input(typed, "Format: FA123")])
  {
    var inputs := [Input(typed, "")];
    assert ValueAt(inputs, 0) == typed;
    var c := PharmacyValidate(inputs);
    if !OdsLanguage(Trim(typed)) {
      assert c.inputs == SetCustomError(inputs, 0, "Format: FA123");
      assert SetCustomError(inputs, 0, "Format: FA123") == [Input(typed, "Format: FA123")];
    }
  }

  /** A worked example: the lower-case code "fa123" is accepted and the input is left as typed. */
  lemma PharmacyExample()
    ensures PharmacyValidate([Input("fa123", "")]) == Check(None, [Input("fa123", "")])
  {
    TrimUnpadded("fa123");
    assert OdsLanguage("fa123") by {
      Core.ValidatorExamples();
    }
    PharmacyValidateOne("fa123");
  }

  /** ... and stored as "FA123". */
  lemma PharmacyStoredExample()
    ensures PharmacyValues([Input("fa123", "")]) == PharmacyItem("FA123")
  {
    assert ValueAt([Input("fa123", "")], 0) == "fa123";
    TrimUnpadded("fa123");
    var u := UpperAscii("fa123");
    assert u[0] == 'F' && u[1] == 'A' && u[2] == '1' && u[3] == '2' && u[4] == '3';
  }

  /** A code too short to be one is refused, and the input is marked with the format hint. */
  lemma PharmacyRejectExample()
    ensures PharmacyValidate([Input("F1", "")]) == Check(Some("Format: FA123"), [Input("F1", "Format: FA123")])
  {
    TrimUnpadded("F1");
    assert !OdsLanguage("F1") by {
      Core.ValidatorExamples();
    }
    PharmacyValidateOne("F1");
  }

  // ---------------------------------------------------------------- pharmacist editor

  /** A pharmacist row: GPhC registration number and name. */
  datatype PharmacistItem = PharmacistItem(gphc: string, name: string)

  /** The pharmacist editor's `validate()`: the GPhC number is checked first (and its input's
      custom validity set or cleared), then the name; the first failure is returned. */
  function PharmacistValidate(inputs: seq<Input>): (c: Check)
    ensures !IsDigitString(Trim(ValueAt(inputs, 0)), 7) ==>
      c.error == Some("Must be 7 digits") && c.inputs == SetCustomError(inputs, 0, "Must be 7 digits")
    ensures IsDigitString(Trim(ValueAt(inputs, 0)), 7) ==>
      c.inputs == SetCustomError(inputs, 0, "") &&
      c.error == (if AllWhitespace(ValueAt(inputs, 1)) then Some("Name required") else None)
  {
    var gphc := Trim(ValueAt(inputs, 0));
    var err := Core.Digits(7, gphc);
    Core.SevenDigitsMessage();
    if Truthy(err) then
      Check(err, SetCustomError(inputs, 0, err.value))
    else
      var cleared := SetCustomError(inputs, 0, "");
      if Trim(ValueAt(inputs, 1)) == "" then Check(Some("Name required"), cleared) else Check(None, cleared)
  }

  /** The pharmacist editor's `values()`: both inputs trimmed. */
  function PharmacistValues(inputs: seq<Input>): (item: PharmacistItem)
    ensures item.gphc == Trim(ValueAt(inputs, 0)) && item.name == Trim(ValueAt(inputs, 1))
  {
    PharmacistItem(Trim(ValueAt(inputs, 0)), Trim(ValueAt(inputs, 1)))
  }

  /** An accepted pharmacist row has a 7-digit number and a name that neither is empty nor
      starts or ends with whitespace. */
  lemma AcceptedPharmacistIsWellFormed(inputs: seq<Input>)
    requires PharmacistValidate(inputs).error.None?
    ensures IsDigitString(PharmacistValues(inputs).gphc, 7)
    ensures var n := PharmacistValues(inputs).name; n != [] && !IsWhitespace(n[0]) && !IsWhitespace(n[|n| - 1])
  {
  }

  // ---------------------------------------------------------------- the editors at work

  /** A fresh pharmacy editor after one value is typed and Add pressed: a well-formed code
      becomes the only row and the input is cleared; anything else adds no row and leaves the
      format hint on the input. */
  method PharmacyEditorAdd(typed: string) returns (items: seq<PharmacyItem>, hint: string)
    ensures OdsLanguage(Trim(typed)) ==> items == [PharmacyValues([Input(typed, "")])] && hint == ""
    ensures !OdsLanguage(Trim(typed)) ==> items == [] && hint == "Format: FA123"
  {
    var editor := new ListEditor<PharmacyItem>(PharmacyValidate, PharmacyValues, 1);
    var typedInputs := [Input(typed, "")];
    editor.inputs := typedInputs;
    var c := PharmacyValidate(typedInputs);
    PharmacyValidateOne(typed);
    var item := PharmacyValues(c.inputs);
    editor.Add();
    assert editor.validate(typedInputs) == c && editor.values(c.inputs) == item;
    items := editor.items;
    hint := editor.inputs[0].customError;
  }
}
