/**
 * business.js, second part: the three-step `business-application` wizard. Its state is the
 * current step, the selected business type, the saved record of every value seen so far and
 * whether the success card has replaced the form. The form the browser shows is not state
 * here: its entries, the validity of its inputs and its named controls are passed in.
 */
module Wizard {
  import opened Wrappers
  import opened Fields
  import opened FormData
  import opened Business
  import Core

  const TotalSteps: int := 3

  // ---------------------------------------------------------------- what each step shows

  /** A business type card with its radio button. */
  datatype RadioOption = RadioOption(key: string, name: string, description: string, checked: bool)

  /** The fields of the selected business type on the details step. */
  datatype VariantView = VariantView(name: string, inputs: seq<InputElement>)

  /** The step content `renderStep` writes. The details step also holds a fresh, empty pharmacy
      editor and pharmacist editor. */
  datatype StepView =
    | ContactStep(inputs: seq<InputElement>)
    | BusinessTypeStep(options: seq<RadioOption>)
    | DetailsStep(variant: Option<VariantView>)

  /** The card `renderBusinessTypeStep` writes for one business type. */
  function Card(b: BusinessType, selected: Option<string>): RadioOption {
    RadioOption(b.key, b.name, b.description, selected == Some(b.key))
  }

  /** `renderStep`: the contact fields, the business type cards, or the selected type's fields.
      Inputs are written without values; `restoreFormData` fills them afterwards. */
  function RenderStep(step: int, selected: Option<string>): (v: StepView)
    requires 1 <= step <= TotalSteps
    ensures step == 1 ==> (
      && v.ContactStep? && |v.inputs| == |Contact|
      && forall i :: 0 <= i < |Contact| ==>
        v.inputs[i] == Core.FormInput(Contact[i], Undefined) && Attr(ValueAttr, "") in v.inputs[i].attrs)
    ensures step == 2 ==> (
      && v.BusinessTypeStep? && |v.options| == |BusinessTypes|
      && forall i :: 0 <= i < |BusinessTypes| ==>
        v.options[i].key == BusinessTypes[i].key && (v.options[i].checked <==> selected == Some(BusinessTypes[i].key)))
    ensures step == 3 ==> (
      && v.DetailsStep? && (v.variant.Some? <==> FindBusinessType(selected).Some?)
      && (v.variant.Some? ==> v.variant.value.inputs == Core.FormInputs(FindBusinessType(selected).value.fields, Undefined)))
  {
    if step == 1 then
      var inputs := Core.FormInputs(Contact, Undefined);
      assert forall i :: 0 <= i < |Contact| ==> Attr(ValueAttr, "") in inputs[i].attrs by {
        assert Core.Html(Some("")) == "";
      }
      ContactStep(inputs)
    else if step == 2 then
      BusinessTypeStep(seq(|BusinessTypes|, i requires 0 <= i < |BusinessTypes| => Card(BusinessTypes[i], selected)))
    else
      match FindBusinessType(selected)
      case Some(b) => DetailsStep(Some(VariantView(b.name, Core.FormInputs(b.fields, Undefined))))
      case None => DetailsStep(None)
  }

  /** At most one business type card is checked. */
  lemma AtMostOneChecked(selected: Option<string>)
    ensures var v := RenderStep(2, selected);
      forall i, j :: 0 <= i < j < |v.options| ==> !(v.options[i].checked && v.options[j].checked)
  {
    SchemaKeysUnique();
  }

  // ---------------------------------------------------------------- validateCurrentStep

  /** The position of the first invalid input, if any. */
  function FirstInvalid(validity: seq<bool>): (r: Option<nat>)
    ensures r.None? <==> forall i :: 0 <= i < |validity| ==> validity[i]
    ensures r.Some? ==> (r.value < |validity| && !validity[r.value]
      && forall j :: 0 <= j < r.value ==> validity[j])
  {
    if validity == [] then None
    else if !validity[0] then Some(0)
    else match FirstInvalid(validity[1..])
      case None => None
      case Some(j) => Some(j + 1)
  }

  /** The outcome of `validateCurrentStep`: every input passes and, on step 2, a type is chosen;
      otherwise the first invalid input is reported, or the missing business type. */
  datatype StepVerdict = Pass | InvalidInput(index: nat) | NoBusinessType

  function StepCheck(step: int, selected: Option<string>, validity: seq<bool>): (v: StepVerdict)
    ensures v.Pass? <==> (forall i :: 0 <= i < |validity| ==> validity[i]) && (step == 2 ==> Truthy(selected))
    ensures v.InvalidInput? ==> (v.index < |validity| && !validity[v.index]
      && forall j :: 0 <= j < v.index ==> validity[j])
    ensures v.NoBusinessType? ==> (step == 2 && !Truthy(selected)
      && forall i :: 0 <= i < |validity| ==> validity[i])
  {
    match FirstInvalid(validity)
    case Some(i) => InvalidInput(i)
    case None => if step == 2 && !Truthy(selected) then NoBusinessType else Pass
  }

  /** How the browser judges a step made of schema fields holding the given values. */
  function FieldValidity(fields: seq<FieldSpec>, values: seq<string>): (r: seq<bool>)
    requires |values| == |fields|
    ensures |r| == |fields| && forall i :: 0 <= i < |fields| ==> r[i] == FieldValid(fields[i], values[i])
  {
    seq(|fields|, i requires 0 <= i < |fields| => FieldValid(fields[i], values[i]))
  }

  /** An empty required field, or a non-empty value its pattern rejects, blocks the step. */
  lemma InvalidFieldBlocksStep(step: int, selected: Option<string>, fields: seq<FieldSpec>, values: seq<string>, i: nat)
    requires |values| == |fields| && i < |fields|
    requires (values[i] == "" && !fields[i].optional)
      || (values[i] != "" && fields[i].pattern.Some? && !Patterns.Matches(fields[i].pattern.value, values[i]))
    ensures !StepCheck(step, selected, FieldValidity(fields, values)).Pass?
  {
    assert !FieldValidity(fields, values)[i];
  }

  // ---------------------------------------------------------------- restoreFormData

  /** A named form control on the rendered step. */
  datatype Control = Control(name: string, isRadio: bool, value: string)

  /** `form.querySelector('[name="..."]')`: the first control with the name. */
  function FirstNamed(cs: seq<Control>, name: string): (r: Option<nat>)
    ensures r.None? ==> forall i :: 0 <= i < |cs| ==> cs[i].name != name
    ensures r.Some? ==> (r.value < |cs| && cs[r.value].name == name
      && forall j :: 0 <= j < r.value ==> cs[j].name != name)
  {
    if cs == [] then None
    else if cs[0].name == name then Some(0)
    else match FirstNamed(cs[1..], name)
      case None => None
      case Some(j) => Some(j + 1)
  }

  /** No earlier control shares the name of control i. */
  predicate IsFirstNamed(cs: seq<Control>, i: nat)
    requires i < |cs|
  {
    forall j :: 0 <= j < i ==> cs[j].name != cs[i].name
  }

  /** What restoring leaves in each control: a control that is the first of its name, is not a
      radio button, and whose name the record holds takes the saved value; every other control
      keeps its value. */
  function Restored(saved: seq<Entry>, cs: seq<Control>): (r: seq<Control>)
    ensures |r| == |cs|
    ensures forall i :: 0 <= i < |cs| ==> r[i].name == cs[i].name && r[i].isRadio == cs[i].isRadio
  {
    seq(|cs|, i requires 0 <= i < |cs| =>
      if IsFirstNamed(cs, i) && !cs[i].isRadio && Has(saved, cs[i].name)
      then cs[i].(value := Lookup(saved, cs[i].name).value)
      else cs[i])
  }

  lemma FirstNamedIsFirst(cs: seq<Control>, i: nat)
    requires i < |cs|
    ensures IsFirstNamed(cs, i) <==> FirstNamed(cs, cs[i].name) == Some(i)
  {
  }

  /** Controls with the same names in the same places give the same `querySelector` answers. */
  lemma FirstNamedSameNames(a: seq<Control>, b: seq<Control>, name: string)
    requires |a| == |b| && forall i :: 0 <= i < |a| ==> a[i].name == b[i].name
    ensures FirstNamed(a, name) == FirstNamed(b, name)
  {
    var x, y := FirstNamed(a, name), FirstNamed(b, name);
    if x.Some? && y.Some? {
      assert b[x.value].name == name && a[y.value].name == name;
    }
  }

  /** Restoring from a record with one more key changes at most the first control of that name. */
  lemma RestoredSnoc(saved: seq<Entry>, e: Entry, cs: seq<Control>)
    requires !Has(saved, e.key)
    ensures var cur := Restored(saved, cs);
      var idx := FirstNamed(cs, e.key);
      Restored(saved + [e], cs) ==
        if idx.Some? && !cs[idx.value].isRadio then cur[idx.value := cur[idx.value].(value := e.value)] else cur
  {
    var cur := Restored(saved, cs);
    var next := Restored(saved + [e], cs);
    var idx := FirstNamed(cs, e.key);
    var expected := if idx.Some? && !cs[idx.value].isRadio then cur[idx.value := cur[idx.value].(value := e.value)] else cur;
    assert saved + [e] == Assign(saved, e.key, e.value);
    forall i | 0 <= i < |cs|
      ensures next[i] == expected[i]
    {
      var n := cs[i].name;
      AssignLookup(saved, e.key, e.value, n);
      FirstNamedIsFirst(cs, i);
    }
  }

  /** Navigation keeps what was typed: once the live entries are saved, restoring fills the
      first non-radio control of each live name with the last value the form held for it. */
  lemma SaveThenRestore(saved: seq<Entry>, live: seq<Entry>, cs: seq<Control>, i: nat)
    requires i < |cs| && IsFirstNamed(cs, i) && !cs[i].isRadio && Has(live, cs[i].name)
    ensures Restored(SaveAll(saved, live), cs)[i].value == LastValue(live, cs[i].name).value
  {
    SaveAllKeys(saved, live, cs[i].name);
    SaveAllLookup(saved, live, cs[i].name);
  }

  // ---------------------------------------------------------------- submit and result

  /** What `submit` ends in: blocked by step validation (the browser's report or the missing
      business type toast), a toast about an empty editor, or a posted `journal-post` event. */
  datatype SubmitOutcome =
    | Blocked(verdict: StepVerdict)
    | Notice(message: string)
    | Posted(kind: string, data: seq<Entry>)

  /** The toast `result` raises. */
  datatype Toast = ErrorToast(message: string) | SuccessToast(message: string)

  /** The posted record, read name by name: `id` when given; otherwise a live name keeps all
      its live values, and a name the form lacks brings the value saved for it earlier, from
      any step and any business type ever selected. */
  lemma SubmittedValues(saved: seq<Entry>, live: seq<Entry>, k: Option<string>, key: string)
    requires UniqueKeys(saved)
    ensures GetAll(Assemble(live, SaveAll(saved, live), k), key) ==
      if Truthy(k) && key == "id" then [k.value]
      else if Has(live, key) then GetAll(live, key)
      else if Has(saved, key) then [Lookup(saved, key).value]
      else []
  {
    AssembleGetAll(live, SaveAll(saved, live), k, key);
    SaveAllLookup(saved, live, key);
  }

  /** The loop of `submit` over the saved record: an entry whose name the form data does not
      have yet is `set`, which appends it. The result is the form data followed by the saved
      entries it lacked. */
  method AddSaved(live: seq<Entry>, saved: seq<Entry>) returns (data: seq<Entry>)
    requires UniqueKeys(saved)
    ensures data == live + Missing(saved, live)
  {
    data := live;
    var i := 0;
    while i < |saved|
      invariant i <= |saved|
      invariant data == live + Missing(saved[..i], live)
    {
      var e := saved[i];
      MissingStep(live, saved, i);
      if !Has(data, e.key) {
        data := SetEntry(data, e.key, e.value);
      }
      i := i + 1;
    }
    assert saved[..|saved|] == saved;
  }

  // ---------------------------------------------------------------- the element

  class BusinessApplication {
    var currentStep: int
    var selectedBusinessType: Option<string>
    /** `_formData`; never having saved and having saved nothing read alike. */
    var formData: seq<Entry>
    /** Whether `result` has replaced the form with the success card. */
    var submitted: bool

    ghost predicate Valid()
      reads this
    {
      1 <= currentStep <= TotalSteps && UniqueKeys(formData)
    }

    constructor ()
      ensures Valid()
      ensures currentStep == 1 && selectedBusinessType == None && formData == [] && !submitted
    {
      currentStep := 1;
      selectedBusinessType := None;
      formData := [];
      submitted := false;
    }

    /** The `change` listener: a change of a `businessType` radio selects its value. */
    method OnChange(name: string, value: string)
      modifies this`selectedBusinessType
      ensures selectedBusinessType == if name == "businessType" then Some(value) else old(selectedBusinessType)
    {
      if name == "businessType" {
        selectedBusinessType := Some(value);
      }
    }

    /** `validateCurrentStep`: the inputs in order, then the business type on step 2. */
    method ValidateCurrentStep(validity: seq<bool>) returns (v: StepVerdict)
      ensures v == StepCheck(currentStep, selectedBusinessType, validity)
    {
      var i := 0;
      while i < |validity|
        invariant i <= |validity|
        invariant forall j :: 0 <= j < i ==> validity[j]
      {
        if !validity[i] {
          return InvalidInput(i);
        }
        i := i + 1;
      }
      if currentStep == 2 && !Truthy(selectedBusinessType) {
        return NoBusinessType;
      }
      return Pass;
    }

    /** `saveFormData`: every live entry is assigned into the record in turn. Once the success
        card has replaced the form there is nothing to read. */
    method SaveFormData(live: seq<Entry>)
      requires Valid()
      modifies this`formData
      ensures Valid()
      ensures formData == if submitted then old(formData) else SaveAll(old(formData), live)
    {
      if submitted {
        return;
      }
      var i := 0;
      while i < |live|
        invariant i <= |live|
        invariant formData == SaveAll(old(formData), live[..i])
      {
        assert live[..i + 1][..i] == live[..i];
        formData := Assign(formData, live[i].key, live[i].value);
        i := i + 1;
      }
      assert live[..|live|] == live;
    }

    /** `restoreFormData`, run once the new step is rendered with the given controls: each saved
        entry, in record order, is written into the first control of its name unless that is a
        radio button. */
    method RestoreFormData(controls: seq<Control>) returns (restored: seq<Control>)
      requires Valid()
      ensures restored == Restored(formData, controls)
    {
      restored := controls;
      var i := 0;
      while i < |formData|
        invariant i <= |formData|
        invariant restored == Restored(formData[..i], controls)
      {
        var e := formData[i];
        var idx := FirstNamed(restored, e.key);
        FirstNamedSameNames(restored, controls, e.key);
        assert !Has(formData[..i], e.key);
        RestoredSnoc(formData[..i], e, controls);
        assert formData[..i + 1] == formData[..i] + [e];
        if idx.Some? && !restored[idx.value].isRadio {
          restored := restored[idx.value := restored[idx.value].(value := e.value)];
        }
        i := i + 1;
      }
      assert formData[..|formData|] == formData;
    }

    /** `nextStep`: a failed validation changes nothing; otherwise the form is saved and the
        wizard moves on unless it is on the last step. */
    method NextStep(live: seq<Entry>, validity: seq<bool>) returns (verdict: StepVerdict)
      requires Valid() && !submitted
      modifies this`currentStep, this`formData
      ensures Valid()
      ensures verdict == StepCheck(old(currentStep), selectedBusinessType, validity)
      ensures !verdict.Pass? ==> currentStep == old(currentStep) && formData == old(formData)
      ensures verdict.Pass? ==> (formData == SaveAll(old(formData), live)
        && currentStep == if old(currentStep) < TotalSteps then old(currentStep) + 1 else old(currentStep))
    {
      verdict := ValidateCurrentStep(validity);
      if !verdict.Pass? {
        return;
      }
      SaveFormData(live);
      if currentStep < TotalSteps {
        currentStep := currentStep + 1;
      }
    }

    /** `prevStep`: never validated; saves the form, then moves back unless on the first step.
        Moving back renders the wizard again, which replaces the success card. */
    method PrevStep(live: seq<Entry>)
      requires Valid()
      modifies this`currentStep, this`formData, this`submitted
      ensures Valid()
      ensures formData == if old(submitted) then old(formData) else SaveAll(old(formData), live)
      ensures currentStep == if old(currentStep) > 1 then old(currentStep) - 1 else old(currentStep)
      ensures submitted == (old(submitted) && old(currentStep) == 1)
    {
      SaveFormData(live);
      if currentStep > 1 {
        currentStep := currentStep - 1;
        submitted := false;
      }
    }

    /** `submit`: step validation, then the pharmacy count, then the pharmacist count; only then
        is the form saved and a record posted, built from the live entries, each saved entry
        the form lacks, and `id` from attribute `k` when that is non-empty. */
    method Submit(live: seq<Entry>, validity: seq<bool>, pharmacyCount: nat, pharmacistCount: nat, k: Option<string>)
      returns (out: SubmitOutcome)
      requires Valid() && !submitted
      modifies this`formData
      ensures Valid()
      ensures var v := StepCheck(currentStep, selectedBusinessType, validity);
        if !v.Pass? then out == Blocked(v) && formData == old(formData)
        else if pharmacyCount == 0 then out == Notice("Add at least one pharmacy") && formData == old(formData)
        else if pharmacistCount == 0 then out == Notice("Add at least one pharmacist") && formData == old(formData)
        else (formData == SaveAll(old(formData), live)
          && out == Posted(if Truthy(k) then "business-accept" else "business-application", Assemble(live, formData, k)))
    {
      var v := ValidateCurrentStep(validity);
      if !v.Pass? {
        return Blocked(v);
      }
      if pharmacyCount == 0 {
        return Notice("Add at least one pharmacy");
      }
      if pharmacistCount == 0 {
        return Notice("Add at least one pharmacist");
      }
      SaveFormData(live);
      var data := AddSaved(live, formData);
      if Truthy(k) {
        data := SetEntry(data, "id", k.value);
      }
      out := Posted(if Truthy(k) then "business-accept" else "business-application", data);
    }

    /** `result`: an empty or missing reply, or an error, raises the error toast; otherwise the
        success card replaces the form and the success toast is raised. */
    method Result(replyLength: Option<nat>, error: bool) returns (toast: Toast)
      modifies this`submitted
      ensures var ok := replyLength.Some? && replyLength.value > 0 && !error;
        (ok ==> submitted && toast == SuccessToast("Sent!"))
        && (!ok ==> submitted == old(submitted) && toast == ErrorToast("An error occurred"))
    {
      if replyLength.None? || replyLength.value == 0 || error {
        return ErrorToast("An error occurred");
      }
      submitted := true;
      return SuccessToast("Sent!");
    }
  }
}
