# Pharmacy business application form — a Dafny model

This project models the client side of a pharmacy business-application form, built from
custom elements:

- **The shared helpers of `core.js`.**
  - `html` escapes markup characters.
  - The `Validators` record gives `required`, `digits(n)` and `ods`.
  - `formInputs` writes one floating-label `<input>` per schema field.
- **The second generation of those helpers in `spa.js`.**
  - `escapeHTML`.
  - A `Validators` record with its own messages and a UK phone check.
  - `bootstrap_inputs`.
  - The two mixins: `ListEditorMixin` (a list of records with an add row) and `ListGroupMixin`
    (a list group).
- **The `ListEditor` element of `components.js`.**
  - An ordered list of items, a row of inputs for the next item and an empty-list hint.
  - A subclass supplies `validate()` and `values()`.
- **The business application of `business.js`.**
  - The `FIELDS` schema: contact details, and three business types (limited company, sole
    trader, partnership), each with its own fields.
  - The pharmacy editor (ODS codes) and the pharmacist editor (GPhC number and name).
  - The three-step `business-application` wizard. It validates the current step, saves every
    value the form has shown into a record (`_formData`) and restores it after each step change.
    On submit it posts the live form data together with every saved value the form no longer
    shows.

Modules, one concept each:

| file | module | what it holds |
|---|---|---|
| `wrappers.dfy` | `Wrappers` | `Option`, and JavaScript truthiness of an optional string |
| `text.dfy` | `Text` | the string primitives the code relies on: `trim`, whitespace removal, ASCII upper case, decimal numbers, HTML escaping and its inverse |
| `patterns.dfy` | `Patterns` | recognisers for the fixed regular expressions: the ODS code and UK phone recognisers are proved equal to a literal reading of their expressions, and the n-digits recogniser is itself that reading |
| `fields.dfy` | `Fields` | the field schema, rendered inputs as attribute lists, editor inputs, browser validity of a schema field |
| `core.dfy` | `Core` | `core.js` |
| `spa.dfy` | `Spa` | `spa.js`; the mixins are the classes `ListEditorMixin` and `ListGroup` |
| `components.dfy` | `Components` | `ListEditor`, a class whose subclass hooks are function-valued constants |
| `formdata.dfy` | `FormData` | `FormData` as an ordered multi-map, and a JavaScript object as an insertion-ordered record |
| `business.dfy` | `Business` | `FIELDS` and the two editors |
| `wizard.dfy` | `Wizard` | the `business-application` element, the class `BusinessApplication` |

The wizard's own state is a class with these fields:
- the step;
- the selected business type;
- the saved record;
- whether the success card has replaced the form.

What the browser holds is passed to its methods as parameters:
- the live form entries, in document order;
- the validity of each input on the step;
- the named controls of a freshly rendered step;
- the editors' item counts;
- the `k` attribute;
- the reply to the post.

## Model

| member | source | states |
|---|---|---|
| Text.Trim | core.js:13 | the trimmed string is empty exactly when the input is all whitespace, and otherwise neither starts nor ends with whitespace |
| Text.TrimOfPadded | business.js:103 | trimming removes exactly the whitespace padding around a core that starts and ends with non-whitespace |
| Text.StripWhitespace | spa.js:10 | the result holds no whitespace and is no longer than the input |
| Text.StripWhitespaceAppend | spa.js:10 | removing whitespace distributes over concatenation |
| Text.StripWhitespaceKeeps | spa.js:10 | a string without whitespace is left unchanged |
| Text.StripWhitespaceDrops | spa.js:10 | any whitespace character inserted anywhere is deleted, not replaced: the result equals that of the string without it |
| Text.UpperAscii | business.js:103 | same length; no lower-case letter is left; every lower-case letter moves 32 code points down and every other character is kept |
| Text.NatToString | core.js:15 | the decimal numeral is non-empty, all digits, and has no leading zero |
| Text.ParseNatToString | core.js:15 | reading the numeral back gives the number |
| Text.Escape | core.js:3-10 | the escaped text holds no markup character and is at least as long as the input |
| Text.EscapeAppend | core.js:4-9 | escaping is character by character: it distributes over concatenation |
| Text.EscapePlain | core.js:4-9 | text without `&` or markup characters is left unchanged |
| Text.UnescapeEscape | core.js:3-10 | decoding the five entities recovers the original text: escaping loses nothing |
| Patterns.LeadingLetters | core.js:16 | the count of leading letters: a letter prefix followed by a non-letter or the end |
| Patterns.OdsCodeIsOdsLanguage | core.js:16 | the ODS recogniser accepts exactly 2–3 letters followed by 2–3 digits |
| Patterns.UkPhoneIsUkPhoneLanguage | spa.js:10 | the phone recogniser accepts exactly `0`, `44` or `+44`, then 1 or 7, then 8 or 9 digits |
| Patterns.UkPhoneExamples | business.js:10 | worked examples: +447912345678 matches; the London landline 0207123456 does not |
| Fields.OptionalAttrs | core.js:28-31 | a set pattern, a non-zero maxlength and a non-empty autocomplete each appear with their value; `required` appears unless the field is optional |
| Fields.OptionalAttrsNames | core.js:28-31 | the optional part names exactly the attributes the field asks for (its reference set `OptionalNames`) and nothing else |
| Fields.OptionalAfter | core.js:24-31 | written after attributes other than the four, each of `pattern`, `maxlength`, `autocomplete` and `required` is present exactly when the field asks for it, and `value` is present exactly when the leading part has it |
| Fields.BlankInputs | components.js:94-97 | every input is cleared of its value and of its custom validity message |
| Fields.FieldValid | business.js:358-363 | an empty value is valid exactly when the field is optional; a non-empty one exactly when the field has no pattern or matches it |
| Core.Html | core.js:3-10 | a missing string gives ""; otherwise the result holds no markup character, is at least as long, and decodes back to the input |
| Core.Required | core.js:13 | no error exactly when the value exists and has a non-whitespace character; the error is "Required" |
| Core.Digits | core.js:14-15 | no error exactly when the value is n ASCII digits; the error is "Must be n digits" with n in decimal |
| Core.SevenDigitsMessage | core.js:15 | for seven digits the message reads "Must be 7 digits" |
| Core.Ods | core.js:16 | no error exactly when the value is 2–3 letters then 2–3 digits; the error is "Format: FA123" |
| Core.ValidatorExamples | core.js:14-16 | the validators on worked examples: 1234567 and fa123 pass; 12345 and F1 fail with their messages |
| Core.FormInput | core.js:21-41 | type (default text), id and name, the escaped value (default ""), placeholder (default the label) and the optional attributes; the icon wrapper exactly when the icon is truthy |
| Core.FormInputOrder | core.js:24-31 | the attributes come in the order written: type, class, id, name, value, placeholder, then pattern, maxlength, autocomplete and required |
| Core.FormInputs | core.js:19-49 | one input per field in declaration order, each named after its field and labelled with its label |
| Spa.EscapeHtml | spa.js:2 | the same result as `html`; no markup character; decodes back to the input |
| Spa.Required | spa.js:5 | no error exactly when the value exists and has a non-whitespace character; the error is "This field is required" |
| Spa.PatternCheck | spa.js:6 | the message exactly when the pattern rejects the value |
| Spa.Gphc | spa.js:7 | no error exactly when the value is seven ASCII digits |
| Spa.Ods | spa.js:8 | accepts exactly what core.js's `ods` accepts, with the longer message |
| Spa.CompanyNumber | spa.js:9 | no error exactly when the value is eight ASCII digits |
| Spa.UkPhone | spa.js:10 | no error exactly when the value with all whitespace removed is a UK number |
| Spa.UkPhoneUnspaced | spa.js:10 | a value without whitespace passes exactly when the phone recogniser accepts it as it stands |
| Spa.UkPhoneAcceptsMobile | spa.js:10 | a worked example: the mobile number +447912345678 passes |
| Spa.UkPhoneRejectsLandline | spa.js:10 | a worked example: the London landline 0207123456 gets "Enter a valid UK phone number" |
| Spa.UkPhoneIgnoresWhitespace | spa.js:10 | whitespace never changes the verdict: a value with any whitespace character inserted anywhere, or with all whitespace removed, is judged as the value itself |
| Spa.LeadingAttrs | spa.js:17-22 | type, class `form-control` plus the field's class, id and name, placeholder (default a space), and a value attribute exactly when `values` is given |
| Spa.LeadingAttrsOrder | spa.js:17-22 | five or six leading attributes in the order written: type, class, id, name, the value when `values` is given, and the placeholder last |
| Spa.BootstrapInput | spa.js:15-31 | exactly the leading attributes followed by the optional ones, in that order, each optional one present exactly when its field setting asks for it; a label and no icon |
| Spa.BootstrapInputs | spa.js:14-33 | one input per field in declaration order |
| Spa.ListEditorMixin.constructor | spa.js:94-110 | an empty list with blank inputs and the given hooks |
| Spa.ListEditorMixin.Count | spa.js:159-161 | the number of rows |
| Spa.ListEditorMixin.ClearInputs | spa.js:137-139 | every input blank, none added or dropped |
| Spa.ListEditorMixin.AddItem | spa.js:127-135 | a truthy validation message leaves the list unchanged, keeps the marked inputs and raises no change; otherwise the hook's record is appended, the inputs are blank and a change is raised |
| Spa.ListEditorMixin.Remove | spa.js:117-121 | the row goes, the others keep their order, a change is raised |
| Spa.ListEditorMixin.GetItems | spa.js:145-149 | the rows' records, in order, as many as the count |
| Spa.ListEditorMixin.SetItems | spa.js:151-153 | the list becomes exactly the given records |
| Spa.ListEditorMixin.Clear | spa.js:155-157 | the list is empty and the count is zero |
| Spa.ListGroup.constructor | spa.js:165-172 | no entry |
| Spa.ListGroup.AddItem | spa.js:174 | one entry more, at the end |
| Spa.ListGroup.SetItems | spa.js:175 | the entries become exactly the given items |
| Spa.ListGroup.Clear | spa.js:176 | no entry is left |
| Components.RemoveAt | components.js:69-70 | one item fewer; the items before keep their place, the items after move up by one |
| Components.ListEditor.constructor | components.js:47-65 | an empty list, its hint shown, blank inputs |
| Components.ListEditor.Count | components.js:101-103 | the number of rows; zero exactly when the hint is shown |
| Components.ListEditor.UpdateEmpty | components.js:88-91 | the hint is shown exactly when the list is empty |
| Components.ListEditor.Clear | components.js:93-99 | every input blank, none added or dropped |
| Components.ListEditor.Add | components.js:77-86 | a truthy validation message leaves the list unchanged and keeps the marked inputs; otherwise the hook's item is appended and the inputs are blank; the hint stays in step with the list |
| Components.ListEditor.Remove | components.js:68-71 | the clicked row goes and the others keep their order; a missing row removes nothing; the hint stays in step |
| Components.ListEditor.SetItems | components.js:105-110 | the list becomes exactly the given items; the hint stays in step |
| Business.FindBusinessType | business.js:314 | a type is found exactly when one of the three has the key, and it is that one |
| Business.SchemaKeysUnique | business.js:2-84 | no group repeats a field key, and the business type keys are distinct |
| Business.SetCustomError | business.js:111 | the input's custom validity message is set; no value and no other input changes |
| Business.PharmacyValidate | business.js:107-115 | passes exactly when the trimmed code is 2–3 letters then 2–3 digits; a failure returns "Format: FA123" and sets it on the input; a pass leaves the input alone |
| Business.PharmacyValues | business.js:101-105 | the stored code is the typed value trimmed and then upper-cased (ASCII), so it holds no lower-case letter and is no longer than what was typed |
| Business.UpperAsciiKeepsOds | business.js:103 | upper-casing a valid code keeps it valid |
| Business.AcceptedPharmacyIsOdsCode | business.js:101-115 | every accepted row stores a valid code in upper case |
| Business.PharmacyValidateOne | business.js:107-115 | on a single input: a code whose trim is in the ODS language passes and leaves the input alone; any other gets "Format: FA123", also set on the input |
| Business.PharmacyExample | business.js:107-115 | "fa123" is accepted and the input is left as typed |
| Business.PharmacyStoredExample | business.js:101-105 | "fa123" is stored as "FA123" |
| Business.PharmacyRejectExample | business.js:107-115 | "F1" is refused and the input carries the format hint |
| Business.PharmacistValidate | business.js:151-168 | the GPhC number is checked first: not seven digits gives "Must be 7 digits" set on its input; otherwise its message is cleared and a blank name gives "Name required" |
| Business.PharmacistValues | business.js:144-149 | both inputs trimmed |
| Business.AcceptedPharmacistIsWellFormed | business.js:144-168 | every accepted row has a seven-digit number and a non-empty name with no surrounding whitespace |
| Business.PharmacyEditorAdd | components.js:77-86 | one `add` on a fresh pharmacy editor: a valid code becomes the only row and the input is cleared; any other code adds no row and leaves "Format: FA123" on the input |
| FormData.Lookup | business.js:393 | no value exactly when no entry has the name |
| FormData.LookupAt | business.js:393 | the value is that of the first entry with the name |
| FormData.GetAllNone | business.js:441 | a name has no value exactly when no entry has it |
| FormData.GetAllAppend | business.js:441 | the values of a concatenation are the values of its parts in order |
| FormData.LastValue | business.js:380-382 | no value exactly when no entry has the name |
| FormData.LastValueAt | business.js:380-382 | the value is that of the last entry with the name |
| FormData.LookupUnique | business.js:378-382 | with distinct keys the first and the last value agree |
| FormData.Assign | business.js:381 | a new key is appended at the end; an existing key keeps its place and every key stays where it was; distinct keys stay distinct |
| FormData.AssignLookup | business.js:381 | after assigning, the key reads the new value and every other key reads what it read before |
| FormData.SaveAll | business.js:378-382 | saving keeps the record's keys distinct |
| FormData.SaveAllLookup | business.js:378-382 | a name the form holds reads its last live value; any other name reads what was saved before |
| FormData.SaveAllKeys | business.js:378-382 | the saved record holds exactly the names it held before plus the live ones |
| FormData.Without | business.js:451 | removing an absent name changes nothing |
| FormData.WithoutGetAll | business.js:451 | the removed name has no value; every other name keeps its values |
| FormData.SetEntry | business.js:446 | setting an absent name appends it |
| FormData.SetEntryGetAll | business.js:446 | afterwards the name has exactly the one new value; every other name keeps its values |
| FormData.Missing | business.js:444-448 | every entry carried over is one the live form lacks |
| FormData.MissingGetAll | business.js:444-448 | a live name gets nothing from the saved record; any other name gets its saved values |
| FormData.MissingStep | business.js:444-448 | with distinct saved keys, the data built so far has the next saved name exactly when the live form does, and the entry is appended exactly when the live form lacks it |
| FormData.GetAllUnique | business.js:444-448 | with distinct keys a name has at most one value, the one it reads |
| FormData.Assemble | business.js:440-451 | without an id the posted data starts with the live form data unchanged |
| FormData.AssembleGetAll | business.js:440-451 | the posted values per name: the id when given; else the live values; else the saved value; else none |
| Wizard.RenderStep | business.js:254-350 | step 1 shows the contact fields without values; step 2 one card per business type, checked exactly when selected; step 3 the selected type's fields exactly when the selection names a type |
| Wizard.AtMostOneChecked | business.js:286-291 | at most one business type card is checked |
| Wizard.FirstInvalid | business.js:358-363 | none exactly when every input is valid; otherwise the first invalid one |
| Wizard.StepCheck | business.js:352-371 | passes exactly when every input is valid and, on step 2, a type is chosen; otherwise the first invalid input or the missing type |
| Wizard.FieldValidity | business.js:358-363 | each schema field judged by its own settings |
| Wizard.InvalidFieldBlocksStep | business.js:358-363 | an empty required field, or a value its pattern rejects, blocks the step |
| Wizard.FirstNamed | business.js:393 | the first control with the name, or none when no control has it |
| Wizard.FirstNamedIsFirst | business.js:393 | a control is the one found for its name exactly when no earlier control shares its name |
| Wizard.FirstNamedSameNames | business.js:393 | the answer depends only on the controls' names |
| Wizard.Restored | business.js:392-397 | restoring keeps every control's name and kind |
| Wizard.RestoredSnoc | business.js:392-397 | a further saved key changes at most the first non-radio control of that name |
| Wizard.SaveThenRestore | business.js:373-397 | after saving, restoring fills the first non-radio control of each live name with its last live value |
| Wizard.SubmittedValues | business.js:438-451 | the posted record per name: the id when given; else the live values; else the value saved earlier on any step, even one of a business type no longer selected; else none |
| Wizard.AddSaved | business.js:444-448 | the loop leaves the live data followed by the saved entries it lacked |
| Wizard.BusinessApplication.constructor | business.js:189-191 | step 1, no type selected, nothing saved, form shown |
| Wizard.BusinessApplication.OnChange | business.js:205-209 | a change of a `businessType` control selects its value; any other change leaves the selection |
| Wizard.BusinessApplication.ValidateCurrentStep | business.js:352-371 | the verdict of the step check |
| Wizard.BusinessApplication.SaveFormData | business.js:373-383 | the live entries are assigned into the record in order; nothing happens once the form is gone |
| Wizard.BusinessApplication.RestoreFormData | business.js:385-399 | the controls as the restoring specification describes |
| Wizard.BusinessApplication.NextStep | business.js:401-411 | a failed check changes nothing; a pass saves the form and advances unless on the last step |
| Wizard.BusinessApplication.PrevStep | business.js:413-422 | saves the form without any check and goes back unless on the first step |
| Wizard.BusinessApplication.Submit | business.js:428-462 | blocked by the step check, then by an empty pharmacy list, then by an empty pharmacist list, with nothing saved; otherwise it saves and posts the assembled record, as `business-accept` exactly when `k` is truthy |
| Wizard.BusinessApplication.Result | business.js:464-478 | a missing or empty reply, or an error, gives the error toast and leaves the form; otherwise the success card and the "Sent!" toast |

## Left out

- Markup, CSS classes, icons and layout. This covers the toast container, the progress bar, the step headings, the success card's text and the editors' item markup. Rendered inputs are kept as attribute lists with a label, an icon and an order.
- The `toast` element and its timer. The messages raised are kept as values.
- Focus moves (`focus`, `focusFirstInput`), `reportValidity` pop-ups and `scrollIntoView`. They change nothing the model tracks.
- The DOM event plumbing: click delegation, `CustomEvent` dispatch and `connectedCallback`. Each handler is a method; a raised `change` event is a boolean result; the posted event is the outcome datatype.
- The `setTimeout` around restoring. Restoring is its own method, called with the controls of the new step.
- Browser validation is partly a parameter. Per-input validity is given to the methods; `Fields.FieldValid` covers `required` and `pattern` only. The `email` type check, `maxlength` truncation while typing and custom validity messages of editor inputs are not modelled.
- The `Map` branch of `bootstrap_inputs` values. `values` is an absent value, `null` or a plain record.
- Characters: JavaScript strings are UTF-16 code units and Dafny characters are Unicode scalar values. `toUpperCase` is modelled for ASCII only, which is all a code that passes the ODS check can hold. `\s` and `trim` use the JavaScript whitespace set.
- Lookups in `FIELDS.business` by keys inherited from `Object.prototype` (such as `toString`). The model finds only the three business types.
- The ordering JavaScript gives to integer-like keys of `_formData`. The record keeps plain insertion order.
- `querySelector` on a name holding a quote or a backslash. Names are compared as plain strings.
- `ListGroupMixin` inserts its items as unescaped HTML. Entries are kept as the strings given.
- The `ListEditorMixin` round trip from `createItemHTML` to `getItems`. Items are stored as the records the hook returns.
- An editor input that does not exist reads as "". The code would throw on it.
- The editors are rebuilt empty whenever step 3 is rendered again. The wizard model does not hold editor instances; it takes their counts.
- `_formData` being undefined and being `{}` read alike to every reader, so the model has one empty record.
- Switching business type does not discard the earlier type's values: `_formData` keeps them and `submit` posts them (`Wizard.SubmittedValues`). Steps are numbered from 1.
