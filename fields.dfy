/**
 * The declarative field description both input generators read, the attributes they give an
 * `<input>`, and the state of an editable input the list editors and the wizard look at.
 */
module Fields {
  import opened Wrappers
  import opened Patterns
  import opened Text

  /** One entry of a field group: its key and the options the schema may set. Absent options
      are `None`, as an absent property is `undefined`. */
  datatype FieldSpec = FieldSpec(
    key: string,
    labelText: string,
    inputType: Option<string>,
    pattern: Option<Pattern>,
    maxlength: Option<nat>,
    placeholder: Option<string>,
    autocomplete: Option<string>,
    cssClass: Option<string>,
    icon: Option<string>,
    optional: bool)

  /** A required text field with only a label: the rest is set by update. */
  function Field(key: string, labelText: string): FieldSpec {
    FieldSpec(key, labelText, None, None, None, None, None, None, None, false)
  }

  /** Keys are unique within a group. */
  predicate UniqueFieldKeys(fields: seq<FieldSpec>) {
    forall i, j :: 0 <= i < j < |fields| ==> fields[i].key != fields[j].key
  }

  /** The attribute names the generators write. */
  datatype AttrName =
    | TypeAttr | ClassAttr | IdAttr | NameAttr | ValueAttr | PlaceholderAttr
    | PatternAttr | MaxlengthAttr | AutocompleteAttr | RequiredAttr
  {
    /** The name as it appears in the markup. */
    function Text(): string {
      match this
      case TypeAttr => "type"
      case ClassAttr => "class"
      case IdAttr => "id"
      case NameAttr => "name"
      case ValueAttr => "value"
      case PlaceholderAttr => "placeholder"
      case PatternAttr => "pattern"
      case MaxlengthAttr => "maxlength"
      case AutocompleteAttr => "autocomplete"
      case RequiredAttr => "required"
    }
  }

  /** An attribute with a value, or a bare boolean attribute such as `required`. */
  datatype Attr = Attr(name: AttrName, value: string) | Flag(name: AttrName)

  /** One generated `<input>`: its attributes in written order, its floating label and,
      when the generator draws one, the icon of its input group. */
  datatype InputElement = InputElement(attrs: seq<Attr>, labelText: string, icon: Option<string>)

  /** The names of the attributes in a list. */
  function Names(attrs: seq<Attr>): set<AttrName>
    decreases |attrs|
  {
    if attrs == [] then {} else {attrs[0].name} + Names(attrs[1..])
  }

  /** Some attribute of the list is called `name`. */
  predicate HasAttr(attrs: seq<Attr>, name: AttrName) {
    name in Names(attrs)
  }

  /** The names of a list written in two parts are the names of the parts. */
  lemma {:induction false} NamesAppend(head: seq<Attr>, tail: seq<Attr>)
    ensures Names(head + tail) == Names(head) + Names(tail)
    decreases |head|
  {
    if head == [] {
      assert head + tail == tail;
    } else {
      assert (head + tail)[1..] == head[1..] + tail;
      NamesAppend(head[1..], tail);
    }
  }

  /** Every attribute of a list contributes its name. */
  lemma {:induction false} NamedAt(attrs: seq<Attr>, i: nat)
    requires i < |attrs|
    ensures HasAttr(attrs, attrs[i].name)
    decreases i
  {
    if i > 0 {
      NamedAt(attrs[1..], i - 1);
    }
  }

  /** A list whose every attribute is called by one of `ns` names nothing else. */
  lemma {:induction false} NamesWithin(attrs: seq<Attr>, ns: set<AttrName>)
    requires forall i :: 0 <= i < |attrs| ==> attrs[i].name in ns
    ensures Names(attrs) <= ns
    decreases |attrs|
  {
    if attrs != [] {
      NamesWithin(attrs[1..], ns);
    }
  }

  /** A list of at most one attribute names just that attribute. */
  lemma NamesOfOne(attrs: seq<Attr>)
    requires |attrs| <= 1
    ensures Names(attrs) == if attrs == [] then {} else {attrs[0].name}
  {
    if attrs != [] {
      assert attrs[1..] == [];
    }
  }

  /** `pattern="..."` when the field has a pattern. */
  function PatternPart(f: FieldSpec): seq<Attr> {
    if f.pattern.Some? then [Attr(PatternAttr, Source(f.pattern.value))] else []
  }

  /** `maxlength="..."` when the field has a non-zero maximum length. */
  function MaxlengthPart(f: FieldSpec): seq<Attr> {
    if f.maxlength.Some? && f.maxlength.value != 0 then [Attr(MaxlengthAttr, NatToString(f.maxlength.value))] else []
  }

  /** `autocomplete="..."` when the field has a non-empty autocomplete hint. */
  function AutocompletePart(f: FieldSpec): seq<Attr> {
    if f.autocomplete.Some? && f.autocomplete.value != "" then [Attr(AutocompleteAttr, f.autocomplete.value)] else []
  }

  /** `required` unless the field is optional. */
  function RequiredPart(f: FieldSpec): seq<Attr> {
    if f.optional then [] else [Flag(RequiredAttr)]
  }

  /** The attributes both generators append after the placeholder, each only when the schema
      gives a truthy value: `pattern`, `maxlength`, `autocomplete`, and `required` unless the
      field is optional. */
  function OptionalAttrs(f: FieldSpec): (r: seq<Attr>)
    ensures f.pattern.Some? ==> Attr(PatternAttr, Source(f.pattern.value)) in r
    ensures f.maxlength.Some? && f.maxlength.value != 0 ==> Attr(MaxlengthAttr, NatToString(f.maxlength.value)) in r
    ensures f.autocomplete.Some? && f.autocomplete.value != "" ==> Attr(AutocompleteAttr, f.autocomplete.value) in r
    ensures !f.optional ==> Flag(RequiredAttr) in r
  {
    PatternPart(f) + MaxlengthPart(f) + AutocompletePart(f) + RequiredPart(f)
  }

  /** Which of the four optional attributes a field asks for: `pattern` when it has one,
      `maxlength` when it is non-zero, `autocomplete` when it is non-empty, and `required`
      unless the field is optional. */
  function OptionalNames(f: FieldSpec): set<AttrName> {
    (if f.pattern.Some? then {PatternAttr} else {})
    + (if f.maxlength.Some? && f.maxlength.value != 0 then {MaxlengthAttr} else {})
    + (if f.autocomplete.Some? && f.autocomplete.value != "" then {AutocompleteAttr} else {})
    + (if f.optional then {} else {RequiredAttr})
  }

  /** The optional part names exactly the attributes the field asks for, and nothing else. */
  lemma OptionalAttrsNames(f: FieldSpec)
    ensures Names(OptionalAttrs(f)) == OptionalNames(f)
  {
    var pattern, maxlength, autocomplete, required := PatternPart(f), MaxlengthPart(f), AutocompletePart(f), RequiredPart(f);
    NamesOfOne(pattern);
    NamesOfOne(maxlength);
    NamesOfOne(autocomplete);
    NamesOfOne(required);
    NamesAppend(pattern, maxlength);
    NamesAppend(pattern + maxlength, autocomplete);
    NamesAppend(pattern + maxlength + autocomplete, required);
  }

  /** Appended after attributes that are not among the four, the optional part decides each
      of the four on its own, and leaves every other name to the leading attributes. */
  lemma OptionalAfter(head: seq<Attr>, f: FieldSpec)
    requires Names(head) <= {TypeAttr, ClassAttr, IdAttr, NameAttr, ValueAttr, PlaceholderAttr}
    ensures HasAttr(head + OptionalAttrs(f), PatternAttr) <==> f.pattern.Some?
    ensures HasAttr(head + OptionalAttrs(f), MaxlengthAttr) <==> f.maxlength.Some? && f.maxlength.value != 0
    ensures HasAttr(head + OptionalAttrs(f), AutocompleteAttr) <==> f.autocomplete.Some? && f.autocomplete.value != ""
    ensures HasAttr(head + OptionalAttrs(f), RequiredAttr) <==> !f.optional
    ensures HasAttr(head + OptionalAttrs(f), ValueAttr) <==> HasAttr(head, ValueAttr)
  {
    OptionalAttrsNames(f);
    SplitNames(head, OptionalAttrs(f), f.pattern.Some?, f.maxlength.Some? && f.maxlength.value != 0,
      f.autocomplete.Some? && f.autocomplete.value != "", f.optional);
  }

  /** The set reasoning behind `OptionalAfter`, over lists whose contents do not matter:
      `tail` names the optional attributes whose conditions hold. */
  lemma SplitNames(head: seq<Attr>, tail: seq<Attr>, p: bool, m: bool, a: bool, q: bool)
    requires Names(head) <= {TypeAttr, ClassAttr, IdAttr, NameAttr, ValueAttr, PlaceholderAttr}
    requires Names(tail) == (if p then {PatternAttr} else {}) + (if m then {MaxlengthAttr} else {})
      + (if a then {AutocompleteAttr} else {}) + (if q then {} else {RequiredAttr})
    ensures HasAttr(head + tail, PatternAttr) <==> p
    ensures HasAttr(head + tail, MaxlengthAttr) <==> m
    ensures HasAttr(head + tail, AutocompleteAttr) <==> a
    ensures HasAttr(head + tail, RequiredAttr) <==> !q
    ensures HasAttr(head + tail, ValueAttr) <==> HasAttr(head, ValueAttr)
  {
    NamesAppend(head, tail);
  }

  /** The `values` argument of the generators: omitted, `null`, or a record of key to value. */
  datatype Values = Undefined | Null | Given(entries: map<string, string>)

  /** `values?.[k] ?? ""`. */
  function ValueFor(values: Values, key: string): string {
    match values
    case Given(m) => if key in m then m[key] else ""
    case _ => ""
  }

  /** An editable input: its current value and the message set by `setCustomValidity`. */
  datatype Input = Input(value: string, customError: string)

  /** What a list editor's validation hook gives back: its message (`null` or a string) and
      the inputs as it leaves them, since it may set their custom validity messages. */
  datatype Check = Check(error: Option<string>, inputs: seq<Input>)

  /** The values the user has typed, input by input. */
  function InputValues(inputs: seq<Input>): (r: seq<string>)
    ensures |r| == |inputs| && forall i :: 0 <= i < |inputs| ==> r[i] == inputs[i].value
  {
    seq(|inputs|, i requires 0 <= i < |inputs| => inputs[i].value)
  }

  /** `n` inputs with no value and no custom error. */
  function BlankInputs(n: nat): (r: seq<Input>)
    ensures |r| == n && forall i :: 0 <= i < n ==> r[i] == Input("", "")
  {
    seq(n, _ => Input("", ""))
  }

  /** The constraint validation a browser applies to a generated field holding `value`:
      a required field must not be empty, and a non-empty value must match the pattern. */
  predicate FieldValid(f: FieldSpec, value: string): (ok: bool)
    ensures value == "" ==> (ok <==> f.optional)
    ensures value != "" ==> (ok <==> f.pattern.None? || Matches(f.pattern.value, value))
  {
    && (f.optional || value != "")
    && (f.pattern.None? || value == "" || Matches(f.pattern.value, value))
  }
}
