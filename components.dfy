/**
 * components.js: the `ListEditor` base element. It keeps an ordered list of items, a row of
 * inputs for the next item and an empty-list hint. A subclass supplies `validate()` and
 * `values()`; here they are the two hook functions the editor is built with.
 */
module Components {
  import opened Wrappers
  import opened Fields

  /** The list without the item at position i; the others keep their relative order. */
  function RemoveAt<T>(s: seq<T>, i: nat): (r: seq<T>)
    requires i < |s|
    ensures |r| == |s| - 1
    ensures forall j :: 0 <= j < i ==> r[j] == s[j]
    ensures forall j :: i <= j < |r| ==> r[j] == s[j + 1]
  {
    s[..i] + s[i + 1..]
  }

  class ListEditor<T> {
    /** The subclass's `validate()`: a message or none, and the inputs it may have marked. */
    const validate: seq<Input> -> Check
    /** The subclass's `values()`: the item the current inputs describe. */
    const values: seq<Input> -> T

    /** The `[data-item]` rows of the `[data-list]` container, in order. */
    var items: seq<T>
    /** The `[data-input]` elements. */
    var inputs: seq<Input>
    /** Whether the `[data-empty]` hint is displayed. */
    var emptyShown: bool

    /** The hint is displayed exactly when the list is empty. */
    ghost predicate Valid()
      reads this
    {
      emptyShown <==> |items| == 0
    }

    /** `connectedCallback`/`render`: an empty list with its hint and blank inputs. */
    constructor (validate: seq<Input> -> Check, values: seq<Input> -> T, inputCount: nat)
      ensures Valid()
      ensures this.validate == validate && this.values == values
      ensures items == [] && inputs == BlankInputs(inputCount)
    {
      this.validate := validate;
      this.values := values;
      items := [];
      inputs := BlankInputs(inputCount);
      emptyShown := true;
    }

    /** `count`: the number of item rows. */
    function Count(): (n: nat)
      reads this
      ensures n == |items|
      ensures Valid() ==> (n == 0 <==> emptyShown)
    {
      |items|
    }

    /** `updateEmpty`: show the hint when there is no item, hide it otherwise. */
    method UpdateEmpty()
      modifies this`emptyShown
      ensures Valid()
    {
      emptyShown := |items| == 0;
    }

    /** `clear`: every input loses its value and its custom validity message. */
    method Clear()
      modifies this`inputs
      ensures inputs == BlankInputs(|old(inputs)|)
    {
      var i := 0;
      while i < |inputs|
        invariant i <= |inputs| == |old(inputs)|
        invariant forall j :: 0 <= j < i ==> inputs[j] == Input("", "")
      {
        inputs := inputs[i := Input("", "")];
        i := i + 1;
      }
    }

    /** `add`: with a (truthy) validation message nothing is added; otherwise the item the
        inputs describe goes at the end of the list and the inputs are cleared. */
    method Add()
      requires Valid()
      modifies this`items, this`inputs, this`emptyShown
      ensures Valid()
      ensures var c := validate(old(inputs));
        if Truthy(c.error) then items == old(items) && inputs == c.inputs
        else items == old(items) + [values(c.inputs)] && inputs == BlankInputs(|c.inputs|)
    {
      var c := validate(inputs);
      inputs := c.inputs;
      if Truthy(c.error) {
        return;
      }
      items := items + [values(inputs)];
      Clear();
      UpdateEmpty();
    }

    /** A click on the remove button of row i: that row goes, the others keep their order.
        A position with no row removes nothing (`closest(...)?.remove()`). */
    method Remove(i: nat)
      requires Valid()
      modifies this`items, this`emptyShown
      ensures Valid()
      ensures items == if i < |old(items)| then RemoveAt(old(items), i) else old(items)
    {
      if i < |items| {
        items := RemoveAt(items, i);
      }
      UpdateEmpty();
    }

    /** `setItems(xs)`: the list becomes exactly `xs`, in order. */
    method SetItems(xs: seq<T>)
      modifies this`items, this`emptyShown
      ensures Valid()
      ensures items == xs
    {
      items := xs;
      UpdateEmpty();
    }
  }
}
