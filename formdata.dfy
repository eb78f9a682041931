/**
 * The two key/value containers the wizard moves values through:
 *  - a browser `FormData`, an ordered list of entries in which a name may repeat
 *    (`get` reads the first, `getAll` reads all, `set` keeps one);
 *  - the saved record `_formData`, a plain object: keys are unique and keep the order in
 *    which they were first assigned.
 * Both are lists of entries here; a record is a list whose keys are unique.
 */
module FormData {
  import opened Wrappers

  datatype Entry = Entry(key: string, value: string)

  /** `FormData.has` / `key in object`. */
  predicate Has(d: seq<Entry>, k: string) {
    exists i :: 0 <= i < |d| && d[i].key == k
  }

  lemma HasCons(d: seq<Entry>, k: string)
    requires d != []
    ensures Has(d, k) <==> d[0].key == k || Has(d[1..], k)
  {
    if Has(d[1..], k) {
      var i :| 0 <= i < |d[1..]| && d[1..][i].key == k;
      assert d[i + 1].key == k;
    }
    if Has(d, k) && d[0].key != k {
      var i :| 0 <= i < |d| && d[i].key == k;
      assert d[1..][i - 1].key == k;
    }
  }

  lemma HasSnoc(d: seq<Entry>, k: string)
    requires d != []
    ensures Has(d, k) <==> d[|d| - 1].key == k || Has(d[..|d| - 1], k)
  {
    var n := |d| - 1;
    if Has(d[..n], k) {
      var i :| 0 <= i < n && d[..n][i].key == k;
      assert d[i].key == k;
    }
    if Has(d, k) && d[n].key != k {
      var i :| 0 <= i < |d| && d[i].key == k;
      assert d[..n][i].key == k;
    }
  }

  /** A plain object: no key occurs twice. */
  predicate UniqueKeys(d: seq<Entry>) {
    forall i, j :: 0 <= i < j < |d| ==> d[i].key != d[j].key
  }

  // ---------------------------------------------------------------- reading

  /** `FormData.get(k)`, and property read on a record: the value of the first entry named k. */
  function Lookup(d: seq<Entry>, k: string): (r: Option<string>)
    ensures r.None? <==> !Has(d, k)
  {
    if d == [] then None
    else
      HasCons(d, k);
      if d[0].key == k then Some(d[0].value) else Lookup(d[1..], k)
  }

  /** The first entry named k decides the lookup. */
  lemma {:induction false} LookupAt(d: seq<Entry>, k: string, i: nat)
    requires i < |d| && d[i].key == k
    requires forall j :: 0 <= j < i ==> d[j].key != k
    ensures Lookup(d, k) == Some(d[i].value)
  {
    if i > 0 {
      LookupAt(d[1..], k, i - 1);
    }
  }

  /** `FormData.getAll(k)`: the values of all entries named k, in order. */
  function GetAll(d: seq<Entry>, k: string): (r: seq<string>)
    ensures |r| <= |d|
  {
    if d == [] then []
    else (if d[0].key == k then [d[0].value] else []) + GetAll(d[1..], k)
  }

  /** A name has no value exactly when no entry has it. */
  lemma {:induction false} GetAllNone(d: seq<Entry>, k: string)
    ensures GetAll(d, k) == [] <==> !Has(d, k)
    decreases |d|
  {
    if d != [] {
      HasCons(d, k);
      GetAllNone(d[1..], k);
    }
  }

  lemma {:induction false} GetAllAppend(a: seq<Entry>, b: seq<Entry>, k: string)
    ensures GetAll(a + b, k) == GetAll(a, k) + GetAll(b, k)
  {
    if a == [] {
      assert a + b == b;
    } else {
      var h := if a[0].key == k then [a[0].value] else [];
      assert (a + b)[0] == a[0];
      assert (a + b)[1..] == a[1..] + b;
      assert GetAll(a + b, k) == h + GetAll(a[1..] + b, k);
      GetAllAppend(a[1..], b, k);
      assert h + (GetAll(a[1..], k) + GetAll(b, k)) == (h + GetAll(a[1..], k)) + GetAll(b, k);
    }
  }

  /** The value of the last entry named k: what assigning every entry in turn leaves. */
  function LastValue(d: seq<Entry>, k: string): (r: Option<string>)
    ensures r.None? <==> !Has(d, k)
  {
    if d == [] then None
    else
      HasSnoc(d, k);
      var n := |d| - 1;
      if d[n].key == k then Some(d[n].value) else LastValue(d[..n], k)
  }

  /** The last entry named k decides `LastValue`. */
  lemma {:induction false} LastValueAt(d: seq<Entry>, k: string, i: nat)
    requires i < |d| && d[i].key == k
    requires forall j :: i < j < |d| ==> d[j].key != k
    ensures LastValue(d, k) == Some(d[i].value)
  {
    var n := |d| - 1;
    if i < n {
      assert d[..n][i] == d[i];
      LastValueAt(d[..n], k, i);
    }
  }

  /** In a record a key's only value is both its first and its last one. */
  lemma LookupUnique(d: seq<Entry>, k: string)
    requires UniqueKeys(d)
    ensures Lookup(d, k) == LastValue(d, k)
  {
    if Has(d, k) {
      var i :| 0 <= i < |d| && d[i].key == k;
      LookupAt(d, k, i);
      LastValueAt(d, k, i);
    }
  }

  // ---------------------------------------------------------------- writing

  /** `record[k] = v`: an existing key keeps its place and takes the new value, a new key is
      added at the end. */
  function Assign(d: seq<Entry>, k: string, v: string): (r: seq<Entry>)
    ensures !Has(d, k) ==> r == d + [Entry(k, v)]
    ensures Has(d, k) ==> |r| == |d| && forall i :: 0 <= i < |d| ==> r[i].key == d[i].key
    ensures UniqueKeys(d) ==> UniqueKeys(r)
  {
    if d == [] then [Entry(k, v)]
    else
      HasCons(d, k);
      if d[0].key == k then [Entry(k, v)] + d[1..]
      else
        var r := [d[0]] + Assign(d[1..], k, v);
        assert !Has(d, k) ==> r == d + [Entry(k, v)] by {
          if !Has(d, k) {
            assert [d[0]] + (d[1..] + [Entry(k, v)]) == d + [Entry(k, v)];
          }
        }
        r
  }

  lemma {:induction false} AssignLookup(d: seq<Entry>, k: string, v: string, j: string)
    ensures Lookup(Assign(d, k, v), j) == if j == k then Some(v) else Lookup(d, j)
  {
    if d != [] && d[0].key != k {
      HasCons(d, k);
      AssignLookup(d[1..], k, v, j);
      assert Assign(d, k, v)[1..] == Assign(d[1..], k, v);
    }
  }

  /** The record after assigning every entry of `live` in turn, as `saveFormData` does. */
  function SaveAll(d: seq<Entry>, live: seq<Entry>): (r: seq<Entry>)
    ensures UniqueKeys(d) ==> UniqueKeys(r)
  {
    if live == [] then d
    else
      var n := |live| - 1;
      var s := SaveAll(d, live[..n]);
      Assign(s, live[n].key, live[n].value)
  }

  /** Saving is a last-write-wins merge: a key of the live form maps to its last live value,
      any other key keeps its saved value. */
  lemma {:induction false} SaveAllLookup(d: seq<Entry>, live: seq<Entry>, k: string)
    ensures Lookup(SaveAll(d, live), k) == if Has(live, k) then LastValue(live, k) else Lookup(d, k)
  {
    if live != [] {
      var n := |live| - 1;
      HasSnoc(live, k);
      SaveAllLookup(d, live[..n], k);
      AssignLookup(SaveAll(d, live[..n]), live[n].key, live[n].value, k);
    }
  }

  /** Saving keeps every saved key and adds only the live form's keys. */
  lemma SaveAllKeys(d: seq<Entry>, live: seq<Entry>, k: string)
    ensures Has(SaveAll(d, live), k) <==> Has(d, k) || Has(live, k)
  {
    SaveAllLookup(d, live, k);
  }

  /** Every entry of `d` except those named k. */
  function Without(d: seq<Entry>, k: string): (r: seq<Entry>)
    ensures !Has(d, k) ==> r == d
  {
    if d == [] then []
    else
      HasCons(d, k);
      var r := (if d[0].key == k then [] else [d[0]]) + Without(d[1..], k);
      assert !Has(d, k) ==> r == d by {
        if !Has(d, k) { assert [d[0]] + d[1..] == d; }
      }
      r
  }

  lemma {:induction false} WithoutGetAll(d: seq<Entry>, k: string, j: string)
    ensures GetAll(Without(d, k), j) == if j == k then [] else GetAll(d, j)
  {
    if d != [] {
      WithoutGetAll(d[1..], k, j);
      GetAllAppend(if d[0].key == k then [] else [d[0]], Without(d[1..], k), j);
    }
  }

  /** `FormData.set(k, v)`: the first entry named k takes the value and later ones are dropped;
      with no such entry, one is appended. */
  function SetEntry(d: seq<Entry>, k: string, v: string): (r: seq<Entry>)
    ensures !Has(d, k) ==> r == d + [Entry(k, v)]
  {
    if d == [] then [Entry(k, v)]
    else
      HasCons(d, k);
      if d[0].key == k then [Entry(k, v)] + Without(d[1..], k)
      else
        var r := [d[0]] + SetEntry(d[1..], k, v);
        assert !Has(d, k) ==> r == d + [Entry(k, v)] by {
          if !Has(d, k) {
            assert [d[0]] + (d[1..] + [Entry(k, v)]) == d + [Entry(k, v)];
          }
        }
        r
  }

  /** After `set(k, v)` the name k has the one value v and every other name is untouched. */
  lemma {:induction false} SetEntryGetAll(d: seq<Entry>, k: string, v: string, j: string)
    ensures GetAll(SetEntry(d, k, v), j) == if j == k then [v] else GetAll(d, j)
  {
    if d != [] {
      if d[0].key == k {
        WithoutGetAll(d[1..], k, j);
        GetAllAppend([Entry(k, v)], Without(d[1..], k), j);
      } else {
        SetEntryGetAll(d[1..], k, v, j);
        GetAllAppend([d[0]], SetEntry(d[1..], k, v), j);
      }
    }
  }

  // ---------------------------------------------------------------- the submitted record

  /** The saved entries whose key the live form lacks, in saved order. */
  function Missing(saved: seq<Entry>, live: seq<Entry>): (r: seq<Entry>)
    ensures forall i :: 0 <= i < |r| ==> !Has(live, r[i].key)
  {
    if saved == [] then []
    else
      var n := |saved| - 1;
      Missing(saved[..n], live) + (if Has(live, saved[n].key) then [] else [saved[n]])
  }

  /** The values a one-entry list holds under a name. */
  lemma GetAllSingle(e: Entry, k: string)
    ensures GetAll([e], k) == if e.key == k then [e.value] else []
  {
    assert [e][1..] == [];
  }

  /** `Missing` keeps a name's saved values exactly when the live form lacks the name. */
  lemma {:induction false} MissingGetAll(saved: seq<Entry>, live: seq<Entry>, k: string)
    ensures GetAll(Missing(saved, live), k) == if Has(live, k) then [] else GetAll(saved, k)
  {
    if saved != [] {
      var n := |saved| - 1;
      var e := saved[n];
      var last := if Has(live, e.key) then [] else [e];
      assert Missing(saved, live) == Missing(saved[..n], live) + last;
      assert saved[..n] + [e] == saved;
      MissingGetAll(saved[..n], live, k);
      GetAllAppend(Missing(saved[..n], live), last, k);
      GetAllAppend(saved[..n], [e], k);
      GetAllSingle(e, k);
      if last == [] {
        assert GetAll(last, k) == [];
      }
    }
  }

  /** One more saved entry: with distinct saved keys, the form data built so far has its name
      exactly when the live form does, and it is missing exactly when the live form lacks it. */
  lemma MissingStep(live: seq<Entry>, saved: seq<Entry>, i: nat)
    requires UniqueKeys(saved) && i < |saved|
    ensures Has(live + Missing(saved[..i], live), saved[i].key) <==> Has(live, saved[i].key)
    ensures Missing(saved[..i + 1], live) ==
      Missing(saved[..i], live) + if Has(live, saved[i].key) then [] else [saved[i]]
  {
    var e := saved[i];
    assert saved[..i + 1][..i] == saved[..i];
    assert !Has(saved[..i], e.key);
    MissingGetAll(saved[..i], live, e.key);
    GetAllAppend(live, Missing(saved[..i], live), e.key);
    GetAllNone(saved[..i], e.key);
    GetAllNone(live, e.key);
    GetAllNone(live + Missing(saved[..i], live), e.key);
    GetAllNone(Missing(saved[..i], live), e.key);
  }

  /** In a record, `getAll` finds at most the one value `get` finds. */
  lemma {:induction false} GetAllUnique(d: seq<Entry>, k: string)
    requires UniqueKeys(d)
    ensures GetAll(d, k) == if Has(d, k) then [Lookup(d, k).value] else []
  {
    if d != [] {
      HasCons(d, k);
      GetAllUnique(d[1..], k);
      if d[0].key == k {
        assert !Has(d[1..], k);
      }
    }
  }

  /** The record `submit` posts: the live entries, then each saved entry whose key the live
      form lacks (`data.set` on an absent key appends), then `id` when it is truthy. */
  function Assemble(live: seq<Entry>, saved: seq<Entry>, id: Option<string>): (r: seq<Entry>)
    ensures !Truthy(id) ==> |r| >= |live| && r[..|live|] == live
  {
    var filled := live + Missing(saved, live);
    if Truthy(id) then SetEntry(filled, "id", id.value) else filled
  }

  /** What the posted record says about each name: `id` when given; otherwise a live name
      keeps all its live values and a name only the saved record has brings its saved value. */
  lemma AssembleGetAll(live: seq<Entry>, saved: seq<Entry>, id: Option<string>, k: string)
    requires UniqueKeys(saved)
    ensures GetAll(Assemble(live, saved, id), k) ==
      if Truthy(id) && k == "id" then [id.value]
      else if Has(live, k) then GetAll(live, k)
      else if Has(saved, k) then [Lookup(saved, k).value]
      else []
  {
    var filled := live + Missing(saved, live);
    assert GetAll(filled, k) ==
      if Has(live, k) then GetAll(live, k)
      else if Has(saved, k) then [Lookup(saved, k).value]
      else [] by {
      GetAllAppend(live, Missing(saved, live), k);
      MissingGetAll(saved, live, k);
      GetAllUnique(saved, k);
      GetAllNone(live, k);
    }
    if Truthy(id) {
      SetEntryGetAll(filled, "id", id.value, k);
    }
  }
}
