/** `_schema_diff`: how one schema document drifted from another, as a list of
    changed JSON Pointers. */
module SchemaDiff {
  import opened JsonValues
  import opened Strings
  import opened Pointers

  // ------------------------------------------------------- Python's equality

  /** `True`, `1` and `1.0` are one value to `==`. */
  function NumberOf(j: Json): Option<real>
  {
    match j
    case Bool(b) => Some(if b then 1.0 else 0.0)
    case Int(n) => Some(n as real)
    case Float(x) => Some(x)
    case _ => None
  }

  /** `a == b` on parsed JSON. */
  predicate PyEq(a: Json, b: Json)
  {
    match a
    case Arr(items) =>
      b.Arr? && |items| == |b.items| && forall i :: 0 <= i < |items| ==> PyEq(items[i], b.items[i])
    case Obj(fields) =>
      b.Obj? && fields.Keys == b.fields.Keys && forall k :: k in fields ==> PyEq(fields[k], b.fields[k])
    case Null => b.Null?
    case Str(s) => b == a
    case _ => NumberOf(b) == NumberOf(a)
  }

  lemma {:induction false} PyEqReflexive(j: Json)
    ensures PyEq(j, j)
  {
    match j
    case Arr(items) => forall i | 0 <= i < |items| ensures PyEq(items[i], items[i]) { PyEqReflexive(items[i]); }
    case Obj(fields) => forall k | k in fields ensures PyEq(fields[k], fields[k]) { PyEqReflexive(fields[k]); }
    case _ =>
  }

  // ------------------------------------------------------- the specification

  datatype Kind = Removed | Added | Changed(before: Json, after: Json)

  /** One change, at a place relative to the compared values. */
  type Edit = Placed<Kind>

  function AtKeys(keys: seq<string>, kind: Kind): seq<Edit>
  {
    seq(|keys|, i requires 0 <= i < |keys| => Placed([keys[i]], kind))
  }

  function Edits(before: Json, after: Json): seq<Edit>
    decreases before, 1, 0
  {
    if before.Obj? && after.Obj? then
      var bk, ak := before.fields.Keys, after.fields.Keys;
      AtKeys(SortedKeys(bk - ak), Removed)
      + AtKeys(SortedKeys(ak - bk), Added)
      + InnerEdits(before, after, SortedKeys(bk * ak))
    else if PyEq(before, after) then []
    else [Placed([], Changed(before, after))]
  }

  function InnerEdits(before: Json, after: Json, keys: seq<string>): seq<Edit>
    requires before.Obj? && after.Obj?
    requires forall k :: k in keys ==> k in before.fields && k in after.fields
    decreases before, 0, |keys|
  {
    if keys == [] then []
    else Under(keys[0], Edits(before.fields[keys[0]], after.fields[keys[0]])) + InnerEdits(before, after, keys[1..])
  }

  // --------------------------------------------------------------- the code

  type Change = Printed<Kind>

  lemma InnerCons(before: Json, after: Json, keys: seq<string>)
    requires before.Obj? && after.Obj? && keys != []
    requires forall k :: k in keys ==> k in before.fields && k in after.fields
    ensures InnerEdits(before, after, keys) ==
            Under(keys[0], Edits(before.fields[keys[0]], after.fields[keys[0]])) + InnerEdits(before, after, keys[1..])
  {
  }

  lemma {:induction false} InnerSnoc(before: Json, after: Json, keys: seq<string>, key: string)
    requires before.Obj? && after.Obj?
    requires forall k :: k in keys ==> k in before.fields && k in after.fields
    requires key in before.fields && key in after.fields
    ensures InnerEdits(before, after, keys + [key]) ==
            InnerEdits(before, after, keys) + Under(key, Edits(before.fields[key], after.fields[key]))
  {
    if keys == [] {
      assert keys + [key] == [key];
      InnerOne(before, after, key);
    } else {
      assert (keys + [key])[1..] == keys[1..] + [key];
      InnerSnoc(before, after, keys[1..], key);
      InnerCons(before, after, keys + [key]);
      InnerCons(before, after, keys);
      Associative(Under(keys[0], Edits(before.fields[keys[0]], after.fields[keys[0]])),
                  InnerEdits(before, after, keys[1..]), Under(key, Edits(before.fields[key], after.fields[key])));
    }
  }

  lemma InnerOne(before: Json, after: Json, key: string)
    requires before.Obj? && after.Obj? && key in before.fields && key in after.fields
    ensures InnerEdits(before, after, []) == []
    ensures InnerEdits(before, after, [key]) == Under(key, Edits(before.fields[key], after.fields[key]))
  {
    InnerCons(before, after, [key]);
    assert [key][1..] == [];
  }

  lemma OneDeep(path: string, key: string)
    ensures path + PointerOf([key]) == Child(path, key)
  {
    assert [key][1..] == [];
    assert PointerOf([]) == "";
    assert PointerOf([key]) == "/" + Escape(key);
  }

  /** `_schema_diff(before, after, path)`; its three loops follow. */
  method Diff(before: Json, after: Json, path: string) returns (changes: seq<Change>)
    ensures changes == Render(path, Edits(before, after))
    decreases before, 2
  {
    if before.Obj? && after.Obj? {
      changes := ObjectChanges(before, after, path);
    } else if PyEq(before, after) {
      changes := [];
    } else {
      changes := [Printed(path, Changed(before, after))];
      assert PointerOf([]) == "" && path + "" == path;
    }
  }

  /** Two mappings: the members that went, those that came, those they share. */
  method ObjectChanges(before: Json, after: Json, path: string) returns (changes: seq<Change>)
    requires before.Obj? && after.Obj?
    ensures changes == Render(path, Edits(before, after))
    decreases before, 1
  {
    var bk, ak := before.fields.Keys, after.fields.Keys;
    var removals := KeyChanges(SortedKeys(bk - ak), Removed, path);
    var additions := KeyChanges(SortedKeys(ak - bk), Added, path);
    var inner := CommonChanges(before, after, SortedKeys(bk * ak), path);
    changes := removals + additions + inner;
    ObjectEdits(before, after, path);
  }

  lemma ObjectEdits(before: Json, after: Json, path: string)
    requires before.Obj? && after.Obj?
    ensures
      var bk, ak := before.fields.Keys, after.fields.Keys;
      Render(path, Edits(before, after)) ==
      Render(path, AtKeys(SortedKeys(bk - ak), Removed)) + Render(path, AtKeys(SortedKeys(ak - bk), Added)) +
      Render(path, InnerEdits(before, after, SortedKeys(bk * ak)))
  {
    var bk, ak := before.fields.Keys, after.fields.Keys;
    var gone, come := AtKeys(SortedKeys(bk - ak), Removed), AtKeys(SortedKeys(ak - bk), Added);
    var inner := InnerEdits(before, after, SortedKeys(bk * ak));
    assert Edits(before, after) == gone + come + inner;
    RenderAppend(path, gone + come, inner);
    RenderAppend(path, gone, come);
  }

  method KeyChanges(keys: seq<string>, kind: Kind, path: string) returns (changes: seq<Change>)
    ensures changes == Render(path, AtKeys(keys, kind))
  {
    changes := [];
    for i := 0 to |keys|
      invariant changes == Render(path, AtKeys(keys[..i], kind))
    {
      OneDeep(path, keys[i]);
      changes := changes + [Printed(Child(path, keys[i]), kind)];
      assert keys[..i + 1] == keys[..i] + [keys[i]];
    }
    assert keys[..|keys|] == keys;
  }

  lemma InnerRendered(before: Json, after: Json, keys: seq<string>, key: string, path: string)
    requires before.Obj? && after.Obj?
    requires forall k :: k in keys + [key] ==> k in before.fields && k in after.fields
    ensures Render(path, InnerEdits(before, after, keys + [key])) ==
            Render(path, InnerEdits(before, after, keys)) +
            Render(Child(path, key), Edits(before.fields[key], after.fields[key]))
  {
    var found := Edits(before.fields[key], after.fields[key]);
    InnerSnoc(before, after, keys, key);
    RenderUnder(path, key, found);
    RenderAppend(path, InnerEdits(before, after, keys), Under(key, found));
  }

  method CommonChanges(before: Json, after: Json, keys: seq<string>, path: string) returns (changes: seq<Change>)
    requires before.Obj? && after.Obj?
    requires forall k :: k in keys ==> k in before.fields && k in after.fields
    ensures changes == Render(path, InnerEdits(before, after, keys))
    decreases before, 0
  {
    changes := [];
    for i := 0 to |keys|
      invariant changes == Render(path, InnerEdits(before, after, keys[..i]))
    {
      var key := keys[i];
      var inner := Diff(before.fields[key], after.fields[key], Child(path, key));
      changes := changes + inner;
      assert keys[..i + 1] == keys[..i] + [key];
      InnerRendered(before, after, keys[..i], key, path);
    }
    assert keys[..|keys|] == keys;
  }
}
