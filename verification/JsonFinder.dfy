/** `_find_non_json_values`: where a Python value stops being JSON. */
module JsonFinder {
  import opened JsonValues
  import opened Strings
  import opened Pointers

  datatype Key = StrKey(s: string) | OtherKey(id: int)

  datatype Number = Finite(x: real) | NotFinite   // NaN and the infinities

  /** A Python value as the finder tells them apart. Mappings keep their order. */
  datatype Value =
    | VNone
    | VStr(s: string)
    | VBool(b: bool)
    | VInt(n: int)
    | VFloat(f: Number)
    | VMap(entries: seq<Entry>)
    | VList(items: seq<Value>)
    | VOther(typeName: string)   // tuples, sets, URLs, ...

  datatype Entry = Entry(key: Key, value: Value)

  datatype Kind = NotFiniteNumber | KeyNotString | NotSerializable

  type Finding = Printed<Kind>

  // ------------------------------------------------------ what JSON is

  /** Only JSON constructors, finite numbers and string keys. */
  predicate IsJson(v: Value)
  {
    match v
    case VFloat(f) => f.Finite?
    case VMap(entries) => forall i :: 0 <= i < |entries| ==> entries[i].key.StrKey? && IsJson(entries[i].value)
    case VList(items) => forall i :: 0 <= i < |items| ==> IsJson(items[i])
    case VOther(_) => false
    case _ => true
  }

  /** A mapping holds a key once. */
  predicate DistinctKeys(v: Value)
  {
    match v
    case VMap(entries) =>
      && (forall i, j :: 0 <= i < j < |entries| ==> entries[i].key != entries[j].key)
      && (forall i :: 0 <= i < |entries| ==> DistinctKeys(entries[i].value))
    case VList(items) => forall i :: 0 <= i < |items| ==> DistinctKeys(items[i])
    case _ => true
  }

  /** Python dict lookup by a string key. */
  function Lookup(entries: seq<Entry>, key: string): Option<Value>
  {
    if entries == [] then None
    else if entries[0].key == StrKey(key) then Some(entries[0].value)
    else Lookup(entries[1..], key)
  }

  /** RFC 6901 section 4, on a Python value. */
  function WalkValue(v: Value, tokens: seq<string>): Option<Value>
    decreases |tokens|
  {
    if tokens == [] then Some(v)
    else match v
      case VMap(entries) =>
        (match Lookup(entries, tokens[0])
         case None => None
         case Some(child) => WalkValue(child, tokens[1..]))
      case VList(items) =>
        var i := DecimalValue(tokens[0]);
        if 0 <= i < |items| && Decimal(i) == tokens[0] then WalkValue(items[i], tokens[1..]) else None
      case _ => None
  }

  /** What is wrong with a value itself, leaving its children aside. */
  predicate Offends(v: Value, kind: Kind)
  {
    match kind
    case NotFiniteNumber => v.VFloat? && v.f.NotFinite?
    case KeyNotString => v.VMap? && exists i :: 0 <= i < |v.entries| && v.entries[i].key.OtherKey?
    case NotSerializable => v.VOther?
  }

  // ------------------------------------------------------- the specification

  /** A finding, at a place relative to the value searched. */
  type Offence = Placed<Kind>

  function Offences(v: Value): seq<Offence>
    decreases v, 1, 0
  {
    match v
    case VFloat(f) => if f.Finite? then [] else [Placed([], NotFiniteNumber)]
    case VMap(entries) => EntryOffences(v, |entries|)
    case VList(items) => ItemOffences(v, |items|)
    case VOther(_) => [Placed([], NotSerializable)]
    case _ => []
  }

  /** From the first `n` entries of a mapping. */
  function EntryOffences(v: Value, n: nat): seq<Offence>
    requires v.VMap? && n <= |v.entries|
    decreases v, 0, n
  {
    if n == 0 then []
    else
      var e := v.entries[n - 1];
      EntryOffences(v, n - 1) +
      match e.key
      case StrKey(s) => Under(s, Offences(e.value))
      case OtherKey(_) => [Placed([], KeyNotString)]
  }

  /** From the first `n` items of a list. */
  function ItemOffences(v: Value, n: nat): seq<Offence>
    requires v.VList? && n <= |v.items|
    decreases v, 0, n
  {
    if n == 0 then []
    else ItemOffences(v, n - 1) + Under(Decimal(n - 1), Offences(v.items[n - 1]))
  }

  // ----------------------------------------------------------------- the code

  lemma RenderHere(path: string, kind: Kind)
    ensures Render(path, [Placed([], kind)]) == [Printed(path, kind)]
  {
    assert PointerOf([]) == "" && path + "" == path;
  }

  /** The list the caller passes in, which the search only appends to. */
  class Findings {
    var all: seq<Finding>

    constructor ()
      ensures all == []
    {
      all := [];
    }

    /** `_find_non_json_values(value, path, findings)` */
    method Find(value: Value, path: string)
      modifies this
      ensures all == old(all) + Render(path, Offences(value))
      decreases value, 1
    {
      match value
      case VFloat(f) =>
        RenderHere(path, NotFiniteNumber);
        if f.NotFinite? { all := all + [Printed(path, NotFiniteNumber)]; }
      case VMap(entries) => FindInEntries(value, path);
      case VList(items) => FindInItems(value, path);
      case VOther(_) =>
        RenderHere(path, NotSerializable);
        all := all + [Printed(path, NotSerializable)];
      case _ =>
    }

    method FindInEntries(value: Value, path: string)
      requires value.VMap?
      modifies this
      ensures all == old(all) + Render(path, EntryOffences(value, |value.entries|))
      decreases value, 0
    {
      for i := 0 to |value.entries|
        invariant all == old(all) + Render(path, EntryOffences(value, i))
      {
        var entry := value.entries[i];
        match entry.key {
          case StrKey(s) =>
            Find(entry.value, Child(path, s));
            RenderUnder(path, s, Offences(entry.value));
          case OtherKey(_) =>
            RenderHere(path, KeyNotString);
            all := all + [Printed(path, KeyNotString)];
        }
      }
    }

    method FindInItems(value: Value, path: string)
      requires value.VList?
      modifies this
      ensures all == old(all) + Render(path, ItemOffences(value, |value.items|))
      decreases value, 0
    {
      for i := 0 to |value.items|
        invariant all == old(all) + Render(path, ItemOffences(value, i))
      {
        EscapePlain(Decimal(i));
        Find(value.items[i], path + "/" + Decimal(i));
        RenderUnder(path, Decimal(i), Offences(value.items[i]));
      }
    }
  }

  // ------------------------------------------------------- nothing iff it is JSON

  lemma {:induction false} NothingIffJson(v: Value)
    ensures Offences(v) == [] <==> IsJson(v)
    decreases v, 1, 0
  {
    match v
    case VMap(entries) => EntriesNothing(v, |entries|);
    case VList(items) => ItemsNothing(v, |items|);
    case _ =>
  }

  lemma {:induction false} EntriesNothing(v: Value, n: nat)
    requires v.VMap? && n <= |v.entries|
    ensures EntryOffences(v, n) == [] <==>
            forall i :: 0 <= i < n ==> v.entries[i].key.StrKey? && IsJson(v.entries[i].value)
    decreases v, 0, n
  {
    if n > 0 {
      EntriesNothing(v, n - 1);
      NothingIffJson(v.entries[n - 1].value);
    }
  }

  lemma {:induction false} ItemsNothing(v: Value, n: nat)
    requires v.VList? && n <= |v.items|
    ensures ItemOffences(v, n) == [] <==> forall i :: 0 <= i < n ==> IsJson(v.items[i])
    decreases v, 0, n
  {
    if n > 0 {
      ItemsNothing(v, n - 1);
      NothingIffJson(v.items[n - 1]);
    }
  }

  // ------------------------------------------------- every finding is an offence

  ghost predicate Located(v: Value, o: Offence)
  {
    var at := WalkValue(v, o.tokens);
    at.Some? && Offends(at.value, o.kind)
  }

  lemma {:induction false} LookupFinds(entries: seq<Entry>, i: nat)
    requires i < |entries| && entries[i].key.StrKey?
    requires forall k :: 0 <= k < i ==> entries[k].key != entries[i].key
    ensures Lookup(entries, entries[i].key.s) == Some(entries[i].value)
  {
    if i > 0 { LookupFinds(entries[1..], i - 1); }
  }

  lemma {:induction false} LookupFrom(entries: seq<Entry>, key: string) returns (i: nat)
    requires Lookup(entries, key).Some?
    ensures i < |entries| && entries[i] == Entry(StrKey(key), Lookup(entries, key).value)
  {
    if entries[0].key == StrKey(key) {
      i := 0;
    } else {
      i := LookupFrom(entries[1..], key);
      i := i + 1;
    }
  }

  lemma StepIntoMap(v: Value, token: string, child: Value, o: Offence)
    requires v.VMap? && Lookup(v.entries, token) == Some(child)
    ensures Located(v, Placed([token] + o.tokens, o.kind)) <==> Located(child, o)
  {
    assert ([token] + o.tokens)[1..] == o.tokens;
  }

  lemma StepIntoList(v: Value, i: nat, o: Offence)
    requires v.VList? && i < |v.items|
    ensures Located(v, Placed([Decimal(i)] + o.tokens, o.kind)) <==> Located(v.items[i], o)
  {
    assert ([Decimal(i)] + o.tokens)[1..] == o.tokens;
    DecimalRoundTrip(i);
  }

  lemma {:induction false} FindingsLocated(v: Value, o: Offence)
    requires DistinctKeys(v) && o in Offences(v)
    ensures Located(v, o)
    decreases v, 1, 0
  {
    assert WalkValue(v, []) == Some(v);
    match v
    case VMap(entries) => EntriesLocated(v, |entries|, o);
    case VList(items) => ItemsLocated(v, |items|, o);
    case _ =>
  }

  lemma {:induction false} EntriesLocated(v: Value, n: nat, o: Offence)
    requires v.VMap? && n <= |v.entries| && DistinctKeys(v) && o in EntryOffences(v, n)
    ensures Located(v, o)
    decreases v, 0, n
  {
    var e := v.entries[n - 1];
    if o in EntryOffences(v, n - 1) {
      EntriesLocated(v, n - 1, o);
    } else if e.key.OtherKey? {
      assert WalkValue(v, []) == Some(v);
    } else {
      var found := Offences(e.value);
      var k :| 0 <= k < |found| && o == Placed([e.key.s] + found[k].tokens, found[k].kind);
      FindingsLocated(e.value, found[k]);
      LookupFinds(v.entries, n - 1);
      StepIntoMap(v, e.key.s, e.value, found[k]);
    }
  }

  lemma {:induction false} ItemsLocated(v: Value, n: nat, o: Offence)
    requires v.VList? && n <= |v.items| && DistinctKeys(v) && o in ItemOffences(v, n)
    ensures Located(v, o)
    decreases v, 0, n
  {
    var item := v.items[n - 1];
    if o in ItemOffences(v, n - 1) {
      ItemsLocated(v, n - 1, o);
    } else {
      var found := Offences(item);
      var k :| 0 <= k < |found| && o == Placed([Decimal(n - 1)] + found[k].tokens, found[k].kind);
      FindingsLocated(item, found[k]);
      StepIntoList(v, n - 1, found[k]);
    }
  }

  // ------------------------------------------------- every offence is a finding

  lemma {:induction false} OffencesFound(v: Value, o: Offence)
    requires Located(v, o)
    ensures o in Offences(v)
    decreases v
  {
    if o.tokens == [] {
      assert WalkValue(v, []) == Some(v);
      if o.kind.KeyNotString? {
        var i :| 0 <= i < |v.entries| && v.entries[i].key.OtherKey?;
        KeyFound(v, i, |v.entries|);
        assert o == Placed([], KeyNotString);
      }
    } else {
      var rest := Placed(o.tokens[1..], o.kind);
      assert o.tokens == [o.tokens[0]] + rest.tokens;
      if v.VMap? {
        var i := LookupFrom(v.entries, o.tokens[0]);
        StepIntoMap(v, o.tokens[0], v.entries[i].value, rest);
        OffencesFound(v.entries[i].value, rest);
        ChildFound(v, i, |v.entries|, rest);
      } else {
        var i := DecimalValue(o.tokens[0]);
        StepIntoList(v, i, rest);
        OffencesFound(v.items[i], rest);
        ItemFound(v, i, |v.items|, rest);
      }
    }
  }

  lemma UnderHolds(token: string, found: seq<Offence>, o: Offence)
    requires o in found
    ensures Placed([token] + o.tokens, o.kind) in Under(token, found)
  {
    var k :| 0 <= k < |found| && found[k] == o;
    assert Under(token, found)[k] == Placed([token] + o.tokens, o.kind);
  }

  lemma {:induction false} KeyFound(v: Value, i: nat, n: nat)
    requires v.VMap? && i < n <= |v.entries| && v.entries[i].key.OtherKey?
    ensures Placed([], KeyNotString) in EntryOffences(v, n)
    decreases n
  {
    if i < n - 1 { KeyFound(v, i, n - 1); }
  }

  lemma {:induction false} ChildFound(v: Value, i: nat, n: nat, o: Offence)
    requires v.VMap? && i < n <= |v.entries| && v.entries[i].key.StrKey? && o in Offences(v.entries[i].value)
    ensures Placed([v.entries[i].key.s] + o.tokens, o.kind) in EntryOffences(v, n)
    decreases n
  {
    if i < n - 1 { ChildFound(v, i, n - 1, o); }
    else { UnderHolds(v.entries[i].key.s, Offences(v.entries[i].value), o); }
  }

  lemma {:induction false} ItemFound(v: Value, i: nat, n: nat, o: Offence)
    requires v.VList? && i < n <= |v.items| && o in Offences(v.items[i])
    ensures Placed([Decimal(i)] + o.tokens, o.kind) in ItemOffences(v, n)
    decreases n
  {
    if i < n - 1 { ItemFound(v, i, n - 1, o); }
    else { UnderHolds(Decimal(i), Offences(v.items[i]), o); }
  }

  // ------------------------------------------------------------ the theorem

  lemma RenderedAt(found: seq<Offence>, k: nat)
    requires k < |found|
    ensures Render("", found)[k] == Printed(PointerOf(found[k].tokens), found[k].kind)
  {
    assert "" + PointerOf(found[k].tokens) == PointerOf(found[k].tokens);
  }

  lemma ReportedIsOffence(found: seq<Offence>, tokens: seq<string>, kind: Kind)
    ensures Printed(PointerOf(tokens), kind) in Render("", found) <==> Placed(tokens, kind) in found
  {
    var rendered := Render("", found);
    if Printed(PointerOf(tokens), kind) in rendered {
      var k :| 0 <= k < |rendered| && rendered[k] == Printed(PointerOf(tokens), kind);
      RenderedAt(found, k);
      PointerOfInjective(tokens, found[k].tokens);
    }
    if Placed(tokens, kind) in found {
      var k :| 0 <= k < |found| && found[k] == Placed(tokens, kind);
      RenderedAt(found, k);
    }
  }

  /** A reported path, read by RFC 6901, leads to a value with that fault; and
      every faulty value that a pointer can reach is reported at that pointer. */
  lemma FinderExact(v: Value, tokens: seq<string>, kind: Kind)
    requires DistinctKeys(v)
    ensures Printed(PointerOf(tokens), kind) in Render("", Offences(v)) <==>
            var at := WalkValue(v, tokens); at.Some? && Offends(at.value, kind)
  {
    var o := Placed(tokens, kind);
    ReportedIsOffence(Offences(v), tokens, kind);
    if o in Offences(v) { FindingsLocated(v, o); }
    if Located(v, o) { OffencesFound(v, o); }
  }

  /** Every reported path is a pointer. */
  lemma FinderPathsParse(v: Value, f: Finding)
    requires f in Render("", Offences(v))
    ensures exists tokens :: f.path == PointerOf(tokens) && ParsePointer(f.path) == Tokens(tokens)
  {
    var found, rendered := Offences(v), Render("", Offences(v));
    var k :| 0 <= k < |rendered| && rendered[k] == f;
    assert "" + PointerOf(found[k].tokens) == PointerOf(found[k].tokens);
    PointerRoundTrip(found[k].tokens);
  }
}
