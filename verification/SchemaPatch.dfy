/** What a list of schema changes is worth: replaying it turns the old document
    into the new one, it is empty exactly when nothing changed, and no two
    entries overlap. */
module SchemaPatch {
  import opened JsonValues
  import opened Strings
  import opened Pointers
  import opened SchemaDiff

  // ------------------------------------------------- equality, independently

  /** One spelling for each number. */
  function Canon(j: Json): Json
  {
    match j
    case Arr(items) => Arr(seq(|items|, i requires 0 <= i < |items| => Canon(items[i])))
    case Obj(fields) => Obj(map k | k in fields :: Canon(fields[k]))
    case Null => Null
    case Str(s) => Str(s)
    case _ => Float(NumberOf(j).value)
  }

  /** Python calls two documents equal when they are the same once every number
      is spelled alike. */
  lemma {:induction false} PyEqIsCanon(a: Json, b: Json)
    ensures PyEq(a, b) <==> Canon(a) == Canon(b)
  {
    match a
    case Arr(items) =>
      if b.Arr? && |items| == |b.items| {
        forall i | 0 <= i < |items| ensures PyEq(items[i], b.items[i]) <==> Canon(items[i]) == Canon(b.items[i]) {
          PyEqIsCanon(items[i], b.items[i]);
        }
        var ca, cb := Canon(a).items, Canon(b).items;
        assert |ca| == |cb| == |items|;
        assert forall i :: 0 <= i < |items| ==> ca[i] == Canon(items[i]) && cb[i] == Canon(b.items[i]);
        assert ca == cb <==> forall i :: 0 <= i < |items| ==> ca[i] == cb[i];
      } else if b.Arr? {
        assert |Canon(a).items| != |Canon(b).items|;
      }
    case Obj(fields) =>
      if b.Obj? {
        assert Canon(a).fields.Keys == fields.Keys && Canon(b).fields.Keys == b.fields.Keys;
        if fields.Keys == b.fields.Keys {
          forall k | k in fields ensures PyEq(fields[k], b.fields[k]) <==> Canon(fields[k]) == Canon(b.fields[k]) {
            PyEqIsCanon(fields[k], b.fields[k]);
          }
          assert Canon(a) == Canon(b) <==> forall k :: k in fields ==> Canon(a).fields[k] == Canon(b).fields[k];
        }
      }
    case _ =>
  }

  // ----------------------------------------------------------------- replay

  /** Set the member at a path to a value, or drop it. */
  function PutAt(j: Json, tokens: seq<string>, v: Option<Json>): Json
    decreases |tokens|
  {
    if tokens == [] then (if v.Some? then v.value else j)
    else if !j.Obj? then j
    else if |tokens| == 1 then
      Obj(if v.Some? then j.fields[tokens[0] := v.value] else j.fields - {tokens[0]})
    else if tokens[0] in j.fields then
      Obj(j.fields[tokens[0] := PutAt(j.fields[tokens[0]], tokens[1..], v)])
    else j
  }

  function Apply(j: Json, e: Edit, after: Json): Json
  {
    PutAt(j, e.tokens, if e.kind.Removed? then None else Walk(after, e.tokens))
  }

  function Replay(j: Json, edits: seq<Edit>, after: Json): Json
    decreases |edits|
  {
    if edits == [] then j else Replay(Apply(j, edits[0], after), edits[1..], after)
  }

  lemma {:induction false} ReplayAppend(j: Json, a: seq<Edit>, b: seq<Edit>, after: Json)
    ensures Replay(j, a + b, after) == Replay(Replay(j, a, after), b, after)
    decreases |a|
  {
    if a == [] {
      assert a + b == b;
    } else {
      assert (a + b)[1..] == a[1..] + b;
      ReplayAppend(Apply(j, a[0], after), a[1..], b, after);
    }
  }

  // ------------------------------------------------- each entry says the truth

  ghost predicate Accurate(e: Edit, before: Json, after: Json)
  {
    var was, now := Walk(before, e.tokens), Walk(after, e.tokens);
    match e.kind
    case Removed => e.tokens != [] && was.Some? && now.None?
    case Added => e.tokens != [] && was.None? && now.Some?
    case Changed(b, a) => was == Some(b) && now == Some(a) && !PyEq(b, a) && !(b.Obj? && a.Obj?)
  }

  lemma UnderAccurate(e: Edit, key: string, before: Json, after: Json)
    requires before.Obj? && after.Obj? && key in before.fields && key in after.fields
    requires Accurate(e, before.fields[key], after.fields[key])
    ensures Accurate(Placed([key] + e.tokens, e.kind), before, after)
  {
    assert ([key] + e.tokens)[1..] == e.tokens;
  }

  lemma WalkOne(j: Json, key: string)
    requires j.Obj?
    ensures Walk(j, [key]) == if key in j.fields then Some(j.fields[key]) else None
  {
    assert [key][1..] == [];
    if key in j.fields { assert Walk(j.fields[key], []) == Some(j.fields[key]); }
  }

  /** Every entry describes what is at its path, on both sides. */
  lemma {:induction false} EditsAccurate(before: Json, after: Json)
    ensures forall e :: e in Edits(before, after) ==> Accurate(e, before, after)
    decreases before, 1, 0
  {
    if before.Obj? && after.Obj? {
      var bk, ak := before.fields.Keys, after.fields.Keys;
      InnerAccurate(before, after, SortedKeys(bk * ak));
      forall e | e in Edits(before, after) ensures Accurate(e, before, after) {
        if e in AtKeys(SortedKeys(bk - ak), Removed) || e in AtKeys(SortedKeys(ak - bk), Added) {
          assert e.tokens == [e.tokens[0]];
          assert if e.kind.Removed? then e.tokens[0] in SortedKeys(bk - ak) else e.tokens[0] in SortedKeys(ak - bk);
          WalkOne(before, e.tokens[0]);
          WalkOne(after, e.tokens[0]);
        }
      }
    } else {
      assert Walk(before, []) == Some(before) && Walk(after, []) == Some(after);
    }
  }

  lemma {:induction false} InnerAccurate(before: Json, after: Json, keys: seq<string>)
    requires before.Obj? && after.Obj?
    requires forall k :: k in keys ==> k in before.fields && k in after.fields
    ensures forall e :: e in InnerEdits(before, after, keys) ==> Accurate(e, before, after)
    decreases before, 0, |keys|
  {
    if keys != [] {
      var key := keys[0];
      var edits := Edits(before.fields[key], after.fields[key]);
      EditsAccurate(before.fields[key], after.fields[key]);
      InnerAccurate(before, after, keys[1..]);
      forall i | 0 <= i < |edits| ensures Accurate(Under(key, edits)[i], before, after) {
        UnderAccurate(edits[i], key, before, after);
      }
    }
  }

  // ------------------------------------------------------ empty iff unchanged

  /** No entry at all if and only if Python calls the documents equal. */
  lemma {:induction false} EmptyIffEqual(before: Json, after: Json)
    ensures Edits(before, after) == [] <==> PyEq(before, after)
    decreases before, 1, 0
  {
    if before.Obj? && after.Obj? {
      var bk, ak := before.fields.Keys, after.fields.Keys;
      var both := SortedKeys(bk * ak);
      InnerEmpty(before, after, both);
      KeysEmpty(bk, ak);
      assert Edits(before, after) == AtKeys(SortedKeys(bk - ak), Removed) + AtKeys(SortedKeys(ak - bk), Added)
                                     + InnerEdits(before, after, both);
      assert bk == ak ==> forall k :: k in bk <==> k in both;
    }
  }

  lemma NoEdits(keys: set<string>, kind: Kind)
    ensures AtKeys(SortedKeys(keys), kind) == [] <==> keys == {}
  {
    var sorted := SortedKeys(keys);
    assert |AtKeys(sorted, kind)| == |sorted|;
    if sorted != [] { assert sorted[0] in sorted; }
  }

  lemma KeysEmpty(bk: set<string>, ak: set<string>)
    ensures AtKeys(SortedKeys(bk - ak), Removed) == [] && AtKeys(SortedKeys(ak - bk), Added) == [] <==> bk == ak
  {
    NoEdits(bk - ak, Removed);
    NoEdits(ak - bk, Added);
    if bk - ak == {} && ak - bk == {} { assert bk == ak; }
    if bk == ak { assert bk - ak == {} && ak - bk == {}; }
  }

  lemma {:induction false} InnerEmpty(before: Json, after: Json, keys: seq<string>)
    requires before.Obj? && after.Obj?
    requires forall k :: k in keys ==> k in before.fields && k in after.fields
    ensures InnerEdits(before, after, keys) == [] <==>
            forall k :: k in keys ==> PyEq(before.fields[k], after.fields[k])
    decreases before, 0, |keys|
  {
    if keys != [] {
      EmptyIffEqual(before.fields[keys[0]], after.fields[keys[0]]);
      InnerEmpty(before, after, keys[1..]);
      assert forall k :: k in keys <==> k == keys[0] || k in keys[1..];
    }
  }

  // --------------------------------------------------------- entries are apart

  ghost predicate Apart(a: seq<string>, b: seq<string>)
  {
    !(a <= b) && !(b <= a)
  }

  ghost predicate AllApart(edits: seq<Edit>)
  {
    forall i, j :: 0 <= i < j < |edits| ==> Apart(edits[i].tokens, edits[j].tokens)
  }

  ghost function Heads(edits: seq<Edit>): set<string>
  {
    set i | 0 <= i < |edits| && edits[i].tokens != [] :: edits[i].tokens[0]
  }

  lemma HeadsApart(a: seq<Edit>, b: seq<Edit>)
    requires AllApart(a) && AllApart(b)
    requires forall e :: e in a || e in b ==> e.tokens != []
    requires Heads(a) !! Heads(b)
    ensures AllApart(a + b)
    ensures Heads(a + b) == Heads(a) + Heads(b)
  {
    forall i, j | 0 <= i < |a| && 0 <= j < |b| ensures Apart(a[i].tokens, b[j].tokens) {
      assert a[i] in a && b[j] in b;
      assert a[i].tokens[0] in Heads(a) && b[j].tokens[0] in Heads(b);
    }
    forall h ensures h in Heads(a + b) <==> h in Heads(a) + Heads(b) {
      if h in Heads(a) {
        var i :| 0 <= i < |a| && a[i].tokens != [] && a[i].tokens[0] == h;
        assert (a + b)[i] == a[i];
      } else if h in Heads(b) {
        var i :| 0 <= i < |b| && b[i].tokens != [] && b[i].tokens[0] == h;
        assert (a + b)[|a| + i] == b[i];
      }
    }
  }

  lemma AtKeysApart(keys: seq<string>, kind: Kind)
    requires forall i, j :: 0 <= i < j < |keys| ==> keys[i] != keys[j]
    ensures AllApart(AtKeys(keys, kind))
    ensures forall h :: h in Heads(AtKeys(keys, kind)) ==> h in keys
    ensures forall e :: e in AtKeys(keys, kind) ==> e.tokens != []
  {
    forall i, j | 0 <= i < j < |keys| ensures Apart([keys[i]], [keys[j]]) {
      assert [keys[i]][0] != [keys[j]][0];
    }
  }

  lemma UnderApart(key: string, edits: seq<Edit>)
    requires AllApart(edits)
    ensures AllApart(Under(key, edits))
    ensures forall h :: h in Heads(Under(key, edits)) ==> h == key
    ensures forall e :: e in Under(key, edits) ==> e.tokens != []
  {
    forall i, j | 0 <= i < j < |edits|
      ensures Apart([key] + edits[i].tokens, [key] + edits[j].tokens)
    {
      ConsPrefix(key, edits[i].tokens, edits[j].tokens);
      ConsPrefix(key, edits[j].tokens, edits[i].tokens);
    }
  }

  lemma ConsPrefix(key: string, a: seq<string>, b: seq<string>)
    ensures [key] + a <= [key] + b <==> a <= b
  {
    var ka, kb := [key] + a, [key] + b;
    assert forall i :: 0 <= i < |a| ==> ka[i + 1] == a[i];
    assert forall i :: 0 <= i < |b| ==> kb[i + 1] == b[i];
  }

  /** No entry's path equals or extends another's. */
  lemma {:induction false} EditsApart(before: Json, after: Json)
    ensures AllApart(Edits(before, after))
    decreases before, 1, 0
  {
    if before.Obj? && after.Obj? {
      var bk, ak := before.fields.Keys, after.fields.Keys;
      var gone, come, both := SortedKeys(bk - ak), SortedKeys(ak - bk), SortedKeys(bk * ak);
      AtKeysApart(gone, Removed);
      AtKeysApart(come, Added);
      InnerApart(before, after, both);
      HeadsApart(AtKeys(gone, Removed), AtKeys(come, Added));
      HeadsApart(AtKeys(gone, Removed) + AtKeys(come, Added), InnerEdits(before, after, both));
    }
  }

  lemma {:induction false} InnerApart(before: Json, after: Json, keys: seq<string>)
    requires before.Obj? && after.Obj?
    requires forall k :: k in keys ==> k in before.fields && k in after.fields
    requires forall i, j :: 0 <= i < j < |keys| ==> keys[i] != keys[j]
    ensures AllApart(InnerEdits(before, after, keys))
    ensures forall h :: h in Heads(InnerEdits(before, after, keys)) ==> h in keys
    ensures forall e :: e in InnerEdits(before, after, keys) ==> e.tokens != []
    decreases before, 0, |keys|
  {
    if keys != [] {
      EditsApart(before.fields[keys[0]], after.fields[keys[0]]);
      UnderApart(keys[0], Edits(before.fields[keys[0]], after.fields[keys[0]]));
      InnerApart(before, after, keys[1..]);
      HeadsApart(Under(keys[0], Edits(before.fields[keys[0]], after.fields[keys[0]])),
                 InnerEdits(before, after, keys[1..]));
    }
  }

  // -------------------------------------------------------- replay is faithful

  lemma {:induction false} ReplayUnder(j: Json, key: string, edits: seq<Edit>, before: Json, after: Json)
    requires j.Obj? && key in j.fields && after.Obj? && key in after.fields
    requires forall e :: e in edits ==> Accurate(e, before, after.fields[key])
    ensures Replay(j, Under(key, edits), after) ==
            Obj(j.fields[key := Replay(j.fields[key], edits, after.fields[key])])
    decreases |edits|
  {
    if edits == [] {
      assert j.fields[key := j.fields[key]] == j.fields;
    } else {
      var e := edits[0];
      assert e in edits;
      assert ([key] + e.tokens)[1..] == e.tokens;
      assert Under(key, edits)[1..] == Under(key, edits[1..]);
      var j' := Apply(j, Under(key, edits)[0], after);
      assert Walk(after, [key] + e.tokens) == Walk(after.fields[key], e.tokens);
      assert j' == Obj(j.fields[key := Apply(j.fields[key], e, after.fields[key])]);
      ReplayUnder(j', key, edits[1..], before, after);
      assert j'.fields[key := Replay(j'.fields[key], edits[1..], after.fields[key])] ==
             j.fields[key := Replay(j'.fields[key], edits[1..], after.fields[key])];
    }
  }

  lemma DropCons(fields: map<string, Json>, keys: seq<string>)
    requires keys != []
    ensures fields - (set k | k in keys) == fields - {keys[0]} - (set k | k in keys[1..])
  {
    assert keys == [keys[0]] + keys[1..];
  }

  lemma TakeCons(fields: map<string, Json>, keys: seq<string>, from: map<string, Json>)
    requires keys != [] && forall k :: k in keys ==> k in from
    ensures fields + (map k | k in keys :: from[k]) ==
            fields[keys[0] := from[keys[0]]] + map k | k in keys[1..] :: from[k]
  {
    assert keys == [keys[0]] + keys[1..];
  }

  lemma {:induction false} ReplayAtKeys(j: Json, keys: seq<string>, kind: Kind, after: Json)
    requires j.Obj? && after.Obj? && !kind.Changed?
    requires kind.Added? ==> forall k :: k in keys ==> k in after.fields
    ensures Replay(j, AtKeys(keys, kind), after) ==
            Obj(if kind.Removed? then j.fields - (set k | k in keys)
                else j.fields + map k | k in keys :: after.fields[k])
    decreases |keys|
  {
    if keys == [] {
      assert j.fields - (set k | k in keys) == j.fields;
    } else {
      assert AtKeys(keys, kind)[1..] == AtKeys(keys[1..], kind);
      WalkOne(after, keys[0]);
      var j' := Apply(j, AtKeys(keys, kind)[0], after);
      ReplayAtKeys(j', keys[1..], kind, after);
      if kind.Removed? { DropCons(j.fields, keys); } else { TakeCons(j.fields, keys, after.fields); }
    }
  }

  lemma {:induction false} ReplayInner(j: Json, before: Json, after: Json, keys: seq<string>)
    returns (r: Json)
    requires before.Obj? && after.Obj? && j.Obj?
    requires forall k :: k in keys ==> k in before.fields && k in after.fields
    requires forall k :: k in keys ==> k in j.fields && j.fields[k] == before.fields[k]
    requires forall i, j :: 0 <= i < j < |keys| ==> keys[i] != keys[j]
    ensures r == Replay(j, InnerEdits(before, after, keys), after)
    ensures r.Obj? && r.fields.Keys == j.fields.Keys
    ensures forall k :: k in keys ==> PyEq(r.fields[k], after.fields[k])
    ensures forall k :: k in j.fields && k !in keys ==> r.fields[k] == j.fields[k]
    decreases before, 0, |keys|
  {
    if keys == [] { return j; }
    var key := keys[0];
    var edits := Edits(before.fields[key], after.fields[key]);
    EditsAccurate(before.fields[key], after.fields[key]);
    ReplayFaithful(before.fields[key], after.fields[key]);
    ReplayUnder(j, key, edits, before.fields[key], after);
    var j' := Obj(j.fields[key := Replay(j.fields[key], edits, after.fields[key])]);
    r := ReplayInner(j', before, after, keys[1..]);
    ReplayAppend(j, Under(key, edits), InnerEdits(before, after, keys[1..]), after);
    assert keys == [key] + keys[1..];
  }

  /** Dropping the members that went and adding those that came. */
  lemma ReplayShallow(before: Json, after: Json) returns (j: Json)
    requires before.Obj? && after.Obj?
    ensures
      var bk, ak := before.fields.Keys, after.fields.Keys;
      j == Replay(before, AtKeys(SortedKeys(bk - ak), Removed) + AtKeys(SortedKeys(ak - bk), Added), after)
    ensures j.Obj? && j.fields.Keys == after.fields.Keys
    ensures forall k :: k in j.fields && k in before.fields ==> j.fields[k] == before.fields[k]
    ensures forall k :: k in j.fields && k !in before.fields ==> j.fields[k] == after.fields[k]
  {
    var bk, ak := before.fields.Keys, after.fields.Keys;
    var gone, come := SortedKeys(bk - ak), SortedKeys(ak - bk);
    ReplayAtKeys(before, gone, Removed, after);
    var kept := Replay(before, AtKeys(gone, Removed), after);
    ReplayAtKeys(kept, come, Added, after);
    ReplayAppend(before, AtKeys(gone, Removed), AtKeys(come, Added), after);
    j := Replay(kept, AtKeys(come, Added), after);
  }

  lemma {:induction false} ReplayObjects(before: Json, after: Json)
    requires before.Obj? && after.Obj?
    ensures PyEq(Replay(before, Edits(before, after), after), after)
    decreases before, 1
  {
    var bk, ak := before.fields.Keys, after.fields.Keys;
    var shallow := AtKeys(SortedKeys(bk - ak), Removed) + AtKeys(SortedKeys(ak - bk), Added);
    var both := SortedKeys(bk * ak);
    var j := ReplayShallow(before, after);
    var r := ReplayInner(j, before, after, both);
    ReplayAppend(before, shallow, InnerEdits(before, after, both), after);
    forall k | k in ak ensures PyEq(r.fields[k], after.fields[k]) {
      if k in bk { assert k in both; } else { PyEqReflexive(after.fields[k]); }
    }
  }

  /** Replaying the entries on the old document gives the new one. */
  lemma {:induction false} ReplayFaithful(before: Json, after: Json)
    ensures PyEq(Replay(before, Edits(before, after), after), after)
    decreases before, 2
  {
    if before.Obj? && after.Obj? {
      ReplayObjects(before, after);
    } else if !PyEq(before, after) {
      assert Walk(after, []) == Some(after);
      assert Replay(before, [Placed([], Changed(before, after))], after) == after;
      PyEqReflexive(after);
    }
  }

  // ------------------------------------------------------ when replay is exact

  /** Somewhere below shared keys stand two values that Python calls equal and
      that are not the same: `true` and `1`, say. */
  predicate Blind(before: Json, after: Json)
  {
    if before.Obj? && after.Obj? then
      exists k :: k in before.fields && k in after.fields && Blind(before.fields[k], after.fields[k])
    else PyEq(before, after) && before != after
  }

  lemma {:induction false} ReplayInnerExact(j: Json, before: Json, after: Json, keys: seq<string>)
    returns (r: Json)
    requires before.Obj? && after.Obj? && j.Obj?
    requires forall k :: k in keys ==> k in before.fields && k in after.fields
    requires forall k :: k in keys ==> k in j.fields && j.fields[k] == before.fields[k]
    requires forall i, j :: 0 <= i < j < |keys| ==> keys[i] != keys[j]
    ensures r == Replay(j, InnerEdits(before, after, keys), after)
    ensures r.Obj? && r.fields.Keys == j.fields.Keys
    ensures forall k :: k in keys ==> (r.fields[k] == after.fields[k] <==> !Blind(before.fields[k], after.fields[k]))
    ensures forall k :: k in j.fields && k !in keys ==> r.fields[k] == j.fields[k]
    decreases before, 0, |keys|
  {
    if keys == [] { return j; }
    var key := keys[0];
    var edits := Edits(before.fields[key], after.fields[key]);
    EditsAccurate(before.fields[key], after.fields[key]);
    ReplayExactIff(before.fields[key], after.fields[key]);
    ReplayUnder(j, key, edits, before.fields[key], after);
    var j' := Obj(j.fields[key := Replay(j.fields[key], edits, after.fields[key])]);
    r := ReplayInnerExact(j', before, after, keys[1..]);
    ReplayAppend(j, Under(key, edits), InnerEdits(before, after, keys[1..]), after);
    assert keys == [key] + keys[1..];
  }

  lemma {:induction false} ReplayObjectsExact(before: Json, after: Json)
    requires before.Obj? && after.Obj?
    ensures Replay(before, Edits(before, after), after) == after <==> !Blind(before, after)
    decreases before, 1
  {
    var bk, ak := before.fields.Keys, after.fields.Keys;
    var shallow := AtKeys(SortedKeys(bk - ak), Removed) + AtKeys(SortedKeys(ak - bk), Added);
    var both := SortedKeys(bk * ak);
    var j := ReplayShallow(before, after);
    var r := ReplayInnerExact(j, before, after, both);
    ReplayAppend(before, shallow, InnerEdits(before, after, both), after);
    assert Edits(before, after) == shallow + InnerEdits(before, after, both);
    forall k | k in bk && k in ak
      ensures r.fields[k] == after.fields[k] <==> !Blind(before.fields[k], after.fields[k])
    {
      assert k in both;
    }
    SameIffSeeing(r, before, after);
  }

  lemma SameIffSeeing(r: Json, before: Json, after: Json)
    requires r.Obj? && before.Obj? && after.Obj? && r.fields.Keys == after.fields.Keys
    requires forall k :: k in after.fields && k in before.fields ==>
               (r.fields[k] == after.fields[k] <==> !Blind(before.fields[k], after.fields[k]))
    requires forall k :: k in after.fields && k !in before.fields ==> r.fields[k] == after.fields[k]
    ensures r == after <==> !Blind(before, after)
  {
    if !Blind(before, after) { assert r.fields == after.fields; }
  }

  /** Replaying the entries gives exactly the new document if and only if there is
      no blind spot between the two. */
  lemma {:induction false} ReplayExactIff(before: Json, after: Json)
    ensures Replay(before, Edits(before, after), after) == after <==> !Blind(before, after)
    decreases before, 2
  {
    if before.Obj? && after.Obj? {
      ReplayObjectsExact(before, after);
    } else if !PyEq(before, after) {
      assert Walk(after, []) == Some(after);
      assert Replay(before, [Placed([], Changed(before, after))], after) == after;
    }
  }

  // ---------------------------------------------------- the list as it is printed

  /** Replay a printed change list: each path read by RFC 6901. */
  function ReplayChanges(j: Json, changes: seq<Change>, after: Json): Json
    decreases |changes|
  {
    if changes == [] then j
    else
      var next := match ParsePointer(changes[0].path)
        case Tokens(tokens) => Apply(j, Placed(tokens, changes[0].kind), after)
        case NotAPointer => j;
      ReplayChanges(next, changes[1..], after)
  }

  lemma {:induction false} PrintedReplay(j: Json, edits: seq<Edit>, after: Json)
    ensures ReplayChanges(j, Render("", edits), after) == Replay(j, edits, after)
    decreases |edits|
  {
    if edits != [] {
      assert Render("", edits)[1..] == Render("", edits[1..]);
      assert "" + PointerOf(edits[0].tokens) == PointerOf(edits[0].tokens);
      PointerRoundTrip(edits[0].tokens);
      PrintedReplay(Apply(j, edits[0], after), edits[1..], after);
    }
  }

  /** The change list is a faithful patch: replaying what is printed on the old
      document gives the new one, number spelling apart. */
  lemma DiffIsPatch(before: Json, after: Json)
    ensures Canon(ReplayChanges(before, Render("", Edits(before, after)), after)) == Canon(after)
  {
    PrintedReplay(before, Edits(before, after), after);
    ReplayFaithful(before, after);
    PyEqIsCanon(Replay(before, Edits(before, after), after), after);
  }

  /** ... and exactly the new one, if and only if there is no blind spot. */
  lemma DiffIsExactIff(before: Json, after: Json)
    ensures ReplayChanges(before, Render("", Edits(before, after)), after) == after <==> !Blind(before, after)
  {
    PrintedReplay(before, Edits(before, after), after);
    ReplayExactIff(before, after);
  }

  /** Where two documents differ and no drift is reported, there is one. */
  lemma MissedDriftIsBlind(before: Json, after: Json)
    requires before != after && Edits(before, after) == []
    ensures Blind(before, after)
  {
    ReplayExactIff(before, after);
  }

  /** `drift` is reported if and only if the documents differ by more than the
      spelling of their numbers. */
  lemma DriftIffDifferent(before: Json, after: Json)
    ensures Render("", Edits(before, after)) == [] <==> Canon(before) == Canon(after)
  {
    EmptyIffEqual(before, after);
    PyEqIsCanon(before, after);
    assert |Render("", Edits(before, after))| == |Edits(before, after)|;
  }

  /** Printed paths do not overlap either: no two are equal, and no one reads as
      the start of another. */
  lemma PrintedPathsApart(before: Json, after: Json, i: nat, j: nat)
    requires i < |Render("", Edits(before, after))| && j < |Render("", Edits(before, after))| && i != j
    ensures
      var p, q := ParsePointer(Render("", Edits(before, after))[i].path), ParsePointer(Render("", Edits(before, after))[j].path);
      p.Tokens? && q.Tokens? && Apart(p.tokens, q.tokens)
  {
    var edits := Edits(before, after);
    EditsApart(before, after);
    PointerRoundTrip(edits[i].tokens);
    PointerRoundTrip(edits[j].tokens);
    assert "" + PointerOf(edits[i].tokens) == PointerOf(edits[i].tokens);
    assert "" + PointerOf(edits[j].tokens) == PointerOf(edits[j].tokens);
  }

  /** The blind spot: `true` and `1` are different JSON, but the same to Python,
      so a schema whose `default` changes from one to the other does not drift. */
  lemma DriftBlindSpot()
    ensures
      var before, after := Obj(map["default" := Bool(true)]), Obj(map["default" := Int(1)]);
      before != after && Edits(before, after) == [] && Blind(before, after)
  {
    var before, after := Obj(map["default" := Bool(true)]), Obj(map["default" := Int(1)]);
    assert PyEq(Bool(true), Int(1));
    assert PyEq(before, after);
    EmptyIffEqual(before, after);
    assert before.fields["default"] != after.fields["default"];
    MissedDriftIsBlind(before, after);
  }

  /** Nothing but integers, strings and null at the leaves. */
  predicate PlainNumbers(j: Json)
  {
    match j
    case Arr(items) => forall i :: 0 <= i < |items| ==> PlainNumbers(items[i])
    case Obj(fields) => forall k :: k in fields ==> PlainNumbers(fields[k])
    case _ => !j.Bool? && !j.Float?
  }

  lemma {:induction false} PlainEqualIsSame(a: Json, b: Json)
    requires PlainNumbers(a) && PlainNumbers(b) && PyEq(a, b)
    ensures a == b
  {
    match a
    case Arr(items) =>
      forall i | 0 <= i < |items| ensures items[i] == b.items[i] { PlainEqualIsSame(items[i], b.items[i]); }
      assert items == b.items;
    case Obj(fields) =>
      forall k | k in fields ensures fields[k] == b.fields[k] { PlainEqualIsSame(fields[k], b.fields[k]); }
      assert fields == b.fields;
    case _ =>
  }

  /** Without booleans and floats there is no blind spot, so replay is exact. */
  lemma {:induction false} PlainIsNotBlind(before: Json, after: Json)
    requires PlainNumbers(before) && PlainNumbers(after)
    ensures !Blind(before, after)
  {
    if before.Obj? && after.Obj? {
      forall k | k in before.fields && k in after.fields ensures !Blind(before.fields[k], after.fields[k]) {
        PlainIsNotBlind(before.fields[k], after.fields[k]);
      }
    } else if PyEq(before, after) {
      PlainEqualIsSame(before, after);
    }
  }
}
