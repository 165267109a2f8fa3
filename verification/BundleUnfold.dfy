/** Bundling preserves meaning: following references to any depth gives the same
    tree before and after, recursive components included. */
module BundleUnfold {
  import opened JsonValues
  import opened Strings
  import opened Pointers
  import opened Bundler
  import opened BundleMeaning
  import opened Fragments

  /** A document with its references followed `n` deep. */
  datatype Tree =
    | Leaf(j: Json)
    | Listed(items: seq<Tree>)
    | Record(fields: map<string, Tree>)
    | Followed(t: Tree)
    | Cut      // depth used up
    | Broken   // the reference leads nowhere

  function Unfold(n: nat, target: Json -> Option<Json>, j: Json): Tree
    decreases n, j, 1
  {
    match j
    case Arr(items) => Listed(seq(|items|, i requires 0 <= i < |items| => Unfold(n, target, items[i])))
    case Obj(fields) => Record(map k | k in fields :: UnfoldField(n, target, k, fields[k]))
    case _ => Leaf(j)
  }

  function UnfoldField(n: nat, target: Json -> Option<Json>, key: string, child: Json): Tree
    decreases n, child, 2
  {
    if key != REF then Unfold(n, target, child)
    else if n == 0 then Cut
    else match target(child)
      case None => Broken
      case Some(j) => Followed(Unfold(n - 1, target, j))
  }

  // -------------------------------------------------- two ways to follow a `$ref`

  /** The code's own reading: the rest of the string names one component. */
  function NameTarget(components: map<string, Json>, child: Json): Option<Json>
  {
    match RefTarget(components, child)
    case Component(name) => Some(components[name])
    case Refused(_) => None
  }

  function ByName(components: map<string, Json>): Json -> Option<Json>
  {
    child => NameTarget(components, child)
  }

  /** The standard's reading: the fragment of a URI, percent-decoded, is a JSON
      Pointer into the whole document. */
  function FragmentTarget(root: Json, child: Json): Option<Json>
  {
    if !child.Str? then None
    else match FragmentTokens(child.s)
      case NotAPointer => None
      case Tokens(tokens) => Walk(root, tokens)
  }

  function ByFragment(root: Json): Json -> Option<Json>
  {
    child => FragmentTarget(root, child)
  }

  /** The pointer as it is written, without decoding. */
  function PointerTarget(root: Json, child: Json): Option<Json>
  {
    if !child.Str? || child.s == "" || child.s[0] != '#' then None
    else match ParsePointer(child.s[1..])
      case NotAPointer => None
      case Tokens(tokens) => Walk(root, tokens)
  }

  function ByPointer(root: Json): Json -> Option<Json>
  {
    child => PointerTarget(root, child)
  }

  // --------------------------------------------------------- what acceptance gives

  /** Every reference in `j` names a component the root reaches. */
  ghost predicate Inside(components: map<string, Json>, root: Json, j: Json)
  {
    forall v {:trigger v in RefValues(j)} :: v in RefValues(j) ==>
      var t := RefTarget(components, v);
      t.Component? && Reachable(components, root, t.name)
  }

  lemma NotRefused(components: map<string, Json>, root: Json, e: RefError)
    requires AllRefsAccepted(components, root)
    ensures !RefusedIn(components, root, e)
    ensures forall c :: c in components && Reachable(components, root, c) ==> !RefusedIn(components, components[c], e)
  {
    assert !RefusedSomewhere(components, root, e);
  }

  lemma RootInside(components: map<string, Json>, root: Json)
    requires AllRefsAccepted(components, root)
    ensures Inside(components, root, root)
  {
    forall v | v in RefValues(root)
      ensures var t := RefTarget(components, v); t.Component? && Reachable(components, root, t.name)
    {
      match RefTarget(components, v)
      case Refused(e) =>
        NotRefused(components, root, e);
      case Component(c) =>
        assert Links(components, root, c);
        LinksReach(components, root, c);
    }
  }

  lemma ComponentInside(components: map<string, Json>, root: Json, name: string)
    requires AllRefsAccepted(components, root)
    requires name in components && Reachable(components, root, name)
    ensures Inside(components, root, components[name])
  {
    forall v | v in RefValues(components[name])
      ensures var t := RefTarget(components, v); t.Component? && Reachable(components, root, t.name)
    {
      match RefTarget(components, v)
      case Refused(e) =>
        NotRefused(components, root, e);
      case Component(c) =>
        assert Links(components, components[name], c);
        ReachStep(components, root, name, c);
    }
  }

  // ------------------------------------------------------------------ the defs

  lemma DefsShape(rewritten: map<string, Json>, bundled: map<string, Json>, resolved: Json)
    requires WithDefs(rewritten, bundled) == Ok(resolved)
    ensures resolved.Obj? && resolved.fields - {DEFS} == rewritten - {DEFS}
    ensures bundled != map[] ==> DEFS in resolved.fields && resolved.fields[DEFS].Obj?
    ensures forall key :: key in bundled ==>
              key in resolved.fields[DEFS].fields && resolved.fields[DEFS].fields[key] == bundled[key]
  {
  }

  lemma WalkTwo(j: Json, a: string, b: string)
    requires j.Obj? && a in j.fields && j.fields[a].Obj? && b in j.fields[a].fields
    ensures Walk(j, [a, b]) == Some(j.fields[a].fields[b])
  {
    assert [a, b][1..] == [b] && [b][1..] == [];
    assert Walk(j.fields[a], [b]) == Walk(j.fields[a].fields[b], []);
  }

  /** The new reference of a reachable component leads to that component: as it
      is written, always; as the standard reads it, when a fragment may
      hold its name as it is. */
  lemma DefsHold(components: map<string, Json>, schema: map<string, Json>, resolved: Json, c: string)
    requires WithDefs(Rewritten(components, Obj(schema)).fields, Bundle(components, Obj(schema))) == Ok(resolved)
    requires c in components && Reachable(components, Obj(schema), c)
    ensures PointerTarget(resolved, NewRef(c)) == Some(Rewritten(components, components[c]))
    ensures PlainName(c) ==> FragmentTarget(resolved, NewRef(c)) == Some(Rewritten(components, components[c]))
  {
    DefsEntry(components, schema, resolved, c);
    NewRefPointer(c);
    NewRefReads(c);
  }

  lemma DefsEntry(components: map<string, Json>, schema: map<string, Json>, resolved: Json, c: string)
    requires WithDefs(Rewritten(components, Obj(schema)).fields, Bundle(components, Obj(schema))) == Ok(resolved)
    requires c in components && Reachable(components, Obj(schema), c)
    ensures Walk(resolved, [DEFS, SafeName(c)]) == Some(Rewritten(components, components[c]))
  {
    BundleEntries(components, Obj(schema), c);
    DefsShape(Rewritten(components, Obj(schema)).fields, Bundle(components, Obj(schema)), resolved);
    WalkTwo(resolved, DEFS, SafeName(c));
  }

  /** Every reachable component is found under its new reference. */
  ghost predicate DefsMatch(components: map<string, Json>, root: Json, follow: Json -> Option<Json>)
  {
    forall c {:trigger Reachable(components, root, c)} :: c in components && Reachable(components, root, c) ==>
      follow(NewRef(c)) == Some(Rewritten(components, components[c]))
  }

  lemma DefsHoldAsWritten(components: map<string, Json>, schema: map<string, Json>, resolved: Json)
    requires WithDefs(Rewritten(components, Obj(schema)).fields, Bundle(components, Obj(schema))) == Ok(resolved)
    ensures DefsMatch(components, Obj(schema), ByPointer(resolved))
  {
    forall c {:trigger Reachable(components, Obj(schema), c)} | c in components && Reachable(components, Obj(schema), c)
      ensures PointerTarget(resolved, NewRef(c)) == Some(Rewritten(components, components[c]))
    {
      DefsHold(components, schema, resolved, c);
    }
  }

  /** A fragment may hold the name of every reachable component as it is. */
  ghost predicate PlainNames(components: map<string, Json>, root: Json)
  {
    forall c {:trigger Reachable(components, root, c)} :: c in components && Reachable(components, root, c) ==>
      PlainName(c)
  }

  lemma AllDefsHold(components: map<string, Json>, schema: map<string, Json>, resolved: Json)
    requires PlainNames(components, Obj(schema))
    requires WithDefs(Rewritten(components, Obj(schema)).fields, Bundle(components, Obj(schema))) == Ok(resolved)
    ensures DefsMatch(components, Obj(schema), ByFragment(resolved))
  {
    forall c {:trigger Reachable(components, Obj(schema), c)} | c in components && Reachable(components, Obj(schema), c)
      ensures FragmentTarget(resolved, NewRef(c)) == Some(Rewritten(components, components[c]))
    {
      DefsHold(components, schema, resolved, c);
    }
  }

  /** Outside `$defs` the result is the rewritten schema. */
  lemma RestRewritten(components: map<string, Json>, schema: map<string, Json>, resolved: Json)
    requires WithDefs(Rewritten(components, Obj(schema)).fields, Bundle(components, Obj(schema))) == Ok(resolved)
    ensures resolved.Obj? && Obj(resolved.fields - {DEFS}) == Rewritten(components, Obj(schema - {DEFS}))
  {
    DefsShape(Rewritten(components, Obj(schema)).fields, Bundle(components, Obj(schema)), resolved);
    assert Rewritten(components, Obj(schema - {DEFS})).fields == Rewritten(components, Obj(schema)).fields - {DEFS};
  }

  // ------------------------------------------------------------------- unfolding

  ghost predicate Alike(n: nat, components: map<string, Json>, follow: Json -> Option<Json>, j: Json)
  {
    Unfold(n, ByName(components), j) == Unfold(n, follow, Rewritten(components, j))
  }

  /** The components unfold alike one level down. */
  ghost predicate AlikeBelow(n: nat, components: map<string, Json>, root: Json, follow: Json -> Option<Json>)
  {
    n > 0 ==>
      forall c {:trigger Reachable(components, root, c)} :: c in components && Reachable(components, root, c) ==>
        Alike(n - 1, components, follow, components[c])
  }

  lemma {:induction false} UnfoldsAlike(n: nat, components: map<string, Json>, root: Json, follow: Json -> Option<Json>, j: Json)
    requires AlikeBelow(n, components, root, follow) && DefsMatch(components, root, follow)
    requires Inside(components, root, j)
    ensures Alike(n, components, follow, j)
    decreases j, 1
  {
    match j
    case Arr(items) =>
      forall i | 0 <= i < |items|
        ensures Alike(n, components, follow, items[i])
      {
        assert RefValues(items[i]) <= RefValues(j);
        UnfoldsAlike(n, components, root, follow, items[i]);
      }
      ItemsAlike(n, components, follow, items);
    case Obj(fields) =>
      forall k {:trigger fields[k]} | k in fields
        ensures FieldAlike(n, components, follow, k, fields[k])
      {
        FieldValues(j, k);
        FieldUnfoldsAlike(n, components, root, follow, k, fields[k]);
      }
      FieldsAlike(n, components, follow, fields);
    case _ =>
  }

  ghost predicate FieldAlike(n: nat, components: map<string, Json>, follow: Json -> Option<Json>, key: string, child: Json)
  {
    UnfoldField(n, ByName(components), key, child) ==
    UnfoldField(n, follow, key, RewrittenField(components, key, child))
  }

  lemma ItemsAlike(n: nat, components: map<string, Json>, follow: Json -> Option<Json>, items: seq<Json>)
    requires forall i :: 0 <= i < |items| ==> Alike(n, components, follow, items[i])
    ensures Alike(n, components, follow, Arr(items))
  {
  }

  lemma FieldsAlike(n: nat, components: map<string, Json>, follow: Json -> Option<Json>, fields: map<string, Json>)
    requires forall k {:trigger fields[k]} :: k in fields ==> FieldAlike(n, components, follow, k, fields[k])
    ensures Alike(n, components, follow, Obj(fields))
  {
  }

  lemma {:induction false} FieldUnfoldsAlike(n: nat, components: map<string, Json>, root: Json, follow: Json -> Option<Json>,
                                             key: string, child: Json)
    requires AlikeBelow(n, components, root, follow) && DefsMatch(components, root, follow)
    requires key != REF ==> Inside(components, root, child)
    requires key == REF ==>
      var t := RefTarget(components, child); t.Component? && Reachable(components, root, t.name)
    ensures FieldAlike(n, components, follow, key, child)
    decreases child, 2
  {
    if key != REF {
      UnfoldsAlike(n, components, root, follow, child);
    } else if n > 0 {
      var name := RefTarget(components, child).name;
      LinkMatches(components, root, follow, child, name);
      AlikeSteps(n, components, follow, child, components[name]);
    }
  }

  lemma AlikeSteps(n: nat, components: map<string, Json>, follow: Json -> Option<Json>, child: Json, j: Json)
    requires n > 0 && Alike(n - 1, components, follow, j)
    requires ByName(components)(child) == Some(j)
    requires follow(RewrittenRef(components, child)) == Some(Rewritten(components, j))
    ensures UnfoldField(n, ByName(components), REF, child) ==
            UnfoldField(n, follow, REF, RewrittenRef(components, child))
  {
  }

  lemma LinkMatches(components: map<string, Json>, root: Json, follow: Json -> Option<Json>, child: Json, name: string)
    requires DefsMatch(components, root, follow)
    requires RefTarget(components, child) == Component(name) && Reachable(components, root, name)
    ensures ByName(components)(child) == Some(components[name])
    ensures follow(RewrittenRef(components, child)) == Some(Rewritten(components, components[name]))
  {
    assert RewrittenRef(components, child) == NewRef(name);
  }

  /** Depth by depth: the components unfold alike below every depth. */
  lemma {:induction false} ComponentsUnfoldAlike(n: nat, components: map<string, Json>, root: Json, follow: Json -> Option<Json>)
    requires AllRefsAccepted(components, root) && DefsMatch(components, root, follow)
    ensures AlikeBelow(n, components, root, follow)
  {
    if n > 0 {
      ComponentsUnfoldAlike(n - 1, components, root, follow);
      forall c | c in components && Reachable(components, root, c)
        ensures Alike(n - 1, components, follow, components[c])
      {
        ComponentInside(components, root, c);
        UnfoldsAlike(n - 1, components, root, follow, components[c]);
      }
    }
  }

  /** Any way of following the new references that finds the components unfolds
      the result as the code's reading unfolds the original. */
  lemma MeaningFollowed(n: nat, components: map<string, Json>, schema: map<string, Json>, resolved: Json,
                        follow: Json -> Option<Json>)
    requires AllRefsAccepted(components, Obj(schema))
    requires WithDefs(Rewritten(components, Obj(schema)).fields, Bundle(components, Obj(schema))) == Ok(resolved)
    requires DefsMatch(components, Obj(schema), follow)
    ensures resolved.Obj?
    ensures Unfold(n, ByName(components), Obj(schema - {DEFS})) == Unfold(n, follow, Obj(resolved.fields - {DEFS}))
  {
    var root, part := Obj(schema), Obj(schema - {DEFS});
    RootInside(components, root);
    assert RefValues(part) <= RefValues(root);
    ComponentsUnfoldAlike(n, components, root, follow);
    UnfoldsAlike(n, components, root, follow, part);
    RestRewritten(components, schema, resolved);
  }

  /** The theorem, with the pointers of the result taken as they are written: for
      every depth, the request schema and the bundled one unfold to the same
      tree, apart from the `$defs` the bundler writes. */
  lemma MeaningPreservedAsWritten(n: nat, components: map<string, Json>, schema: map<string, Json>, resolved: Json)
    requires AllRefsAccepted(components, Obj(schema))
    requires WithDefs(Rewritten(components, Obj(schema)).fields, Bundle(components, Obj(schema))) == Ok(resolved)
    ensures resolved.Obj?
    ensures Unfold(n, ByName(components), Obj(schema - {DEFS})) ==
            Unfold(n, ByPointer(resolved), Obj(resolved.fields - {DEFS}))
  {
    DefsHoldAsWritten(components, schema, resolved);
    MeaningFollowed(n, components, schema, resolved, ByPointer(resolved));
  }

  /** The theorem, with the result read by the standard. It needs reachable names
      that a fragment may hold as they are: see `NamesKeptIff`. */
  lemma MeaningPreserved(n: nat, components: map<string, Json>, schema: map<string, Json>, resolved: Json)
    requires AllRefsAccepted(components, Obj(schema)) && PlainNames(components, Obj(schema))
    requires WithDefs(Rewritten(components, Obj(schema)).fields, Bundle(components, Obj(schema))) == Ok(resolved)
    ensures resolved.Obj?
    ensures Unfold(n, ByName(components), Obj(schema - {DEFS})) ==
            Unfold(n, ByFragment(resolved), Obj(resolved.fields - {DEFS}))
  {
    AllDefsHold(components, schema, resolved);
    MeaningFollowed(n, components, schema, resolved, ByFragment(resolved));
  }

  // ----------------------------------------------- names a fragment may not hold

  /** A schema that is one reference to the one component. */
  function OnlyRef(c: string): map<string, Json>
  {
    map[REF := Str(COMPONENT_PREFIX + Escape(c))]
  }

  function OnlyRefResolved(c: string): Json
  {
    Obj(map[REF := NewRef(c), DEFS := Obj(map[SafeName(c) := Null])])
  }

  lemma OnlyRefReaches(c: string)
    ensures RefTarget(map[c := Null], OnlyRef(c)[REF]) == Component(c)
    ensures RefValues(Obj(OnlyRef(c))) == {OnlyRef(c)[REF]}
    ensures Reachable(map[c := Null], Obj(OnlyRef(c)), c)
  {
    var components, root := map[c := Null], Obj(OnlyRef(c));
    UnescapeEscape(c);
    ComponentRefTarget(components, Escape(c));
    assert RefValues(root) == {OnlyRef(c)[REF]};
    assert Links(components, root, c);
    LinksReach(components, root, c);
  }

  lemma OnlyRefAccepted(c: string)
    ensures AllRefsAccepted(map[c := Null], Obj(OnlyRef(c)))
  {
    OnlyRefReaches(c);
    assert RefValues(Null) == {};
  }

  lemma OnlyRefBundle(c: string)
    ensures Bundle(map[c := Null], Obj(OnlyRef(c))) == map[SafeName(c) := Null]
  {
    OnlyRefReaches(c);
    BundleEntries(map[c := Null], Obj(OnlyRef(c)), c);
    assert Bundle(map[c := Null], Obj(OnlyRef(c))).Keys == {SafeName(c)};
  }

  lemma FreshDefs(rewritten: map<string, Json>, bundle: map<string, Json>)
    requires DEFS !in rewritten && bundle != map[]
    ensures WithDefs(rewritten, bundle) == Ok(Obj(rewritten[DEFS := Obj(bundle)]))
  {
    assert map[] + bundle == bundle;
  }

  lemma OnlyRefRewritten(c: string)
    ensures Rewritten(map[c := Null], Obj(OnlyRef(c))) == Obj(map[REF := NewRef(c)])
  {
    OnlyRefReaches(c);
    assert Rewritten(map[c := Null], Obj(OnlyRef(c))).fields == map[REF := NewRef(c)];
  }

  lemma OnlyRefResolves(c: string)
    ensures
      var components, root := map[c := Null], Obj(OnlyRef(c));
      WithDefs(Rewritten(components, root).fields, Bundle(components, root)) == Ok(OnlyRefResolved(c))
  {
    var rewritten, bundle := map[REF := NewRef(c)], map[SafeName(c) := Null];
    assert SafeName(c) in bundle;
    OnlyRefRewritten(c);
    OnlyRefBundle(c);
    FreshDefs(rewritten, bundle);
    assert rewritten[DEFS := Obj(bundle)] == OnlyRefResolved(c).fields;
  }

  /** One reference beside `"$defs": []`: every reference is fine, and the last
      step fails uncaught. */
  lemma FalsyDefsFail(c: string)
    ensures
      var components, schema := map[c := Null], OnlyRef(c)[DEFS := Arr([])];
      && AllRefsAccepted(components, Obj(schema))
      && WithDefs(Rewritten(components, Obj(schema)).fields, Bundle(components, Obj(schema))) == Err(Uncaught)
  {
    FalsyDefsAccepted(c);
    DefsUncaughtIff(map[c := Null], OnlyRef(c)[DEFS := Arr([])]);
  }

  lemma FalsyDefsAccepted(c: string)
    ensures RefValues(Obj(OnlyRef(c)[DEFS := Arr([])])) == {OnlyRef(c)[REF]}
    ensures AllRefsAccepted(map[c := Null], Obj(OnlyRef(c)[DEFS := Arr([])]))
  {
    OnlyRefReaches(c);
    assert RefValues(Arr([])) == {} && RefValues(Null) == {};
    assert RefValues(Obj(OnlyRef(c)[DEFS := Arr([])])) == {OnlyRef(c)[REF]};
  }

  lemma WalkIntoNull(name: string, tokens: seq<string>)
    requires tokens != [] && tokens != [name]
    ensures Walk(Obj(map[name := Null]), tokens) == None
  {
    if tokens[0] == name {
      assert tokens == [name] + tokens[1..];
      assert tokens[1..] != [];
      assert Walk(Null, tokens[1..]) == None;
    }
  }

  /** A name that a fragment may not hold as it is, is lost: the standard decodes
      the reference and looks for another entry, or finds no pointer in it. */
  lemma NameLost(c: string)
    requires !PlainName(c)
    ensures FragmentTarget(OnlyRefResolved(c), NewRef(c)) == None
  {
    var e := Escape(SafeName(c));
    NewRefFront(c);
    EscapedOneName(SafeName(c));
    SafeNamePlain(c);
    UnescapeEscape(SafeName(c));
    if FragmentTokens(NewRef(c).s).Tokens? {
      var tail := OtherTokens([DEFS], e);
      assert ([DEFS] + tail)[1..] == tail;
      WalkIntoNull(SafeName(c), tail);
    }
  }

  /** The new reference of one component leads to it in every bundled document,
      as the standard reads it, if and only if a fragment may hold its name. */
  lemma NamesKeptIff(c: string)
    ensures PlainName(c) <==>
            forall components, schema, resolved
              {:trigger FragmentTarget(resolved, NewRef(c)), Reachable(components, Obj(schema), c)} ::
              c in components && Reachable(components, Obj(schema), c) &&
              WithDefs(Rewritten(components, Obj(schema)).fields, Bundle(components, Obj(schema))) == Ok(resolved) ==>
              FragmentTarget(resolved, NewRef(c)) == Some(Rewritten(components, components[c]))
  {
    if !PlainName(c) {
      OnlyRefReaches(c);
      OnlyRefResolves(c);
      NameLost(c);
    } else {
      forall components: map<string, Json>, schema: map<string, Json>, resolved |
        c in components && Reachable(components, Obj(schema), c) &&
        WithDefs(Rewritten(components, Obj(schema)).fields, Bundle(components, Obj(schema))) == Ok(resolved)
        ensures FragmentTarget(resolved, NewRef(c)) == Some(Rewritten(components, components[c]))
      {
        DefsHold(components, schema, resolved, c);
      }
    }
  }

  /** ... and where it is lost the meaning is: a schema that bundles well, and one
      step down the result leads nowhere. */
  lemma LostNameChangesMeaning(c: string)
    requires !PlainName(c)
    ensures
      var components, root := map[c := Null], Obj(OnlyRef(c));
      && AllRefsAccepted(components, root)
      && WithDefs(Rewritten(components, root).fields, Bundle(components, root)) == Ok(OnlyRefResolved(c))
    ensures Unfold(1, ByName(map[c := Null]), Obj(OnlyRef(c) - {DEFS})) !=
            Unfold(1, ByFragment(OnlyRefResolved(c)), Obj(OnlyRefResolved(c).fields - {DEFS}))
  {
    OnlyRefReaches(c);
    OnlyRefAccepted(c);
    OnlyRefResolves(c);
    NameLost(c);
    OneStep(ByName(map[c := Null]), OnlyRef(c) - {DEFS});
    OneStep(ByFragment(OnlyRefResolved(c)), OnlyRefResolved(c).fields - {DEFS});
  }

  lemma OneStep(follow: Json -> Option<Json>, fields: map<string, Json>)
    requires REF in fields
    ensures var t := Unfold(1, follow, Obj(fields));
            t.Record? && REF in t.fields &&
            t.fields[REF] == match follow(fields[REF]) case None => Broken case Some(j) => Followed(Unfold(0, follow, j))
  {
    assert Unfold(1, follow, Obj(fields)).fields[REF] == UnfoldField(1, follow, REF, fields[REF]);
  }

  // ------------------------------------------------------- read by the standard

  /** What follows the fixed prefix of a component reference is one name. */
  predicate OneToken(child: Json)
  {
    child.Str? && HasPrefix(child.s, COMPONENT_PREFIX) && OneName(child.s[|COMPONENT_PREFIX|..])
  }

  lemma ComponentFront()
    ensures COMPONENT_PREFIX == "#" + PointerOf(["components", "schemas"]) + "/"
    ensures AllFragmentChars(PointerOf(["components", "schemas"]))
  {
    TwoTokenFront("components", "schemas");
  }

  lemma PlainPair(a: string, b: string)
    requires '~' !in a && '/' !in a && '~' !in b && '/' !in b
    ensures PointerOf([a, b]) == "/" + a + "/" + b
  {
    EscapePlain(a);
    EscapePlain(b);
    PointerOfTwo(a, b);
  }

  lemma PrefixParts(a: string, b: string)
    requires a == "components" && b == "schemas"
    ensures '~' !in a && '/' !in a && '~' !in b && '/' !in b
    ensures COMPONENT_PREFIX == "#" + ("/" + a + "/" + b) + "/" && AllFragmentChars("/" + a + "/" + b)
  {
  }

  lemma TwoTokenFront(a: string, b: string)
    requires a == "components" && b == "schemas"
    ensures COMPONENT_PREFIX == "#" + PointerOf([a, b]) + "/"
    ensures AllFragmentChars(PointerOf([a, b]))
  {
    PrefixParts(a, b);
    PlainPair(a, b);
  }

  /** A component reference is read as `components`, `schemas`, and the name the
      code looks up, if and only if the name part holds no slash, tildes only before
      `0` and `1`, and otherwise only what a fragment may hold as it is. With a
      slash the standard goes on inside the component, with a percent triplet it
      decodes, with anything else it finds no pointer; the code does none of this. */
  lemma ComponentPointerTokens(child: Json)
    requires child.Str? && HasPrefix(child.s, COMPONENT_PREFIX)
    ensures OneToken(child) <==>
            FragmentTokens(child.s) == Tokens(["components", "schemas", Unescape(child.s[|COMPONENT_PREFIX|..])])
  {
    var suffix := child.s[|COMPONENT_PREFIX|..];
    var front := ["components", "schemas"];
    assert child.s == COMPONENT_PREFIX + suffix;
    ComponentFront();
    OneNameIff(front, suffix);
    assert front + [Unescape(suffix)] == ["components", "schemas", Unescape(suffix)];
  }

  lemma WalkToComponent(document: map<string, Json>, components: map<string, Json>, name: string)
    requires ComponentsOf(document) == Ok(components) && name in components
    ensures Walk(Obj(document), ["components", "schemas", name]) == Some(components[name])
  {
    var holder := document["components"];
    assert ["components", "schemas", name][1..] == ["schemas", name];
    WalkTwo(holder, "schemas", name);
  }

  /** For such references the two readings agree. */
  lemma ReadingsAgree(document: map<string, Json>, components: map<string, Json>, child: Json)
    requires ComponentsOf(document) == Ok(components)
    requires RefTarget(components, child).Component? && OneToken(child)
    ensures NameTarget(components, child) == FragmentTarget(Obj(document), child)
  {
    ComponentPointerTokens(child);
    WalkToComponent(document, components, RefTarget(components, child).name);
  }

  /** Every reference met from the root names its component in one token. */
  ghost predicate OneTokenRefs(components: map<string, Json>, root: Json)
  {
    && (forall v {:trigger v in RefValues(root)} :: v in RefValues(root) ==> OneToken(v))
    && (forall c {:trigger Reachable(components, root, c)} :: c in components && Reachable(components, root, c) ==>
          forall v {:trigger v in RefValues(components[c])} :: v in RefValues(components[c]) ==> OneToken(v))
  }

  /** Both readings of a document unfold `j` alike. */
  ghost predicate ReadAlike(n: nat, components: map<string, Json>, doc: Json, j: Json)
  {
    Unfold(n, ByName(components), j) == Unfold(n, ByFragment(doc), j)
  }

  ghost predicate ReadAlikeBelow(n: nat, components: map<string, Json>, root: Json, doc: Json)
  {
    n > 0 ==>
      forall c {:trigger Reachable(components, root, c)} :: c in components && Reachable(components, root, c) ==>
        ReadAlike(n - 1, components, doc, components[c])
  }

  lemma {:induction false} UnfoldsAsRead(n: nat, document: map<string, Json>, components: map<string, Json>,
                                         root: Json, j: Json)
    requires ComponentsOf(document) == Ok(components)
    requires ReadAlikeBelow(n, components, root, Obj(document))
    requires Inside(components, root, j)
    requires forall v {:trigger v in RefValues(j)} :: v in RefValues(j) ==> OneToken(v)
    ensures ReadAlike(n, components, Obj(document), j)
    decreases j
  {
    match j
    case Arr(items) =>
      forall i | 0 <= i < |items|
        ensures ReadAlike(n, components, Obj(document), items[i])
      {
        assert RefValues(items[i]) <= RefValues(j);
        UnfoldsAsRead(n, document, components, root, items[i]);
      }
    case Obj(fields) =>
      forall k | k in fields
        ensures UnfoldField(n, ByName(components), k, fields[k]) ==
                UnfoldField(n, ByFragment(Obj(document)), k, fields[k])
      {
        FieldValues(j, k);
        if k != REF {
          UnfoldsAsRead(n, document, components, root, fields[k]);
        } else if n > 0 {
          ReadingsAgree(document, components, fields[k]);
          ReadSteps(n, components, Obj(document), fields[k], components[RefTarget(components, fields[k]).name]);
        }
      }
    case _ =>
  }

  lemma ReadSteps(n: nat, components: map<string, Json>, doc: Json, child: Json, j: Json)
    requires n > 0 && ReadAlike(n - 1, components, doc, j)
    requires NameTarget(components, child) == FragmentTarget(doc, child) == Some(j)
    ensures UnfoldField(n, ByName(components), REF, child) == UnfoldField(n, ByFragment(doc), REF, child)
  {
  }

  lemma {:induction false} ComponentsUnfoldAsRead(n: nat, document: map<string, Json>, components: map<string, Json>,
                                                  root: Json)
    requires ComponentsOf(document) == Ok(components)
    requires AllRefsAccepted(components, root) && OneTokenRefs(components, root)
    ensures ReadAlikeBelow(n, components, root, Obj(document))
  {
    if n > 0 {
      ComponentsUnfoldAsRead(n - 1, document, components, root);
      forall c | c in components && Reachable(components, root, c)
        ensures ReadAlike(n - 1, components, Obj(document), components[c])
      {
        ComponentInside(components, root, c);
        UnfoldsAsRead(n - 1, document, components, root, components[c]);
      }
    }
  }

  /** A name referred to in one token is one that a fragment may hold. */
  lemma LinkedNamePlain(components: map<string, Json>, j: Json, name: string)
    requires Links(components, j, name)
    requires forall v {:trigger v in RefValues(j)} :: v in RefValues(j) ==> OneToken(v)
    ensures PlainName(name)
  {
    var v :| v in RefValues(j) && RefTarget(components, v) == Component(name);
    UnescapedPlain(v.s[|COMPONENT_PREFIX|..]);
  }

  lemma NamesArePlain(components: map<string, Json>, root: Json)
    requires OneTokenRefs(components, root)
    ensures PlainNames(components, root)
  {
    forall c {:trigger Reachable(components, root, c)} | c in components && Reachable(components, root, c)
      ensures PlainName(c)
    {
      var path :| RefPath(components, root, path) && path[|path| - 1] == c;
      if |path| == 1 {
        LinkedNamePlain(components, root, c);
      } else {
        var d := path[|path| - 2];
        assert RefPath(components, root, path[..|path| - 1]);
        assert Reachable(components, root, d);
        assert Links(components, components[path[|path| - 2]], path[|path| - 2 + 1]);
        LinkedNamePlain(components, components[d], c);
      }
    }
  }

  /** The theorem as the standard reads both documents. It needs the names that
      OpenAPI prescribes: see `SlashChangesMeaning`, `PercentChangesMeaning` and
      `TildeChangesMeaning`. */
  lemma MeaningPreservedAsRead(n: nat, document: map<string, Json>, components: map<string, Json>,
                               schema: map<string, Json>, resolved: Json)
    requires ComponentsOf(document) == Ok(components)
    requires AllRefsAccepted(components, Obj(schema)) && OneTokenRefs(components, Obj(schema))
    requires WithDefs(Rewritten(components, Obj(schema)).fields, Bundle(components, Obj(schema))) == Ok(resolved)
    ensures resolved.Obj?
    ensures Unfold(n, ByFragment(Obj(document)), Obj(schema - {DEFS})) ==
            Unfold(n, ByFragment(resolved), Obj(resolved.fields - {DEFS}))
  {
    var root, part := Obj(schema), Obj(schema - {DEFS});
    NamesArePlain(components, root);
    MeaningPreserved(n, components, schema, resolved);
    RootInside(components, root);
    assert RefValues(part) <= RefValues(root);
    ComponentsUnfoldAsRead(n, document, components, root);
    UnfoldsAsRead(n, document, components, root, part);
  }

  /** A document that has both a component `a/b` and a component `a` with a
      member `b`. */
  function SlashComponents(): map<string, Json>
  {
    map["a" := Obj(map["b" := Str("inner")]), "a/b" := Str("whole")]
  }

  function SlashDocument(): map<string, Json>
  {
    DocumentOf(SlashComponents())
  }

  const SLASH_REF := Str(COMPONENT_PREFIX + "a/b")

  lemma ComponentRefTarget(components: map<string, Json>, suffix: string)
    ensures RefTarget(components, Str(COMPONENT_PREFIX + suffix)) ==
            if Unescape(suffix) in components then Component(Unescape(suffix)) else Refused(DanglingRef)
  {
    var s := COMPONENT_PREFIX + suffix;
    assert s[..2] == COMPONENT_PREFIX[..2] == "#/";
    assert s[..|COMPONENT_PREFIX|] == COMPONENT_PREFIX && s[|COMPONENT_PREFIX|..] == suffix;
  }

  function DocumentOf(components: map<string, Json>): map<string, Json>
  {
    map["components" := Obj(map["schemas" := Obj(components)])]
  }

  /** One document in which a reference that is no single token is misread: the
      code finds the component, the standard does not. */
  lemma Misread(child: Json)
    requires child.Str? && HasPrefix(child.s, COMPONENT_PREFIX) && !OneToken(child)
    ensures
      var components := map[Unescape(child.s[|COMPONENT_PREFIX|..]) := Null];
      NameTarget(components, child) == Some(Null) && FragmentTarget(Obj(DocumentOf(components)), child) == None
  {
    var suffix := child.s[|COMPONENT_PREFIX|..];
    var components := map[Unescape(suffix) := Null];
    assert child.s == COMPONENT_PREFIX + suffix;
    ComponentRefTarget(components, suffix);
    ComponentFront();
    if FragmentTokens(child.s).Tokens? {
      var tail := OtherTokens(["components", "schemas"], suffix);
      WalkIntoNull(Unescape(suffix), tail);
      WalkToComponents(components, tail);
    }
  }

  lemma WalkToComponents(components: map<string, Json>, tail: seq<string>)
    ensures Walk(Obj(DocumentOf(components)), ["components", "schemas"] + tail) == Walk(Obj(components), tail)
  {
    var path := ["components", "schemas"] + tail;
    var holder := Obj(map["schemas" := Obj(components)]);
    assert path[1..] == ["schemas"] + tail && path[1..][1..] == tail;
    assert Walk(Obj(DocumentOf(components)), path) == Walk(holder, path[1..]);
  }

  /** Exactly when the two readings of a component reference can be trusted to
      agree, whatever the document: when its name part is one token by the
      standard, as `OneName` spells out. */
  lemma ReadingsAgreeIff(child: Json)
    requires child.Str? && HasPrefix(child.s, COMPONENT_PREFIX)
    ensures OneToken(child) <==>
            forall document, components {:trigger ComponentsOf(document), RefTarget(components, child)} ::
              ComponentsOf(document) == Ok(components) && RefTarget(components, child).Component? ==>
              NameTarget(components, child) == FragmentTarget(Obj(document), child)
  {
    if OneToken(child) {
      forall document, components | ComponentsOf(document) == Ok(components) && RefTarget(components, child).Component?
        ensures NameTarget(components, child) == FragmentTarget(Obj(document), child)
      {
        ReadingsAgree(document, components, child);
      }
    } else {
      var components := map[Unescape(child.s[|COMPONENT_PREFIX|..]) := Null];
      Misread(child);
      assert ComponentsOf(DocumentOf(components)) == Ok(components);
      assert RefTarget(components, child).Component?;
    }
  }

  /** A slash in the name part changes the meaning: the standard reads `a/b` as
      member `b` of component `a`, the code as the component called `a/b`. */
  lemma SlashChangesMeaning()
    ensures ComponentsOf(SlashDocument()) == Ok(SlashComponents())
    ensures NameTarget(SlashComponents(), SLASH_REF) == Some(Str("whole"))
    ensures FragmentTarget(Obj(SlashDocument()), SLASH_REF) == Some(Str("inner"))
  {
    SlashReads("components", "schemas", "a/b");
    UnescapePlain("a/b");
    ComponentRefTarget(SlashComponents(), "a/b");
    WalkToComponents(SlashComponents(), ["a", "b"]);
    WalkTwo(Obj(SlashComponents()), "a", "b");
  }

  lemma SlashReads(a: string, b: string, suffix: string)
    requires a == "components" && b == "schemas" && suffix == "a/b"
    ensures FragmentTokens(COMPONENT_PREFIX + suffix) == Tokens([a, b] + ["a", "b"])
  {
    TwoTokenFront(a, b);
    SlashParts(suffix);
    FragmentReads([a, b], suffix, ["a", "b"]);
  }

  lemma SlashParts(suffix: string)
    requires suffix == "a/b"
    ensures AllFragmentChars(suffix) && ParsePointer("/" + suffix) == Tokens(["a", "b"])
  {
    SplitWhole("b", '/');
    SplitCons("a", "b", '/');
    assert "a" + ['/'] + "b" == suffix && ("/" + suffix)[1..] == suffix;
    UnescapePlain("a");
    UnescapePlain("b");
    PlainWell("a");
    PlainWell("b");
    assert ["a", "b"][1..] == ["b"] && ["b"][1..] == [];
  }

  /** What the code finds and the standard does not, given that the rest of the
      reference is the name as it is. */
  lemma PlainlyMisread(suffix: string)
    requires Unescape(suffix) == suffix && !OneName(suffix)
    ensures NameTarget(map[suffix := Null], Str(COMPONENT_PREFIX + suffix)) == Some(Null)
    ensures FragmentTarget(Obj(DocumentOf(map[suffix := Null])), Str(COMPONENT_PREFIX + suffix)) == None
  {
    var child := Str(COMPONENT_PREFIX + suffix);
    assert child.s[..|COMPONENT_PREFIX|] == COMPONENT_PREFIX && child.s[|COMPONENT_PREFIX|..] == suffix;
    Misread(child);
  }

  /** So does a percent triplet, on both sides: the standard reads `%62` as `b`.
      It finds nothing in a document whose one component is called `%62`, and
      nothing in what that document bundles to, where the code has written
      `openapi__%62`. */
  lemma PercentChangesMeaning()
    ensures NameTarget(map["%62" := Null], Str(COMPONENT_PREFIX + "%62")) == Some(Null)
    ensures FragmentTarget(Obj(DocumentOf(map["%62" := Null])), Str(COMPONENT_PREFIX + "%62")) == None
    ensures
      var components, root := map["%62" := Null], Obj(OnlyRef("%62"));
      && AllRefsAccepted(components, root)
      && WithDefs(Rewritten(components, root).fields, Bundle(components, root)) == Ok(OnlyRefResolved("%62"))
      && FragmentTarget(OnlyRefResolved("%62"), NewRef("%62")) == None
  {
    var c := "%62";
    assert c[0] in c;
    PercentNameMisread(c);
  }

  lemma PercentNameMisread(c: string)
    requires '%' in c && '~' !in c
    ensures NameTarget(map[c := Null], Str(COMPONENT_PREFIX + c)) == Some(Null)
    ensures FragmentTarget(Obj(DocumentOf(map[c := Null])), Str(COMPONENT_PREFIX + c)) == None
    ensures
      var components, root := map[c := Null], Obj(OnlyRef(c));
      && AllRefsAccepted(components, root)
      && WithDefs(Rewritten(components, root).fields, Bundle(components, root)) == Ok(OnlyRefResolved(c))
      && FragmentTarget(OnlyRefResolved(c), NewRef(c)) == None
  {
    UnescapePlain(c);
    PlainlyMisread(c);
    LostNameChangesMeaning(c);
    NameLost(c);
  }

  /** A stray tilde is an error to the standard and itself to the code, which
      finds the component `a~b` and writes a pointer that is well escaped. */
  lemma TildeChangesMeaning()
    ensures NameTarget(map["a~b" := Null], Str(COMPONENT_PREFIX + "a~b")) == Some(Null)
    ensures FragmentTarget(Obj(DocumentOf(map["a~b" := Null])), Str(COMPONENT_PREFIX + "a~b")) == None
    ensures FragmentTokens(NewRef("a~b").s) == Tokens([DEFS, SafeName("a~b")])
  {
    TildeStays("a~b");
    PlainlyMisread("a~b");
    NewRefReads("a~b");
  }

  lemma TildeStays(s: string)
    requires s == "a~b"
    ensures Unescape(s) == s && !WellEscaped(s) && PlainName(s)
  {
    assert s[..2] == "a~" && s[1..][..2] == "~b" && s[1..][1..] == s[2..] == "b";
    StrayTildeStays(s, "~1", "/");
    StrayTildeStays(s, "~0", "~");
  }

  lemma StrayTildeStays(s: string, pat: string, rep: string)
    requires |s| == 3 && |pat| == 2 && s[..2] != pat && s[1..] != pat
    ensures ReplaceAll(s, pat, rep) == s
  {
    assert s[1..][..2] == s[1..] && s[1..][1..] == s[2..];
    assert ReplaceAll(s[2..], pat, rep) == s[2..];
    assert ReplaceAll(s[1..], pat, rep) == [s[1]] + s[2..] == s[1..];
  }

  /** A name with a space has no fragment to hold it: the reference the code
      writes for it is none to the standard. */
  lemma SpaceIsLost()
    ensures FragmentTokens(NewRef("a b").s) == NotAPointer
    ensures FragmentTarget(OnlyRefResolved("a b"), NewRef("a b")) == None
  {
    SpacedNameIsLost("a b");
  }

  lemma SpacedNameIsLost(c: string)
    requires ' ' in c && '%' !in c && '~' !in c && '/' !in c
    ensures FragmentTokens(NewRef(c).s) == NotAPointer
    ensures FragmentTarget(OnlyRefResolved(c), NewRef(c)) == None
  {
    NewRefFront(c);
    FragmentGoesOn([DEFS], Escape(SafeName(c)));
    SpaceStays(c);
    NameLost(c);
  }

  lemma SafeNameHolds(c: string, ch: char)
    ensures ch in SafeName(c) <==> ch in "openapi__" || ch in c
  {
  }

  lemma SpaceStays(c: string)
    requires ' ' in c && '%' !in c && '~' !in c && '/' !in c
    ensures !PlainName(c) && !WellFormed(Escape(SafeName(c)))
  {
    var name := SafeName(c);
    SafeNameHolds(c, '~');
    SafeNameHolds(c, '/');
    SafeNameHolds(c, '%');
    SafeNameHolds(c, ' ');
    EscapePlain(name);
    NoPercentNoTriplet(name);
    PlainWellFormed(name);
  }

  // --------------------------------------------------------------------- closed

  /** References of the final document come from the rewritten schema or from
      the bundled entries. */
  lemma DefsRefs(rewritten: map<string, Json>, bundle: map<string, Json>, resolved: Json, v: Json)
    requires WithDefs(rewritten, bundle) == Ok(resolved)
    requires REF !in bundle
    requires v in RefValues(resolved)
    ensures v in RefValues(Obj(rewritten)) || exists key :: key in bundle && v in RefValues(bundle[key])
  {
    if resolved.fields != rewritten && v !in RefValues(Obj(rewritten)) {
      var existing := if DEFS in rewritten then rewritten[DEFS] else Obj(map[]);
      var defs := Obj(existing.fields + bundle);
      assert resolved.fields == rewritten[DEFS := defs];
      UpdateRefs(rewritten, defs, v);
      if DEFS in rewritten { FieldValues(Obj(rewritten), DEFS); }
      SpreadRefs(existing.fields, bundle, v);
    }
  }

  lemma UpdateRefs(fields: map<string, Json>, defs: Json, v: Json)
    requires v in RefValues(Obj(fields[DEFS := defs])) && v !in RefValues(Obj(fields))
    ensures v in RefValues(defs)
  {
  }

  /** References of `{**existing, **bundle}` come from one of the two. */
  lemma SpreadRefs(existing: map<string, Json>, bundle: map<string, Json>, v: Json)
    requires v in RefValues(Obj(existing + bundle)) && v !in RefValues(Obj(existing))
    requires REF !in bundle
    ensures exists key :: key in bundle && v in RefValues(bundle[key])
  {
  }

  lemma BundleKeysAreSafe(components: map<string, Json>, root: Json)
    ensures REF !in Bundle(components, root)
  {
  }

  /** Every reference left anywhere in the result, its `$defs` included, is a
      pointer to the rewritten form of a component the schema reaches. */
  lemma BundleClosed(components: map<string, Json>, schema: map<string, Json>, resolved: Json, v: Json)
    requires AllRefsAccepted(components, Obj(schema))
    requires WithDefs(Rewritten(components, Obj(schema)).fields, Bundle(components, Obj(schema))) == Ok(resolved)
    requires v in RefValues(resolved)
    ensures exists c :: c in components && Reachable(components, Obj(schema), c) && v == NewRef(c) &&
              PointerTarget(resolved, v) == Some(Rewritten(components, components[c])) &&
              (PlainName(c) ==> FragmentTarget(resolved, v) == Some(Rewritten(components, components[c])))
  {
    var root := Obj(schema);
    BundleKeysAreSafe(components, root);
    DefsRefs(Rewritten(components, root).fields, Bundle(components, root), resolved, v);
    var u: Json;
    if v in RefValues(Rewritten(components, root)) {
      RewrittenRefs(components, root, v);
      u :| u in RefValues(root) && v == RewrittenRef(components, u);
      RootInside(components, root);
    } else {
      var key :| key in Bundle(components, root) && v in RefValues(Bundle(components, root)[key]);
      var d :| d in components && Reachable(components, root, d) && SafeName(d) == key;
      BundleEntries(components, root, d);
      RewrittenRefs(components, components[d], v);
      u :| u in RefValues(components[d]) && v == RewrittenRef(components, u);
      ComponentInside(components, root, d);
    }
    var c := RefTarget(components, u).name;
    DefsHold(components, schema, resolved, c);
  }

  // --------------------------------------------------- what is no schema reference

  lemma NewRefIsNew(components: map<string, Json>, v: Json)
    ensures RewrittenRef(components, v) == v <==> RefTarget(components, v).Refused?
  {
    if RefTarget(components, v).Component? {
      assert v.s[..|COMPONENT_PREFIX|][2] == 'c' && RewrittenRef(components, v).s[2] == '$';
    }
  }

  /** The code takes every `$ref` key for a reference, also inside a `const`, an
      `enum`, a `default` or an `examples`, where it is data. A value is left as it
      is if and only if none of its `$ref` keys names a component. */
  lemma {:induction false} KeptAsIsIff(components: map<string, Json>, j: Json)
    ensures Rewritten(components, j) == j <==> forall v :: v in RefValues(j) ==> RefTarget(components, v).Refused?
  {
    match j
    case Arr(items) =>
      forall i | 0 <= i < |items|
        ensures Rewritten(components, items[i]) == items[i] <==>
                forall v :: v in RefValues(items[i]) ==> RefTarget(components, v).Refused?
      {
        KeptAsIsIff(components, items[i]);
      }
      ItemsKept(components, items);
    case Obj(fields) =>
      forall k | k in fields
        ensures RewrittenField(components, k, fields[k]) == fields[k] <==> FieldKept(components, k, fields[k])
      {
        if k == REF { NewRefIsNew(components, fields[k]); } else { KeptAsIsIff(components, fields[k]); }
      }
      FieldsKept(components, fields);
    case _ =>
  }

  ghost predicate FieldKept(components: map<string, Json>, key: string, child: Json)
  {
    if key == REF then RefTarget(components, child).Refused?
    else forall v :: v in RefValues(child) ==> RefTarget(components, v).Refused?
  }

  lemma ItemsKept(components: map<string, Json>, items: seq<Json>)
    ensures Rewritten(components, Arr(items)) == Arr(items) <==>
            forall i :: 0 <= i < |items| ==> Rewritten(components, items[i]) == items[i]
    ensures (forall v :: v in RefValues(Arr(items)) ==> RefTarget(components, v).Refused?) <==>
            forall i :: 0 <= i < |items| ==> forall v :: v in RefValues(items[i]) ==> RefTarget(components, v).Refused?
  {
    var r := Rewritten(components, Arr(items)).items;
    assert r == items <==> forall i :: 0 <= i < |items| ==> r[i] == items[i];
  }

  lemma FieldsKept(components: map<string, Json>, fields: map<string, Json>)
    ensures Rewritten(components, Obj(fields)) == Obj(fields) <==>
            forall k :: k in fields ==> RewrittenField(components, k, fields[k]) == fields[k]
    ensures (forall v :: v in RefValues(Obj(fields)) ==> RefTarget(components, v).Refused?) <==>
            forall k :: k in fields ==> FieldKept(components, k, fields[k])
  {
    var r := Rewritten(components, Obj(fields)).fields;
    assert r.Keys == fields.Keys;
    assert r == fields <==> forall k :: k in fields ==> r[k] == fields[k];
  }

  lemma OnlyMember(key: string, j: Json)
    requires key != REF
    ensures RefValues(Obj(map[key := j])) == RefValues(j)
  {
    var whole := Obj(map[key := j]);
    FieldValues(whole, key);
    forall v | v in RefValues(whole) ensures v in RefValues(j) {
      var k :| k in whole.fields && k != REF && v in RefValues(whole.fields[k]);
    }
  }

  /** A `const` that happens to be an object with a `$ref`: accepted, and it admits
      another instance afterwards. */
  lemma ConstIsRewritten(c: string)
    ensures
      var components, schema := map[c := Null], Obj(map["const" := Obj(OnlyRef(c))]);
      && AllRefsAccepted(components, schema)
      && Rewritten(components, schema) == Obj(map["const" := Obj(map[REF := NewRef(c)])])
      && OnlyRef(c) != map[REF := NewRef(c)]
  {
    ConstIsAccepted(c);
    OnlyRefReaches(c);
    OnlyRefRewritten(c);
    MemberRewritten(map[c := Null], "const", Obj(OnlyRef(c)));
    NewRefIsNew(map[c := Null], OnlyRef(c)[REF]);
    assert map[REF := NewRef(c)][REF] == NewRef(c);
  }

  lemma MemberRewritten(components: map<string, Json>, key: string, j: Json)
    requires key != REF
    ensures Rewritten(components, Obj(map[key := j])) == Obj(map[key := Rewritten(components, j)])
  {
    assert Rewritten(components, Obj(map[key := j])).fields == map[key := Rewritten(components, j)];
  }

  lemma ConstIsAccepted(c: string)
    ensures AllRefsAccepted(map[c := Null], Obj(map["const" := Obj(OnlyRef(c))]))
  {
    OnlyRefReaches(c);
    OnlyMember("const", Obj(OnlyRef(c)));
    assert RefValues(Null) == {};
  }

  /** ... and a property that is called `$ref` is refused as an external reference. */
  lemma PropertyCalledRefIsRefused(components: map<string, Json>, declared: map<string, Json>)
    ensures RefusedIn(components, Obj(map["properties" := Obj(map[REF := Obj(declared)])]), ExternalRef)
  {
    var inner := Obj(map[REF := Obj(declared)]);
    assert Obj(declared) in RefValues(inner);
    OnlyMember("properties", inner);
  }
}
