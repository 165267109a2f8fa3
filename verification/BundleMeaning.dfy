/** What bundling promises: the result is closed, carries exactly the components
    it needs, and unfolds to the same schema as the original document. */
module BundleMeaning {
  import opened JsonValues
  import opened Pointers
  import opened Bundler
  import opened Fragments

  // ------------------------------------------------------------ the whole call

  datatype Failure =
    | NoRequestSchema
    | SchemaNotObject
    | ComponentsNotObject
    | DefsNotObject
    | RefRefused(ref: RefError)
    | Uncaught   // AttributeError or TypeError: not turned into a contract error

  // The JSON media type, or failing that (absent or falsy) the `+json` range.
  function MediaOf(content: map<string, Json>): Json
  {
    match Get(content, "application/json")
    case Some(media) => if Truthy(media) then media else OrNull(Get(content, "application/*+json"))
    case None => OrNull(Get(content, "application/*+json"))
  }

  function OrNull(o: Option<Json>): Json
  {
    if o.Some? then o.value else Null
  }

  /** The request schema of one operation; `verb` is the lower-cased method. The
      caller catches the KeyError or TypeError of a subscript that fails. */
  function RequestSchema(document: map<string, Json>, verb: string, path: string): Result<map<string, Json>, Failure>
  {
    match Member(Obj(document), ["paths", path, verb, "requestBody", "content"])
    case None => Err(NoRequestSchema)
    case Some(content) =>
      if !content.Obj? then Err(Uncaught)
      else match Member(MediaOf(content.fields), ["schema"])
        case None => Err(NoRequestSchema)
        case Some(schema) => if schema.Obj? then Ok(schema.fields) else Err(SchemaNotObject)
  }

  /** `document.get("components", {}).get("schemas", {})` */
  function ComponentsOf(document: map<string, Json>): Result<map<string, Json>, Failure>
  {
    match Get(document, "components")
    case None => Ok(map[])
    case Some(holder) =>
      if !holder.Obj? then Err(Uncaught)
      else match Get(holder.fields, "schemas")
        case None => Ok(map[])
        case Some(schemas) => if schemas.Obj? then Ok(schemas.fields) else Err(ComponentsNotObject)
  }

  /** The bundled entries: one for each component the schema reaches. */
  ghost function Bundle(components: map<string, Json>, schema: Json): map<string, Json>
  {
    map key | key in (set c | c in components && Reachable(components, schema, c) :: SafeName(c)) ::
      Rewritten(components, components[key[9..]])
  }

  lemma BundleEntries(components: map<string, Json>, schema: Json, c: string)
    ensures SafeName(c) in Bundle(components, schema) <==> c in components && Reachable(components, schema, c)
    ensures SafeName(c) in Bundle(components, schema) ==>
              Bundle(components, schema)[SafeName(c)] == Rewritten(components, components[c])
  {
    assert SafeName(c)[9..] == c;
    if SafeName(c) in Bundle(components, schema) {
      var d :| d in components && Reachable(components, schema, d) && SafeName(d) == SafeName(c);
      SafeNameInjective(c, d);
    }
  }

  /** The last step: the rewritten schema with its `$defs`. A falsy `$defs` that
      is not an object passes the guard and then cannot be spread. */
  function WithDefs(resolved: map<string, Json>, bundled: map<string, Json>): Result<Json, Failure>
  {
    var existing := if DEFS in resolved then resolved[DEFS] else Obj(map[]);
    if Truthy(existing) && !existing.Obj? then Err(DefsNotObject)
    else if bundled == map[] then Ok(Obj(resolved))
    else if !existing.Obj? then Err(Uncaught)
    else Ok(Obj(resolved[DEFS := Obj(existing.fields + bundled)]))
  }

  /** The failure no `except` turns into a contract error, seen from the input: a
      `content` or a `components` that is no mapping, or a falsy `$defs` that is
      none where there is a reference to bundle. */
  ghost predicate Uncatchable(document: map<string, Json>, verb: string, path: string)
  {
    var content := Member(Obj(document), ["paths", path, verb, "requestBody", "content"]);
    var schema, components := RequestSchema(document, verb, path), ComponentsOf(document);
    || (content.Some? && !content.value.Obj?)
    || (schema.Ok? && "components" in document && !document["components"].Obj?)
    || (schema.Ok? && components.Ok? && AllRefsAccepted(components.value, Obj(schema.value)) &&
        DefsUnspreadable(schema.value))
  }

  predicate DefsUnspreadable(schema: map<string, Json>)
  {
    RefValues(Obj(schema)) != {} && DEFS in schema && !Truthy(schema[DEFS]) && !schema[DEFS].Obj?
  }

  lemma AnyRefBundles(components: map<string, Json>, schema: map<string, Json>)
    requires AllRefsAccepted(components, Obj(schema))
    ensures Bundle(components, Obj(schema)) != map[] <==> RefValues(Obj(schema)) != {}
  {
    var root := Obj(schema);
    if RefValues(root) != {} {
      var v :| v in RefValues(root);
      match RefTarget(components, v)
      case Refused(e) =>
        assert RefusedSomewhere(components, root, e);
      case Component(c) =>
        LinksReach(components, root, c);
        BundleEntries(components, root, c);
    }
    if Bundle(components, root) != map[] {
      assert Bundle(components, root).Keys != {};
      var key :| key in Bundle(components, root);
      var c :| c in components && Reachable(components, root, c) && SafeName(c) == key;
      ReachNeedsRef(components, root, c);
    }
  }

  lemma ReachNeedsRef(components: map<string, Json>, root: Json, c: string)
    requires Reachable(components, root, c)
    ensures RefValues(root) != {}
  {
    var path :| RefPath(components, root, path) && path[|path| - 1] == c;
    assert Links(components, root, path[0]);
  }

  lemma RewrittenDefs(components: map<string, Json>, schema: map<string, Json>)
    ensures var fields := Rewritten(components, Obj(schema)).fields;
            && (DEFS in fields <==> DEFS in schema)
            && (DEFS in schema ==> fields[DEFS] == Rewritten(components, schema[DEFS]))
  {
    if DEFS in schema { assert RewrittenField(components, DEFS, schema[DEFS]) == Rewritten(components, schema[DEFS]); }
  }

  /** The last step fails uncaught exactly where there is something to bundle and
      a falsy `$defs` to spread it into. */
  lemma DefsUncaughtIff(components: map<string, Json>, schema: map<string, Json>)
    requires AllRefsAccepted(components, Obj(schema))
    ensures WithDefs(Rewritten(components, Obj(schema)).fields, Bundle(components, Obj(schema))) == Err(Uncaught) <==>
            DefsUnspreadable(schema)
  {
    AnyRefBundles(components, schema);
    RewrittenDefs(components, schema);
  }

  method Resolve(components: map<string, Json>, schema: map<string, Json>) returns (r: Result<Json, Failure>)
    ensures AllRefsAccepted(components, Obj(schema)) ==>
              r == WithDefs(Rewritten(components, Obj(schema)).fields, Bundle(components, Obj(schema)))
    ensures !AllRefsAccepted(components, Obj(schema)) ==>
              r.Err? && r.error.RefRefused? && RefusedSomewhere(components, Obj(schema), r.error.ref)
  {
    var root := Obj(schema);
    var rewriter := new Rewriter(components, root);
    forall c | Links(components, root, c) ensures Reachable(components, root, c) {
      LinksReach(components, root, c);
    }
    var resolved := rewriter.Rewrite(root);
    if resolved.Err? {
      assert RefusedSomewhere(components, root, resolved.error);
      return Err(RefRefused(resolved.error));
    }
    CompleteBundle(components, root, rewriter.bundled);
    r := WithDefs(resolved.value.fields, rewriter.bundled);
  }

  method ResolveOpenapiRequestSchema(document: map<string, Json>, verb: string, path: string)
    returns (r: Result<Json, Failure>)
    ensures
      var schema, components := RequestSchema(document, verb, path), ComponentsOf(document);
      if schema.Err? then r == Err(schema.error)
      else if components.Err? then r == Err(components.error)
      else if AllRefsAccepted(components.value, Obj(schema.value)) then
        r == WithDefs(Rewritten(components.value, Obj(schema.value)).fields,
                      Bundle(components.value, Obj(schema.value)))
      else r.Err? && r.error.RefRefused? && RefusedSomewhere(components.value, Obj(schema.value), r.error.ref)
    ensures r == Err(Uncaught) <==> Uncatchable(document, verb, path)
  {
    var schema := RequestSchema(document, verb, path);
    if schema.Err? { return Err(schema.error); }
    var components := ComponentsOf(document);
    if components.Err? { return Err(components.error); }
    r := Resolve(components.value, schema.value);
    if AllRefsAccepted(components.value, Obj(schema.value)) { DefsUncaughtIff(components.value, schema.value); }
  }

  lemma LinkCovered(components: map<string, Json>, keys: set<string>, j: Json, name: string)
    requires Covered(components, keys, j) && Links(components, j, name)
    ensures name in components && SafeName(name) in keys
  {
    var v :| v in RefValues(j) && RefTarget(components, v) == Component(name);
    assert Emitted(components, keys, v);
  }

  lemma CoveredAccepts(components: map<string, Json>, keys: set<string>, j: Json, e: RefError)
    requires Covered(components, keys, j)
    ensures !RefusedIn(components, j, e)
  {
  }

  /** With nothing in progress, a finished component leads only to finished ones. */
  lemma Settled(components: map<string, Json>, root: Json, bundled: map<string, Json>, key: string)
    returns (c: string)
    requires Consistent(components, root, bundled, {}) && key in bundled
    ensures c in components && key == SafeName(c) && Reachable(components, root, c)
    ensures bundled[key] == Rewritten(components, components[c])
    ensures Covered(components, bundled.Keys, components[c])
  {
    assert bundled.Keys + {} == bundled.Keys;
    assert FromReachable(components, root, key);
    c :| c in components && key == SafeName(c) && Reachable(components, root, c);
  }

  lemma ReachedAreBundled(components: map<string, Json>, root: Json, bundled: map<string, Json>, name: string)
    requires Consistent(components, root, bundled, {})
    requires Covered(components, bundled.Keys, root)
    requires Reachable(components, root, name)
    ensures name in components && SafeName(name) in bundled
  {
    var done := set c | c in components && SafeName(c) in bundled;
    forall c | Links(components, root, c) ensures c in done {
      LinkCovered(components, bundled.Keys, root, c);
    }
    forall c, d | c in done && c in components && Links(components, components[c], d) ensures d in done {
      var c' := Settled(components, root, bundled, SafeName(c));
      SafeNameInjective(c, c');
      LinkCovered(components, bundled.Keys, components[c], d);
    }
    ReachLeast(components, root, done, name);
  }

  lemma SameEntries(components: map<string, Json>, root: Json, bundled: map<string, Json>, key: string)
    requires Consistent(components, root, bundled, {})
    requires Covered(components, bundled.Keys, root)
    ensures key in bundled <==> key in Bundle(components, root)
    ensures key in bundled ==> bundled[key] == Bundle(components, root)[key]
  {
    if key in bundled {
      var c := Settled(components, root, bundled, key);
      BundleEntries(components, root, c);
    } else if key in Bundle(components, root) {
      var c :| c in components && Reachable(components, root, c) && SafeName(c) == key;
      ReachedAreBundled(components, root, bundled, c);
    }
  }

  lemma SameMap(a: map<string, Json>, b: map<string, Json>)
    requires forall key :: key in a <==> key in b
    requires forall key :: key in a && key in b ==> a[key] == b[key]
    ensures a == b
  {
  }

  lemma EntriesComplete(components: map<string, Json>, root: Json, bundled: map<string, Json>)
    requires Consistent(components, root, bundled, {})
    requires Covered(components, bundled.Keys, root)
    ensures bundled == Bundle(components, root)
  {
    forall key ensures key in bundled <==> key in Bundle(components, root) {
      SameEntries(components, root, bundled, key);
    }
    forall key | key in bundled && key in Bundle(components, root)
      ensures bundled[key] == Bundle(components, root)[key]
    {
      SameEntries(components, root, bundled, key);
    }
    SameMap(bundled, Bundle(components, root));
  }

  lemma NothingRefused(components: map<string, Json>, root: Json, bundled: map<string, Json>)
    requires Consistent(components, root, bundled, {})
    requires Covered(components, bundled.Keys, root)
    ensures AllRefsAccepted(components, root)
  {
    forall e ensures !RefusedSomewhere(components, root, e) {
      CoveredAccepts(components, bundled.Keys, root, e);
      forall c | c in components && Reachable(components, root, c) ensures !RefusedIn(components, components[c], e) {
        ReachedAreBundled(components, root, bundled, c);
        var c' := Settled(components, root, bundled, SafeName(c));
        SafeNameInjective(c, c');
        CoveredAccepts(components, bundled.Keys, components[c], e);
      }
    }
  }

  /** ... so the finished entries are exactly the reachable components, and no
      reference was refused. */
  lemma CompleteBundle(components: map<string, Json>, root: Json, bundled: map<string, Json>)
    requires Consistent(components, root, bundled, {})
    requires Covered(components, bundled.Keys, root)
    ensures bundled == Bundle(components, root)
    ensures AllRefsAccepted(components, root)
  {
    NothingRefused(components, root, bundled);
    EntriesComplete(components, root, bundled);
  }

  // ------------------------------------------------------------------ closed

  /** After rewriting, the references are the new ones and no others. */
  lemma {:induction false} RewrittenRefs(components: map<string, Json>, j: Json, v: Json)
    requires v in RefValues(Rewritten(components, j))
    ensures exists u :: u in RefValues(j) && v == RewrittenRef(components, u)
    decreases j
  {
    match j
    case Arr(items) =>
      var i :| 0 <= i < |items| && v in RefValues(Rewritten(components, items[i]));
      RewrittenRefs(components, items[i], v);
    case Obj(fields) =>
      if REF in fields && v == RewrittenRef(components, fields[REF]) {
        assert fields[REF] in RefValues(j);
      } else {
        var k :| k in fields && k != REF && v in RefValues(Rewritten(components, fields[k]));
        RewrittenRefs(components, fields[k], v);
      }
    case _ =>
  }

  lemma EscapeDefs()
    ensures Escape(DEFS) == "$defs"
  {
    EscapeByChars(DEFS);
    assert EscapedChars("") == "";
    assert EscapedChars("s") == "s";
    assert EscapedChars("fs") == "fs";
    assert EscapedChars("efs") == "efs";
    assert EscapedChars("defs") == "defs";
    assert EscapedChars("$defs") == "$defs";
  }

  lemma PointerOfTwo(a: string, b: string)
    ensures PointerOf([a, b]) == "/" + Escape(a) + "/" + Escape(b)
  {
    assert [a, b][1..] == [b] && [b][1..] == [];
    assert PointerOf([]) == "";
    assert PointerOf([b]) == "/" + Escape(b) + "";
    assert PointerOf([a, b]) == "/" + Escape(a) + PointerOf([b]);
  }

  /** A new reference as it is written: a pointer into the bundled document. */
  lemma NewRefPointer(c: string)
    ensures NewRef(c).s[0] == '#'
    ensures ParsePointer(NewRef(c).s[1..]) == Tokens([DEFS, SafeName(c)])
  {
    EscapeDefs();
    PointerOfTwo(DEFS, SafeName(c));
    var e := Escape(SafeName(c));
    assert ("#/$defs/" + e)[1..] == "/" + "$defs" + "/" + e;
    PointerRoundTrip([DEFS, SafeName(c)]);
  }

  /** A new reference as the standard reads it: the bundled name if and only if a
      fragment may hold every character of the component name as it is. */
  lemma NewRefReads(c: string)
    ensures FragmentTokens(NewRef(c).s) == Tokens([DEFS, SafeName(c)]) <==> PlainName(c)
  {
    NewRefFront(c);
    OneNameIff([DEFS], Escape(SafeName(c)));
    UnescapeEscape(SafeName(c));
    EscapedOneName(SafeName(c));
    SafeNamePlain(c);
    assert [DEFS] + [SafeName(c)] == [DEFS, SafeName(c)];
  }

  lemma NewRefFront(c: string)
    ensures NewRef(c).s == "#" + PointerOf([DEFS]) + "/" + Escape(SafeName(c))
    ensures AllFragmentChars(PointerOf([DEFS]))
  {
    OneTokenFront(DEFS, Escape(SafeName(c)));
  }

  lemma OneTokenFront(defs: string, rest: string)
    requires defs == "$defs"
    ensures DEFS_PREFIX + rest == "#" + PointerOf([defs]) + "/" + rest
    ensures AllFragmentChars(PointerOf([defs]))
  {
    EscapePlain(defs);
    assert [defs][1..] == [] && PointerOf([]) == "";
    assert PointerOf([defs]) == "/" + defs;
  }

  lemma SafeNamePlain(c: string)
    ensures PlainName(SafeName(c)) <==> PlainName(c)
  {
    var prefix := "openapi__";
    assert SafeName(c) == prefix + c && AllFragmentChars(prefix);
    assert forall ch :: ch in SafeName(c) <==> ch in prefix || ch in c;
  }
}
