/** `resolve_openapi_request_schema`: the request schema of one operation, with
    every `#/components/schemas/X` reference moved to `#/$defs/openapi__X` and
    the components it needs carried along. */
module Bundler {
  import opened JsonValues
  import opened Pointers

  const REF := "$ref"
  const DEFS := "$defs"
  const COMPONENT_PREFIX := "#/components/schemas/"
  const DEFS_PREFIX := "#/$defs/"

  predicate HasPrefix(s: string, prefix: string)
  {
    |prefix| <= |s| && s[..|prefix|] == prefix
  }

  function SafeName(component: string): string
  {
    "openapi__" + component
  }

  lemma SafeNameInjective(a: string, b: string)
    requires SafeName(a) == SafeName(b)
    ensures a == b
  {
    assert a == SafeName(a)[9..] && b == SafeName(b)[9..];
  }

  // ------------------------------------------------------------- references

  datatype RefError = ExternalRef | UnsupportedLocalRef | DanglingRef

  datatype Target = Component(name: string) | Refused(error: RefError)

  /** What `rewrite` takes the value of a `$ref` key to mean. */
  function RefTarget(components: map<string, Json>, child: Json): (t: Target)
    ensures t.Component? ==> child.Str? && t.name in components
  {
    if !child.Str? || !HasPrefix(child.s, "#/") then Refused(ExternalRef)
    else if !HasPrefix(child.s, COMPONENT_PREFIX) then Refused(UnsupportedLocalRef)
    else
      var name := Unescape(child.s[|COMPONENT_PREFIX|..]);
      if name in components then Component(name) else Refused(DanglingRef)
  }

  function NewRef(component: string): Json
  {
    Str(DEFS_PREFIX + Escape(SafeName(component)))
  }

  function RewrittenRef(components: map<string, Json>, child: Json): Json
  {
    match RefTarget(components, child)
    case Component(name) => NewRef(name)
    case Refused(_) => child
  }

  /** The value `rewrite` returns, which does not depend on what has been
      bundled so far. */
  function Rewritten(components: map<string, Json>, j: Json): Json
    decreases j, 0
  {
    match j
    case Arr(items) =>
      Arr(seq(|items|, i requires 0 <= i < |items| => Rewritten(components, items[i])))
    case Obj(fields) =>
      Obj(map k | k in fields :: RewrittenField(components, k, fields[k]))
    case _ => j
  }

  function RewrittenField(components: map<string, Json>, key: string, child: Json): Json
    decreases child, 1
  {
    if key == REF then RewrittenRef(components, child) else Rewritten(components, child)
  }

  /** Every value found under a `$ref` key, at any depth. */
  function RefValues(j: Json): set<Json>
  {
    match j
    case Arr(items) => set i, v | 0 <= i < |items| && v in RefValues(items[i]) :: v
    case Obj(fields) =>
      (if REF in fields then {fields[REF]} else {}) +
      set k, v | k in fields && k != REF && v in RefValues(fields[k]) :: v
    case _ => {}
  }

  // ----------------------------------------------------------- reachability

  /** `j` refers to component `name` directly. */
  ghost predicate Links(components: map<string, Json>, j: Json, name: string)
  {
    exists v :: v in RefValues(j) && RefTarget(components, v) == Component(name)
  }

  /** A walk along references: from the root to `path[0]`, then on. */
  ghost predicate RefPath(components: map<string, Json>, root: Json, path: seq<string>)
  {
    && |path| > 0
    && Links(components, root, path[0])
    && forall i :: 0 <= i < |path| - 1 ==>
         path[i] in components && Links(components, components[path[i]], path[i + 1])
  }

  ghost predicate Reachable(components: map<string, Json>, root: Json, name: string)
  {
    exists path :: RefPath(components, root, path) && path[|path| - 1] == name
  }

  lemma LinksReach(components: map<string, Json>, root: Json, name: string)
    requires Links(components, root, name)
    ensures Reachable(components, root, name)
  {
    assert RefPath(components, root, [name]);
  }

  lemma ReachStep(components: map<string, Json>, root: Json, name: string, next: string)
    requires Reachable(components, root, name) && name in components
    requires Links(components, components[name], next)
    ensures Reachable(components, root, next)
  {
    var path :| RefPath(components, root, path) && path[|path| - 1] == name;
    ExtendPath(components, root, path, next);
  }

  lemma ExtendPath(components: map<string, Json>, root: Json, path: seq<string>, next: string)
    requires RefPath(components, root, path)
    requires path[|path| - 1] in components && Links(components, components[path[|path| - 1]], next)
    ensures Reachable(components, root, next)
  {
    var longer := path + [next];
    assert longer[0] == path[0];
    forall i | 0 <= i < |longer| - 1
      ensures longer[i] in components && Links(components, components[longer[i]], longer[i + 1])
    {
      assert longer[i] == path[i];
      if i + 1 < |path| { assert longer[i + 1] == path[i + 1]; } else { assert longer[i + 1] == next; }
    }
    assert RefPath(components, root, longer) && longer[|longer| - 1] == next;
  }

  /** Reachability is the least closed set: any set that holds the root's links
      and is closed under links holds every reachable component. */
  lemma ReachLeast(components: map<string, Json>, root: Json, s: set<string>, name: string)
    requires forall c :: Links(components, root, c) ==> c in s
    requires forall c, d :: c in s && c in components && Links(components, components[c], d) ==> d in s
    requires Reachable(components, root, name)
    ensures name in s
  {
    var path :| RefPath(components, root, path) && path[|path| - 1] == name;
    for i := 0 to |path|
      invariant forall k :: 0 <= k < i ==> path[k] in s
    {
      if i > 0 {
        assert Links(components, components[path[i - 1]], path[i - 1 + 1]);
      }
    }
  }

  ghost predicate RefusedIn(components: map<string, Json>, j: Json, e: RefError)
  {
    exists v :: v in RefValues(j) && RefTarget(components, v) == Refused(e)
  }

  ghost predicate RefusedBehind(components: map<string, Json>, root: Json, e: RefError)
  {
    exists c :: c in components && Reachable(components, root, c) && RefusedIn(components, components[c], e)
  }

  /** A refused reference in the schema, or in a component it reaches. */
  ghost predicate RefusedSomewhere(components: map<string, Json>, root: Json, e: RefError)
  {
    RefusedIn(components, root, e) || RefusedBehind(components, root, e)
  }

  ghost predicate AllRefsAccepted(components: map<string, Json>, root: Json)
  {
    forall e :: !RefusedSomewhere(components, root, e)
  }

  // --------------------------------------------------------- the rewriting pass

  /** The reference leads to one of `keys`: emitted, or being emitted. */
  ghost predicate Emitted(components: map<string, Json>, keys: set<string>, child: Json)
  {
    var t := RefTarget(components, child);
    t.Component? && SafeName(t.name) in keys
  }

  ghost predicate Covered(components: map<string, Json>, keys: set<string>, j: Json)
  {
    forall v :: v in RefValues(j) ==> Emitted(components, keys, v)
  }

  ghost predicate FromReachable(components: map<string, Json>, root: Json, key: string)
  {
    exists c :: c in components && key == SafeName(c) && Reachable(components, root, c)
  }

  /** What the two shared collections mean between any two steps. */
  ghost predicate Consistent(components: map<string, Json>, root: Json,
                             bundled: map<string, Json>, active: set<string>)
  {
    && bundled.Keys !! active
    && (forall key :: key in bundled.Keys + active ==> FromReachable(components, root, key))
    && (forall c :: c in components && SafeName(c) in bundled ==>
          && bundled[SafeName(c)] == Rewritten(components, components[c])
          && Covered(components, bundled.Keys + active, components[c]))
  }

  lemma TakeUp(components: map<string, Json>, root: Json,
               bundled: map<string, Json>, active: set<string>, name: string)
    requires Consistent(components, root, bundled, active)
    requires name in components && Reachable(components, root, name) && SafeName(name) !in bundled
    ensures Consistent(components, root, bundled, active + {SafeName(name)})
  {
    assert FromReachable(components, root, SafeName(name));
  }

  lemma Finish(components: map<string, Json>, root: Json,
               bundled: map<string, Json>, active: set<string>, name: string)
    requires Consistent(components, root, bundled, active)
    requires name in components && SafeName(name) in active
    requires Covered(components, bundled.Keys + active, components[name])
    ensures Consistent(components, root,
                       bundled[SafeName(name) := Rewritten(components, components[name])], active - {SafeName(name)})
  {
    var safe := SafeName(name);
    var bundled' := bundled[safe := Rewritten(components, components[name])];
    assert bundled'.Keys + (active - {safe}) == bundled.Keys + active;
    forall c | c in components && SafeName(c) in bundled'
      ensures bundled'[SafeName(c)] == Rewritten(components, components[c])
      ensures Covered(components, bundled.Keys + active, components[c])
    {
      if SafeName(c) == safe { SafeNameInjective(c, name); }
    }
  }

  ghost predicate LinksAreReachable(components: map<string, Json>, root: Json, j: Json)
  {
    forall c :: Links(components, j, c) ==> Reachable(components, root, c)
  }

  /** Refused because of a reference in `j`, or in a component the root reaches. */
  ghost predicate Blamed(components: map<string, Json>, root: Json, j: Json, e: RefError)
  {
    RefusedIn(components, j, e) || RefusedBehind(components, root, e)
  }

  lemma PartLinks(components: map<string, Json>, root: Json, part: Json, whole: Json)
    requires RefValues(part) <= RefValues(whole)
    requires LinksAreReachable(components, root, whole)
    ensures LinksAreReachable(components, root, part)
  {
    forall c | Links(components, part, c) ensures Reachable(components, root, c) {
      var v :| v in RefValues(part) && RefTarget(components, v) == Component(c);
      assert v in RefValues(whole);
      assert Links(components, whole, c);
    }
  }

  lemma ComponentLinks(components: map<string, Json>, root: Json, name: string)
    requires name in components && Reachable(components, root, name)
    ensures LinksAreReachable(components, root, components[name])
  {
    forall c | Links(components, components[name], c) ensures Reachable(components, root, c) {
      ReachStep(components, root, name, c);
    }
  }

  ghost predicate FieldCovered(components: map<string, Json>, keys: set<string>, key: string, child: Json)
  {
    if key == REF then Emitted(components, keys, child) else Covered(components, keys, child)
  }

  lemma FieldValues(whole: Json, key: string)
    requires whole.Obj? && key in whole.fields
    ensures key == REF ==> whole.fields[key] in RefValues(whole)
    ensures key != REF ==> RefValues(whole.fields[key]) <= RefValues(whole)
  {
  }

  lemma ItemValues(value: Json, i: nat)
    requires value.Arr? && i < |value.items|
    ensures RefValues(value.items[i]) <= RefValues(value)
  {
  }

  ghost predicate ItemsCovered(components: map<string, Json>, keys: set<string>, items: seq<Json>, n: nat)
    requires n <= |items|
  {
    forall k :: 0 <= k < n ==> Covered(components, keys, items[k])
  }

  lemma StaysCovered(components: map<string, Json>, keys: set<string>, keys': set<string>, j: Json)
    requires Covered(components, keys, j) && keys <= keys'
    ensures Covered(components, keys', j)
  {
  }

  lemma OneMoreCovered(components: map<string, Json>, keys: set<string>, keys': set<string>, items: seq<Json>, n: nat)
    requires n < |items| && ItemsCovered(components, keys, items, n) && keys <= keys'
    requires Covered(components, keys', items[n])
    ensures ItemsCovered(components, keys', items, n + 1)
  {
    forall k | 0 <= k < n ensures Covered(components, keys', items[k]) {
      StaysCovered(components, keys, keys', items[k]);
    }
  }

  lemma ItemsCover(components: map<string, Json>, keys: set<string>, value: Json)
    requires value.Arr? && ItemsCovered(components, keys, value.items, |value.items|)
    ensures Covered(components, keys, value)
  {
  }

  ghost predicate ItemsDone(components: map<string, Json>, items: seq<Json>, result: seq<Json>, n: nat)
    requires n <= |items|
  {
    |result| == n && forall k :: 0 <= k < n ==> result[k] == Rewritten(components, items[k])
  }

  lemma OneMoreDone(components: map<string, Json>, items: seq<Json>, result: seq<Json>, item: Json)
    requires |result| < |items| && ItemsDone(components, items, result, |result|)
    requires item == Rewritten(components, items[|result|])
    ensures ItemsDone(components, items, result + [item], |result| + 1)
  {
  }

  lemma ItemsRewritten(components: map<string, Json>, value: Json, result: seq<Json>)
    requires value.Arr? && ItemsDone(components, value.items, result, |value.items|)
    ensures Rewritten(components, value) == Arr(result)
  {
    assert Rewritten(components, value).items == result;
  }

  ghost predicate FieldsDone(components: map<string, Json>, fields: map<string, Json>, result: map<string, Json>)
  {
    result.Keys <= fields.Keys && forall k :: k in result ==> result[k] == RewrittenField(components, k, fields[k])
  }

  lemma FieldsRewritten(components: map<string, Json>, value: Json, result: map<string, Json>)
    requires value.Obj? && FieldsDone(components, value.fields, result) && result.Keys == value.fields.Keys
    ensures Rewritten(components, value) == Obj(result)
  {
    assert Rewritten(components, value).fields == result;
  }

  ghost predicate FieldsCovered(components: map<string, Json>, keys: set<string>, fields: map<string, Json>,
                                done: set<string>)
    requires done <= fields.Keys
  {
    forall k :: k in done ==> FieldCovered(components, keys, k, fields[k])
  }

  lemma FieldsStayCovered(components: map<string, Json>, keys: set<string>, keys': set<string>,
                          fields: map<string, Json>, done: set<string>)
    requires done <= fields.Keys && FieldsCovered(components, keys, fields, done) && keys <= keys'
    ensures FieldsCovered(components, keys', fields, done)
  {
    forall k | k in done ensures FieldCovered(components, keys', k, fields[k]) {
      if k != REF { StaysCovered(components, keys, keys', fields[k]); }
    }
  }

  lemma FieldsCover(components: map<string, Json>, keys: set<string>, whole: Json)
    requires whole.Obj?
    requires forall k :: k in whole.fields ==> FieldCovered(components, keys, k, whole.fields[k])
    ensures Covered(components, keys, whole)
  {
  }

  ghost function UntouchedBy(components: map<string, Json>, keys: set<string>): set<string>
  {
    set c | c in components && SafeName(c) !in keys
  }

  lemma FewerUntouched(components: map<string, Json>, keys: set<string>, keys': set<string>)
    requires keys <= keys'
    ensures UntouchedBy(components, keys') <= UntouchedBy(components, keys)
  {
  }

  /** Nothing is in progress that was not, and finished entries stay. */
  ghost predicate GrownFrom(bundled: map<string, Json>, active: set<string>,
                            bundled': map<string, Json>, active': set<string>)
  {
    && active' == active && bundled.Keys <= bundled'.Keys
    && (forall key {:trigger bundled[key]} {:trigger bundled'[key]} :: key in bundled ==> bundled'[key] == bundled[key])
  }

  lemma GrownThen(b0: map<string, Json>, a0: set<string>, b1: map<string, Json>, a1: set<string>,
                  b2: map<string, Json>, a2: set<string>)
    requires GrownFrom(b0, a0, b1, a1) && GrownFrom(b1, a1, b2, a2)
    ensures GrownFrom(b0, a0, b2, a2) && b1.Keys + a1 <= b2.Keys + a2
  {
  }

  /** The closure `rewrite` with the two collections it shares. */
  class Rewriter {
    const components: map<string, Json>
    ghost const root: Json
    var bundled: map<string, Json>
    var active: set<string>

    constructor (components: map<string, Json>, root: Json)
      ensures this.components == components && this.root == root
      ensures bundled == map[] && active == {}
      ensures Valid()
    {
      this.components := components;
      this.root := root;
      bundled, active := map[], {};
    }

    ghost predicate Valid()
      reads this
    {
      Consistent(components, root, bundled, active)
    }

    ghost function Emitting(): set<string>
      reads this
    {
      bundled.Keys + active
    }

    /** The components not yet taken up: what makes the recursion end. */
    ghost function Untouched(): set<string>
      reads this
    {
      UntouchedBy(components, bundled.Keys + active)
    }

    /** What one call may do to the shared state: only add finished entries. */
    twostate predicate Grown()
      reads this
    {
      GrownFrom(old(bundled), old(active), bundled, active)
    }

    /** How far a loop has come that began with `b0` finished, `a0` in progress and
        `u0` not taken up. */
    ghost predicate Progress(b0: map<string, Json>, a0: set<string>, u0: set<string>)
      reads this
    {
      Valid() && GrownFrom(b0, a0, bundled, active) && Untouched() <= u0
    }

    method Rewrite(value: Json) returns (r: Result<Json, RefError>)
      requires Valid() && LinksAreReachable(components, root, value)
      modifies this
      ensures r.Ok? ==> Valid() && Grown()
      ensures r.Ok? ==> Covered(components, Emitting(), value) && r.value == Rewritten(components, value)
      ensures r.Err? ==> Blamed(components, root, value, r.error)
      decreases Untouched(), value, 3
    {
      match value
      case Arr(items) => r := RewriteItems(value);
      case Obj(fields) => r := RewriteFields(value);
      case _ => r := Ok(value);
    }

    method RewriteItems(value: Json) returns (r: Result<Json, RefError>)
      requires value.Arr?
      requires Valid() && LinksAreReachable(components, root, value)
      modifies this
      ensures r.Ok? ==> Valid() && Grown()
      ensures r.Ok? ==> Covered(components, Emitting(), value) && r.value == Rewritten(components, value)
      ensures r.Err? ==> Blamed(components, root, value, r.error)
      decreases Untouched(), value, 2
    {
      var items := value.items;
      var result: seq<Json> := [];
      ghost var b0, a0, u0 := bundled, active, Untouched();
      for i := 0 to |items|
        invariant Progress(b0, a0, u0)
        invariant ItemsDone(components, items, result, i)
        invariant ItemsCovered(components, Emitting(), items, i)
      {
        var item := RewriteItem(value, i, b0, a0, u0);
        if item.Err? { return Err(item.error); }
        OneMoreDone(components, items, result, item.value);
        result := result + [item.value];
      }
      ItemsCover(components, Emitting(), value);
      ItemsRewritten(components, value, result);
      r := Ok(Arr(result));
    }

    /** One turn of that loop. */
    method RewriteItem(value: Json, i: nat, ghost b0: map<string, Json>, ghost a0: set<string>, ghost u0: set<string>)
      returns (r: Result<Json, RefError>)
      requires value.Arr? && i < |value.items|
      requires Progress(b0, a0, u0) && LinksAreReachable(components, root, value)
      requires ItemsCovered(components, Emitting(), value.items, i)
      modifies this
      ensures r.Ok? ==> Progress(b0, a0, u0)
      ensures r.Ok? ==> ItemsCovered(components, Emitting(), value.items, i + 1)
      ensures r.Ok? ==> r.value == Rewritten(components, value.items[i])
      ensures r.Err? ==> Blamed(components, root, value, r.error)
      decreases Untouched(), value, 1
    {
      ghost var b1, a1 := bundled, active;
      ItemValues(value, i);
      PartLinks(components, root, value.items[i], value);
      r := Rewrite(value.items[i]);
      if r.Err? { return; }
      GrownThen(b0, a0, b1, a1, bundled, active);
      FewerUntouched(components, b1.Keys + a1, bundled.Keys + active);
      OneMoreCovered(components, b1.Keys + a1, Emitting(), value.items, i);
    }

    method RewriteFields(value: Json) returns (r: Result<Json, RefError>)
      requires value.Obj?
      requires Valid() && LinksAreReachable(components, root, value)
      modifies this
      ensures r.Ok? ==> Valid() && Grown()
      ensures r.Ok? ==> Covered(components, Emitting(), value) && r.value == Rewritten(components, value)
      ensures r.Err? ==> Blamed(components, root, value, r.error)
      decreases Untouched(), value, 2
    {
      var fields := value.fields;
      var result: map<string, Json> := map[];
      var todo := fields.Keys;
      ghost var b0, a0, u0 := bundled, active, Untouched();
      while todo != {}
        invariant todo <= fields.Keys && result.Keys == fields.Keys - todo
        invariant Progress(b0, a0, u0)
        invariant FieldsDone(components, fields, result)
        invariant FieldsCovered(components, Emitting(), fields, result.Keys)
        decreases todo
      {
        var key :| key in todo;   // any iteration order
        var field := NextField(value, key, result.Keys, b0, a0, u0);
        if field.Err? { return Err(field.error); }
        result := result[key := field.value];
        todo := todo - {key};
      }
      FieldsCover(components, Emitting(), value);
      FieldsRewritten(components, value, result);
      r := Ok(Obj(result));
    }

    /** One turn of that loop, with the fields in `done` behind it. */
    method NextField(whole: Json, key: string, ghost done: set<string>, ghost b0: map<string, Json>, ghost a0: set<string>,
                     ghost u0: set<string>) returns (r: Result<Json, RefError>)
      requires whole.Obj? && key in whole.fields && done <= whole.fields.Keys
      requires Progress(b0, a0, u0) && LinksAreReachable(components, root, whole)
      requires FieldsCovered(components, Emitting(), whole.fields, done)
      modifies this
      ensures r.Ok? ==> Progress(b0, a0, u0)
      ensures r.Ok? ==> FieldsCovered(components, Emitting(), whole.fields, done + {key})
      ensures r.Ok? ==> r.value == RewrittenField(components, key, whole.fields[key])
      ensures r.Err? ==> Blamed(components, root, whole, r.error)
      decreases Untouched(), whole, 1
    {
      ghost var b1, a1 := bundled, active;
      r := RewriteField(whole, key);
      if r.Err? { return; }
      GrownThen(b0, a0, b1, a1, bundled, active);
      FewerUntouched(components, b1.Keys + a1, bundled.Keys + active);
      FieldsStayCovered(components, b1.Keys + a1, Emitting(), whole.fields, done);
    }

    method RewriteField(whole: Json, key: string) returns (r: Result<Json, RefError>)
      requires whole.Obj? && key in whole.fields
      requires Valid() && LinksAreReachable(components, root, whole)
      modifies this
      ensures r.Ok? ==> Valid() && Grown()
      ensures r.Ok? ==> r.value == RewrittenField(components, key, whole.fields[key])
      ensures r.Ok? ==> FieldCovered(components, Emitting(), key, whole.fields[key])
      ensures r.Err? ==> Blamed(components, root, whole, r.error)
      decreases Untouched(), whole, 0
    {
      var child := whole.fields[key];
      FieldValues(whole, key);
      assert key == REF ==> forall c :: RefTarget(components, child) == Component(c) ==> Links(components, whole, c);
      if key != REF {
        PartLinks(components, root, child, whole);
        r := Rewrite(child);
      } else {
        r := RewriteRef(child);
      }
    }

    /** The `$ref` case: name the target, and take it up unless it is finished
        or in progress. */
    method RewriteRef(child: Json) returns (r: Result<Json, RefError>)
      requires Valid()
      requires var t := RefTarget(components, child); t.Component? ==> Reachable(components, root, t.name)
      modifies this
      ensures r.Ok? ==> Valid() && Grown()
      ensures r.Ok? ==> Emitted(components, Emitting(), child) && r.value == RewrittenRef(components, child)
      ensures r.Err? ==> RefTarget(components, child) == Refused(r.error) || RefusedBehind(components, root, r.error)
      decreases Untouched(), child, 1
    {
      var target := RefTarget(components, child);
      if target.Refused? { return Err(target.error); }
      var name, safe := target.name, SafeName(target.name);
      if safe !in bundled && safe !in active {
        var taken := TakeUpComponent(name, child);
        if taken.Err? { return Err(taken.error); }
      }
      r := Ok(NewRef(name));
    }

    /** Rewrite a component that is neither finished nor in progress: it is in
        progress meanwhile, and finished afterwards. */
    method TakeUpComponent(name: string, ghost child: Json) returns (r: Result<Json, RefError>)
      requires Valid() && name in components && Reachable(components, root, name)
      requires SafeName(name) !in bundled && SafeName(name) !in active
      modifies this
      ensures r.Ok? ==> Valid() && Grown() && SafeName(name) in bundled
      ensures r.Err? ==> RefusedBehind(components, root, r.error)
      decreases Untouched(), child, 0
    {
      var safe := SafeName(name);
      assert name in Untouched();
      TakeUp(components, root, bundled, active, name);
      active := active + {safe};
      assert name !in Untouched();
      ComponentLinks(components, root, name);
      r := Rewrite(components[name]);
      if r.Err? { return; }
      Finish(components, root, bundled, active, name);
      bundled := bundled[safe := r.value];
      active := active - {safe};
    }
  }
}
