/** Service calls as data: which `$name`s a call mentions, when it is accepted,
    and what substitution does to it. */
module Interpolation {
  import opened JsonValues
  import opened Strings
  import opened Percent

  // ------------------------------------------------------------- placeholders

  predicate IdentStart(c: char)
  {
    'a' <= c <= 'z' || 'A' <= c <= 'Z' || c == '_'
  }

  predicate IdentChar(c: char)
  {
    IdentStart(c) || '0' <= c <= '9'
  }

  function CharsLen(s: string): (n: nat)
    ensures n <= |s|
    ensures forall i :: 0 <= i < n ==> IdentChar(s[i])
  {
    if s == [] || !IdentChar(s[0]) then 0 else 1 + CharsLen(s[1..])
  }

  /** How much of `s` the pattern for one identifier takes. */
  function IdentLen(s: string): (n: nat)
    ensures n <= |s|
    ensures forall i :: 0 <= i < n ==> IdentChar(s[i])
  {
    if s == [] || !IdentStart(s[0]) then 0 else CharsLen(s)
  }

  /** ... and how much the pattern for identifiers joined by dots takes. */
  function NameLen(s: string): (n: nat)
    ensures n <= |s|
    ensures forall i :: 0 <= i < n ==> IdentChar(s[i]) || s[i] == '.'
    decreases |s|
  {
    var n := IdentLen(s);
    if n == 0 then 0
    else if n < |s| && s[n] == '.' && IdentLen(s[n + 1..]) > 0 then n + 1 + NameLen(s[n + 1..])
    else n
  }

  /** `PLACEHOLDER.match(s)`: the name, when `s` is one placeholder and nothing
      else. Python's `$` also matches before a final newline. */
  function Whole(s: string): Option<string>
  {
    if s == [] || s[0] != '$' then None
    else
      var n := NameLen(s[1..]);
      if n > 0 && (s[1 + n..] == "" || s[1 + n..] == "\n") then Some(s[1..1 + n]) else None
  }

  /** `ANY_PLACEHOLDER.findall(s)` */
  function FindAll(s: string): set<string>
    decreases |s|
  {
    if s == [] then {}
    else if s[0] == '$' && NameLen(s[1..]) > 0 then
      {s[1..1 + NameLen(s[1..])]} + FindAll(s[1 + NameLen(s[1..])..])
    else FindAll(s[1..])
  }

  /** The part of a name that has to be declared. */
  function Root(name: string): string
  {
    Split(name, '.')[0]
  }

  // --------------------------------------------------------------------- calls

  datatype Call = Call(httpMethod: string, path: string, query: map<string, Json>, body: Json,
                       optional404: bool, public: bool)

  /** The names a value mentions, at any depth. */
  function Names(j: Json): set<string>
    decreases j, 1
  {
    match j
    case Str(s) => FindAll(s)
    case Arr(items) => ItemNames(j, |items|)
    case Obj(fields) => FieldNames(j, fields.Keys)
    case _ => {}
  }

  function ItemNames(j: Json, m: nat): set<string>
    requires j.Arr? && m <= |j.items|
    decreases j, 0
  {
    set i, n | 0 <= i < m && n in Names(j.items[i]) :: n
  }

  function FieldNames(j: Json, keys: set<string>): set<string>
    requires j.Obj? && keys <= j.fields.Keys
    decreases j, 0
  {
    set k, n | k in keys && n in Names(j.fields[k]) :: n
  }

  /** `collect_placeholders(call)` */
  function CallNames(call: Call): set<string>
  {
    FindAll(call.path) + Names(Obj(call.query)) + Names(call.body)
  }

  /** A string that mixes a `$name` with anything else, slashes apart. */
  predicate Fragment(s: string)
  {
    var parts := Split(s, '/');
    exists i :: 0 <= i < |parts| && parts[i] != [] && Whole(parts[i]).None? && FindAll(parts[i]) != {}
  }

  predicate HasFragment(j: Json)
  {
    match j
    case Str(s) => Fragment(s)
    case Arr(items) => exists i :: 0 <= i < |items| && HasFragment(items[i])
    case Obj(fields) => exists k :: k in fields && HasFragment(fields[k])
    case _ => false
  }

  /** `s` is one of the strings of `j`, at any depth. */
  predicate Occurs(s: string, j: Json)
  {
    match j
    case Str(t) => s == t
    case Arr(items) => exists i :: 0 <= i < |items| && Occurs(s, items[i])
    case Obj(fields) => exists k :: k in fields && Occurs(s, fields[k])
    case _ => false
  }

  predicate Declared(call: Call, allowed: set<string>)
  {
    forall n :: n in CallNames(call) ==> Root(n) in allowed
  }

  /** `validate_call` raises nothing. */
  predicate Accepted(call: Call, allowed: set<string>)
  {
    && Declared(call, allowed)
    && !Fragment(call.path) && !HasFragment(Obj(call.query)) && !HasFragment(call.body)
  }

  // -------------------------------------------------------------- substitution

  /** `value_of(name)` */
  function ValueOf(pool: map<string, Json>, name: string): Option<Json>
  {
    Dotted(pool, name)
  }

  predicate Available(pool: map<string, Json>, s: string)
  {
    Whole(s).Some? ==> ValueOf(pool, Whole(s).value).Some?
  }

  predicate AllAvailable(pool: map<string, Json>, j: Json)
  {
    match j
    case Str(s) => Available(pool, s)
    case Arr(items) => forall i :: 0 <= i < |items| ==> AllAvailable(pool, items[i])
    case Obj(fields) => forall k :: k in fields ==> AllAvailable(pool, fields[k])
    case _ => true
  }

  /** A query or body value: whole placeholders replaced, the rest kept. */
  function Substituted(pool: map<string, Json>, j: Json): Json
    requires AllAvailable(pool, j)
  {
    match j
    case Str(s) => if Whole(s).Some? then ValueOf(pool, Whole(s).value).value else j
    case Arr(items) => Arr(seq(|items|, i requires 0 <= i < |items| => Substituted(pool, items[i])))
    case Obj(fields) => Obj(map k | k in fields :: Substituted(pool, fields[k]))
    case _ => j
  }

  predicate SegmentsAvailable(pool: map<string, Json>, parts: seq<string>)
  {
    forall i :: 0 <= i < |parts| ==> Available(pool, parts[i])
  }

  /** A path segment: a whole placeholder becomes the encoded value. `render` is
      Python's `str`. */
  function Segment(pool: map<string, Json>, render: Json -> string, part: string): string
    requires Available(pool, part)
  {
    if Whole(part).Some? then Quote(render(ValueOf(pool, Whole(part).value).value)) else part
  }

  function Segments(pool: map<string, Json>, render: Json -> string, parts: seq<string>): (r: seq<string>)
    requires SegmentsAvailable(pool, parts)
    ensures |r| == |parts|
  {
    seq(|parts|, i requires 0 <= i < |parts| => Segment(pool, render, parts[i]))
  }

  datatype CallError = NotAccepted | ValueMissing

  /** `interpolate(call, pool, allowed)`, as one expression. The new call does
      not carry `public` over. */
  function Interpolated(call: Call, pool: map<string, Json>, allowed: set<string>, render: Json -> string)
    : Result<Call, CallError>
  {
    var parts := Split(call.path, '/');
    if !Accepted(call, allowed) then Err(NotAccepted)
    else if !SegmentsAvailable(pool, parts) || !AllAvailable(pool, Obj(call.query)) || !AllAvailable(pool, call.body) then
      Err(ValueMissing)
    else
      Ok(Call(call.httpMethod, Join(Segments(pool, render, parts), '/'),
              Substituted(pool, Obj(call.query)).fields, Substituted(pool, call.body), call.optional404, false))
  }

  // ------------------------------------------------------------------ the code

  /** The `walk` of `collect_placeholders`, growing one set. */
  method Collect(value: Json, found: set<string>) returns (grown: set<string>)
    ensures grown == found + Names(value)
    decreases value
  {
    grown := found;
    match value
    case Str(s) => grown := grown + FindAll(s);
    case Arr(items) =>
      for i := 0 to |items|
        invariant grown == found + ItemNames(value, i)
      {
        grown := Collect(items[i], grown);
      }
    case Obj(fields) =>
      var todo := fields.Keys;
      while todo != {}
        invariant todo <= fields.Keys
        invariant grown == found + FieldNames(value, fields.Keys - todo)
        decreases todo
      {
        var key :| key in todo;
        grown := Collect(fields[key], grown);
        todo := todo - {key};
      }
      assert fields.Keys - todo == fields.Keys;
    case _ =>
  }

  method CollectPlaceholders(call: Call) returns (found: set<string>)
    ensures found == CallNames(call)
  {
    found := Collect(Str(call.path), {});
    found := Collect(Obj(call.query), found);
    found := Collect(call.body, found);
  }

  method FragmentIn(s: string) returns (mixed: bool)
    ensures mixed <==> Fragment(s)
  {
    var parts := Split(s, '/');
    for i := 0 to |parts|
      invariant forall k :: 0 <= k < i ==> parts[k] == [] || Whole(parts[k]).Some? || FindAll(parts[k]) == {}
    {
      if parts[i] == [] || Whole(parts[i]).Some? { continue; }
      if FindAll(parts[i]) != {} { return true; }
    }
    return false;
  }

  /** `_first_fragment(value)` */
  method FirstFragment(value: Json) returns (found: Option<string>)
    ensures found.Some? <==> HasFragment(value)
    ensures found.Some? ==> Fragment(found.value) && Occurs(found.value, value)
    decreases value
  {
    match value
    case Str(s) =>
      var mixed := FragmentIn(s);
      found := if mixed then Some(s) else None;
    case Arr(items) =>
      for i := 0 to |items|
        invariant forall k :: 0 <= k < i ==> !HasFragment(items[k])
      {
        found := FirstFragment(items[i]);
        if found.Some? { return; }
      }
      found := None;
    case Obj(fields) =>
      var todo := fields.Keys;
      while todo != {}
        invariant todo <= fields.Keys
        invariant forall k :: k in fields && k !in todo ==> !HasFragment(fields[k])
        decreases todo
      {
        var key :| key in todo;
        found := FirstFragment(fields[key]);
        if found.Some? { return; }
        todo := todo - {key};
      }
      found := None;
    case _ => found := None;
  }

  datatype Refusal = Undeclared(name: string) | Mixed(text: string)

  /** `validate_call(call, allowed)` */
  method ValidateCall(call: Call, allowed: set<string>) returns (r: Option<Refusal>)
    ensures r.None? <==> Accepted(call, allowed)
    ensures r.Some? && r.value.Undeclared? ==> r.value.name in CallNames(call) && Root(r.value.name) !in allowed
    ensures r.Some? && r.value.Mixed? ==> Declared(call, allowed) && Fragment(r.value.text)
    ensures r.Some? && r.value.Mixed? ==>
              Occurs(r.value.text, Arr([Str(call.path), Obj(call.query), call.body]))
  {
    var names := CollectPlaceholders(call);
    var todo := names;
    while todo != {}
      invariant todo <= names
      invariant forall n :: n in names && n !in todo ==> Root(n) in allowed
      decreases todo
    {
      var name :| name in todo;
      if Root(name) !in allowed { return Some(Undeclared(name)); }
      todo := todo - {name};
    }
    ghost var whole := Arr([Str(call.path), Obj(call.query), call.body]);
    var found := FirstFragment(Str(call.path));
    assert found.Some? ==> Occurs(found.value, whole.items[0]);
    if found.None? {
      found := FirstFragment(Obj(call.query));
      assert found.Some? ==> Occurs(found.value, whole.items[1]);
    }
    if found.None? {
      found := FirstFragment(call.body);
      assert found.Some? ==> Occurs(found.value, whole.items[2]);
    }
    r := if found.Some? then Some(Mixed(found.value)) else None;
  }

  /** The closure `substitute`. */
  method Substitute(value: Json, pool: map<string, Json>) returns (r: Option<Json>)
    ensures r == if AllAvailable(pool, value) then Some(Substituted(pool, value)) else None
    decreases value
  {
    match value
    case Str(s) =>
      var name := Whole(s);
      if name.None? { return Some(value); }
      return ValueOf(pool, name.value);
    case Arr(items) =>
      var out: seq<Json> := [];
      for i := 0 to |items|
        invariant |out| == i
        invariant forall k :: 0 <= k < i ==> AllAvailable(pool, items[k]) && out[k] == Substituted(pool, items[k])
      {
        var item := Substitute(items[i], pool);
        if item.None? { return None; }
        out := out + [item.value];
      }
      assert out == Substituted(pool, value).items;
      return Some(Arr(out));
    case Obj(fields) =>
      var out: map<string, Json> := map[];
      var todo := fields.Keys;
      while todo != {}
        invariant todo <= fields.Keys && out.Keys == fields.Keys - todo
        invariant forall k :: k in out ==> AllAvailable(pool, fields[k]) && out[k] == Substituted(pool, fields[k])
        decreases todo
      {
        var key :| key in todo;
        var field := Substitute(fields[key], pool);
        if field.None? { return None; }
        out := out[key := field.value];
        todo := todo - {key};
      }
      assert out == Substituted(pool, value).fields;
      return Some(Obj(out));
    case _ => return Some(value);
  }

  /** `interpolate(call, pool, allowed)` */
  method Interpolate(call: Call, pool: map<string, Json>, allowed: set<string>, render: Json -> string)
    returns (r: Result<Call, CallError>)
    ensures r == Interpolated(call, pool, allowed, render)
  {
    var refusal := ValidateCall(call, allowed);
    if refusal.Some? { return Err(NotAccepted); }
    var parts := Split(call.path, '/');
    var segments: seq<string> := [];
    for i := 0 to |parts|
      invariant |segments| == i
      invariant forall k :: 0 <= k < i ==> Available(pool, parts[k]) && segments[k] == Segment(pool, render, parts[k])
    {
      var name := Whole(parts[i]);
      if name.None? {
        segments := segments + [parts[i]];
      } else {
        var value := ValueOf(pool, name.value);
        if value.None? { return Err(ValueMissing); }
        segments := segments + [Quote(render(value.value))];
      }
    }
    assert segments == Segments(pool, render, parts);
    var query := Substitute(Obj(call.query), pool);
    if query.None? { return Err(ValueMissing); }
    var body := Substitute(call.body, pool);
    if body.None? { return Err(ValueMissing); }
    r := Ok(Call(call.httpMethod, Join(segments, '/'), query.value.fields, body.value, call.optional404, false));
  }
}
