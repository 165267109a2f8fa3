/** What interpolation guarantees: it sees only declared names, it replaces
    whole values only, and it cannot change the shape of the path. */
module InterpolationSafety {
  import opened JsonValues
  import opened Strings
  import opened Percent
  import opened Interpolation

  // ------------------------------------------------------ scanning across slashes

  predicate Stops(rest: string)
  {
    rest == "" || (!IdentChar(rest[0]) && rest[0] != '.')
  }

  lemma {:induction false} CharsLenStops(a: string, rest: string)
    requires Stops(rest)
    ensures CharsLen(a + rest) == CharsLen(a)
  {
    if a == [] {
      assert a + rest == rest;
    } else {
      assert (a + rest)[1..] == a[1..] + rest;
      CharsLenStops(a[1..], rest);
    }
  }

  lemma IdentLenStops(a: string, rest: string)
    requires Stops(rest)
    ensures IdentLen(a + rest) == IdentLen(a)
  {
    CharsLenStops(a, rest);
    if a == [] { assert a + rest == rest; }
  }

  lemma {:induction false} NameLenStops(a: string, rest: string)
    requires Stops(rest)
    ensures NameLen(a + rest) == NameLen(a)
    decreases |a|
  {
    IdentLenStops(a, rest);
    var n := IdentLen(a);
    if n > 0 && n < |a| && a[n] == '.' {
      assert (a + rest)[n + 1..] == a[n + 1..] + rest;
      IdentLenStops(a[n + 1..], rest);
      NameLenStops(a[n + 1..], rest);
    }
  }

  lemma ScanHit(s: string, n: nat)
    requires s != [] && s[0] == '$' && n == NameLen(s[1..]) && n > 0
    ensures FindAll(s) == {s[1..1 + n]} + FindAll(s[1 + n..])
  {
  }

  lemma ScanMiss(s: string)
    requires s != [] && !(s[0] == '$' && NameLen(s[1..]) > 0)
    ensures FindAll(s) == FindAll(s[1..])
  {
  }

  lemma HeadHit(a: string, rest: string, n: nat)
    requires a != [] && a[0] == '$' && n == NameLen(a[1..]) > 0 && NameLen(a[1..] + rest) == n
    ensures FindAll(a) == {a[1..1 + n]} + FindAll(a[1 + n..])
    ensures FindAll(a + rest) == {a[1..1 + n]} + FindAll(a[1 + n..] + rest)
  {
    TailSlices(a, rest, 1);
    TailSlices(a, rest, 1 + n);
    ScanHit(a, n);
    ScanHit(a + rest, n);
  }

  lemma HeadMiss(a: string, rest: string)
    requires a != [] && NameLen(a[1..] + rest) == NameLen(a[1..])
    requires !(a[0] == '$' && NameLen(a[1..]) > 0)
    ensures FindAll(a) == FindAll(a[1..]) && FindAll(a + rest) == FindAll(a[1..] + rest)
  {
    TailSlices(a, rest, 1);
    ScanMiss(a);
    ScanMiss(a + rest);
  }

  /** One scanning step is the same with and without what follows. */
  lemma ScanHead(a: string, rest: string) returns (found: set<string>, tail: string)
    requires a != [] && Stops(rest)
    ensures |tail| < |a|
    ensures FindAll(a) == found + FindAll(tail) && FindAll(a + rest) == found + FindAll(tail + rest)
  {
    var n := NameLen(a[1..]);
    NameLenStops(a[1..], rest);
    if a[0] == '$' && n > 0 {
      HeadHit(a, rest, n);
      found, tail := {a[1..1 + n]}, a[1 + n..];
    } else {
      HeadMiss(a, rest);
      found, tail := {}, a[1..];
    }
  }

  lemma TailSlices(a: string, rest: string, i: nat)
    requires 1 <= i <= |a|
    ensures (a + rest)[i..] == a[i..] + rest
    ensures (a + rest)[1..i] == a[1..i]
    ensures (a + rest)[0] == a[0]
  {
  }

  lemma UnionAssociative(a: set<string>, b: set<string>, c: set<string>)
    ensures a + (b + c) == a + b + c
  {
  }

  lemma {:induction false} FindAllAppend(a: string, rest: string)
    requires Stops(rest)
    ensures FindAll(a + rest) == FindAll(a) + FindAll(rest)
    decreases |a|
  {
    if a == [] {
      assert a + rest == rest;
    } else {
      var found, tail := ScanHead(a, rest);
      FindAllAppend(tail, rest);
      UnionAssociative(found, FindAll(tail), FindAll(rest));
    }
  }

  lemma FindAllAround(a: string, b: string)
    ensures FindAll(a + ['/'] + b) == FindAll(a) + FindAll(b)
  {
    var rest := ['/'] + b;
    assert a + ['/'] + b == a + rest && rest[1..] == b;
    FindAllAppend(a, rest);
    ScanMiss(rest);
  }

  /** A string mentions what its slash-separated parts mention. */
  lemma {:induction false} FindAllParts(parts: seq<string>, i: nat)
    requires i < |parts|
    ensures FindAll(parts[i]) <= FindAll(Join(parts, '/'))
  {
    if |parts| > 1 {
      FindAllAround(parts[0], Join(parts[1..], '/'));
      if i > 0 { FindAllParts(parts[1..], i - 1); }
    }
  }

  lemma WholeIsMentioned(s: string)
    requires Whole(s).Some?
    ensures Whole(s).value in FindAll(s)
  {
  }

  lemma SegmentIsMentioned(path: string, i: nat)
    requires i < |Split(path, '/')| && Whole(Split(path, '/')[i]).Some?
    ensures Whole(Split(path, '/')[i]).value in FindAll(path)
  {
    JoinSplit(path, '/');
    FindAllParts(Split(path, '/'), i);
    WholeIsMentioned(Split(path, '/')[i]);
  }

  // ------------------------------------------------------------ declared names only

  ghost predicate Agree(p: map<string, Json>, q: map<string, Json>, allowed: set<string>)
  {
    forall n :: n in allowed ==> Get(p, n) == Get(q, n)
  }

  lemma SameValue(p: map<string, Json>, q: map<string, Json>, allowed: set<string>, name: string)
    requires Agree(p, q, allowed) && Root(name) in allowed
    ensures ValueOf(p, name) == ValueOf(q, name)
  {
    assert Get(p, Root(name)) == Get(q, Root(name));
  }

  lemma {:induction false} SameSubstitution(p: map<string, Json>, q: map<string, Json>, allowed: set<string>, j: Json)
    requires Agree(p, q, allowed)
    requires forall n :: n in Names(j) ==> Root(n) in allowed
    ensures AllAvailable(p, j) <==> AllAvailable(q, j)
    ensures AllAvailable(p, j) ==> Substituted(p, j) == Substituted(q, j)
  {
    match j
    case Str(s) =>
      if Whole(s).Some? {
        WholeIsMentioned(s);
        SameValue(p, q, allowed, Whole(s).value);
      }
    case Arr(items) =>
      forall i | 0 <= i < |items|
        ensures AllAvailable(p, items[i]) <==> AllAvailable(q, items[i])
        ensures AllAvailable(p, items[i]) ==> Substituted(p, items[i]) == Substituted(q, items[i])
      {
        assert Names(items[i]) <= Names(j);
        SameSubstitution(p, q, allowed, items[i]);
      }
    case Obj(fields) =>
      forall k | k in fields
        ensures AllAvailable(p, fields[k]) <==> AllAvailable(q, fields[k])
        ensures AllAvailable(p, fields[k]) ==> Substituted(p, fields[k]) == Substituted(q, fields[k])
      {
        assert Names(fields[k]) <= Names(j);
        SameSubstitution(p, q, allowed, fields[k]);
      }
    case _ =>
  }

  lemma SameSegments(p: map<string, Json>, q: map<string, Json>, allowed: set<string>, path: string,
                     render: Json -> string)
    requires Agree(p, q, allowed)
    requires forall n :: n in FindAll(path) ==> Root(n) in allowed
    ensures var parts := Split(path, '/');
            && (SegmentsAvailable(p, parts) <==> SegmentsAvailable(q, parts))
            && (SegmentsAvailable(p, parts) ==> Segments(p, render, parts) == Segments(q, render, parts))
  {
    var parts := Split(path, '/');
    forall i | 0 <= i < |parts| && Whole(parts[i]).Some?
      ensures ValueOf(p, Whole(parts[i]).value) == ValueOf(q, Whole(parts[i]).value)
    {
      SegmentIsMentioned(path, i);
      SameValue(p, q, allowed, Whole(parts[i]).value);
    }
  }

  /** An accepted call cannot tell two pools apart that agree on the names the
      step declares; a refused one does not look at the pool at all. */
  lemma SeesOnlyDeclared(call: Call, p: map<string, Json>, q: map<string, Json>, allowed: set<string>,
                         render: Json -> string)
    requires Agree(p, q, allowed)
    ensures Interpolated(call, p, allowed, render) == Interpolated(call, q, allowed, render)
  {
    if Accepted(call, allowed) {
      SameSegments(p, q, allowed, call.path, render);
      SameSubstitution(p, q, allowed, Obj(call.query));
      SameSubstitution(p, q, allowed, call.body);
    }
  }

  // -------------------------------------------------------------- whole values only

  lemma {:induction false} WholeHasNoSlash(s: string)
    requires Whole(s).Some?
    ensures '/' !in s
  {
    var n := NameLen(s[1..]);
    assert s == ['$'] + s[1..1 + n] + s[1 + n..];
    forall i | 0 <= i < |s| ensures s[i] != '/' {
      if 1 <= i < 1 + n { assert s[i] == s[1..][i - 1]; }
      else if i >= 1 + n { assert s[i] == s[1 + n..][i - 1 - n]; }
    }
  }

  /** In an accepted query or body, a string that mentions a name is replaced if
      and only if it holds no slash. `"$a/$b"` is accepted and stays as it is. */
  lemma ReplacedIffSlashFree(s: string)
    requires !Fragment(s) && FindAll(s) != {}
    ensures Whole(s).Some? <==> '/' !in s
  {
    if Whole(s).Some? { WholeHasNoSlash(s); }
    SplitWhole(s, '/');
    if '/' !in s {
      assert Split(s, '/')[0] == s;
    }
  }

  /** Substitution goes place by place. */
  lemma {:induction false} SubstitutedAt(pool: map<string, Json>, j: Json, tokens: seq<string>)
    requires AllAvailable(pool, j) && !HasFragment(j) && Walk(j, tokens).Some?
    ensures var at := Walk(j, tokens).value;
            && AllAvailable(pool, at) && !HasFragment(at)
            && Walk(Substituted(pool, j), tokens) == Some(Substituted(pool, at))
    decreases |tokens|
  {
    if tokens != [] {
      match j
      case Obj(fields) => SubstitutedAt(pool, fields[tokens[0]], tokens[1..]);
      case Arr(items) => SubstitutedAt(pool, items[DecimalValue(tokens[0])], tokens[1..]);
    }
  }

  /** What may stand at a place of a query or body after interpolation: the
      declared value, unless that is a string that mentions a name and holds no
      slash; containers keep their size and keys. */
  predicate Kept(pool: map<string, Json>, before: Json, after: Json)
  {
    match before
    case Str(s) =>
      if FindAll(s) != {} && '/' !in s then Whole(s).Some? && ValueOf(pool, Whole(s).value) == Some(after)
      else after == before
    case Arr(items) => after.Arr? && |after.items| == |items|
    case Obj(fields) => after.Obj? && after.fields.Keys == fields.Keys
    case _ => after == before
  }

  lemma PlaceKept(pool: map<string, Json>, j: Json, tokens: seq<string>)
    requires AllAvailable(pool, j) && !HasFragment(j) && Walk(j, tokens).Some?
    ensures Walk(Substituted(pool, j), tokens).Some?
    ensures Kept(pool, Walk(j, tokens).value, Walk(Substituted(pool, j), tokens).value)
  {
    SubstitutedAt(pool, j, tokens);
    var at := Walk(j, tokens).value;
    if at.Str? {
      if FindAll(at.s) != {} { ReplacedIffSlashFree(at.s); }
      if Whole(at.s).Some? { WholeIsMentioned(at.s); }
    }
  }

  /** Every place of the declared query and body is still there afterwards, with
      its value or, where a whole placeholder stood, the pool's. */
  lemma CallShapeKept(call: Call, pool: map<string, Json>, allowed: set<string>, render: Json -> string,
                      tokens: seq<string>)
    requires Interpolated(call, pool, allowed, render).Ok?
    ensures
      var final := Interpolated(call, pool, allowed, render).value;
      && (Walk(call.body, tokens).Some? ==>
            Walk(final.body, tokens).Some? && Kept(pool, Walk(call.body, tokens).value, Walk(final.body, tokens).value))
      && (Walk(Obj(call.query), tokens).Some? ==>
            && Walk(Obj(final.query), tokens).Some?
            && Kept(pool, Walk(Obj(call.query), tokens).value, Walk(Obj(final.query), tokens).value))
  {
    if Walk(call.body, tokens).Some? { PlaceKept(pool, call.body, tokens); }
    if Walk(Obj(call.query), tokens).Some? { PlaceKept(pool, Obj(call.query), tokens); }
  }

  lemma SlashParts()
    ensures Split("$a/$b", '/') == ["$a", "$b"]
    ensures Join(["$a", "$b"], '/') == "$a/$b"
  {
    SplitWhole("$b", '/');
    SplitCons("$a", "$b", '/');
    assert "$a" + ['/'] + "$b" == "$a/$b";
    assert ["$a", "$b"][1..] == ["$b"];
    assert Join(["$a", "$b"], '/') == "$a" + ['/'] + Join(["$b"], '/');
  }

  lemma SlashIsNotWhole()
    ensures Whole("$a/$b") == None
  {
    assert '/' in "$a/$b" by { assert "$a/$b"[2] == '/'; }
    if Whole("$a/$b").Some? { WholeHasNoSlash("$a/$b"); }
  }

  lemma SlashIsNoFragment()
    ensures !Fragment("$a/$b")
  {
    SlashParts();
    SingleLetter('a');
    SingleLetter('b');
  }

  lemma {:induction false} NothingMentioned(s: string)
    requires '$' !in s
    ensures FindAll(s) == {}
  {
    if s != [] { NothingMentioned(s[1..]); }
  }

  /** A path without names is no fragment, and is left as it is. */
  lemma PlainPathKept(path: string, pool: map<string, Json>, render: Json -> string)
    requires '$' !in path
    ensures FindAll(path) == {} && !Fragment(path)
    ensures SegmentsAvailable(pool, Split(path, '/'))
    ensures Join(Segments(pool, render, Split(path, '/')), '/') == path
  {
    var parts := Split(path, '/');
    NothingMentioned(path);
    JoinSplit(path, '/');
    forall i | 0 <= i < |parts| ensures FindAll(parts[i]) == {} && Whole(parts[i]) == None {
      FindAllParts(parts, i);
      if Whole(parts[i]).Some? { WholeIsMentioned(parts[i]); }
    }
    assert Segments(pool, render, parts) == parts;
  }

  lemma SlashNames()
    ensures FindAll("$a/$b") == {"a", "b"}
    ensures Root("a") == "a" && Root("b") == "b"
  {
    SplitWhole("a", '.');
    SplitWhole("b", '.');
    OneName('a');
    OneName('b');
    FindAllAround("$a", "$b");
    assert "$a" + ['/'] + "$b" == "$a/$b";
  }

  lemma OneName(c: char)
    requires IdentStart(c)
    ensures FindAll(['$', c]) == {[c]}
  {
    SingleLetter(c);
    assert ['$', c][1..] == [c] && [c][1..] == [] && ['$', c][2..] == [] && ['$', c][1..2] == [c];
    assert NameLen([c]) == 1 by { assert CharsLen([]) == 0 && CharsLen([c]) == 1; }
    assert FindAll(['$', c]) == {[c]} + FindAll([]);
  }

  /** A call that posts one text under the key `q`. */
  function Posting(path: string, text: string): Call
  {
    Call("POST", path, map[], Obj(map["q" := Str(text)]), false, false)
  }

  lemma NamesOfOne(key: string, text: string)
    ensures Names(Obj(map[key := Str(text)])) == FindAll(text)
    ensures HasFragment(Obj(map[key := Str(text)])) <==> Fragment(text)
  {
    var fields := map[key := Str(text)];
    assert fields.Keys == {key} && fields[key] == Str(text);
    assert Names(Str(text)) == FindAll(text);
    forall n ensures n in FieldNames(Obj(fields), fields.Keys) <==> n in Names(fields[key]) { }
    assert HasFragment(fields[key]) <==> Fragment(text);
  }

  lemma KeptOfOne(key: string, text: string, pool: map<string, Json>)
    requires Whole(text) == None
    ensures AllAvailable(pool, Obj(map[key := Str(text)]))
    ensures Substituted(pool, Obj(map[key := Str(text)])) == Obj(map[key := Str(text)])
  {
    var fields := map[key := Str(text)];
    assert fields.Keys == {key} && fields[key] == Str(text);
    assert AllAvailable(pool, Str(text)) && Substituted(pool, Str(text)) == Str(text);
    assert Substituted(pool, Obj(fields)).fields == fields;
  }

  lemma NothingInNone(pool: map<string, Json>)
    ensures Names(Obj(map[])) == {} && !HasFragment(Obj(map[]))
    ensures AllAvailable(pool, Obj(map[])) && Substituted(pool, Obj(map[])) == Obj(map[])
  {
    assert Substituted(pool, Obj(map[])).fields == map[];
  }

  /** A text that is no fragment and no whole placeholder is accepted once its
      names are declared, and goes out as it is. */
  lemma PostedAsItIs(path: string, text: string, pool: map<string, Json>, allowed: set<string>, render: Json -> string)
    requires '$' !in path && !Fragment(text) && Whole(text) == None
    requires forall n :: n in FindAll(text) ==> Root(n) in allowed
    ensures Accepted(Posting(path, text), allowed)
    ensures Interpolated(Posting(path, text), pool, allowed, render) == Ok(Posting(path, text))
  {
    PlainPathKept(path, pool, render);
    NamesOfOne("q", text);
    KeptOfOne("q", text, pool);
    NothingInNone(pool);
  }

  /** The slash case, concretely: a call whose body holds `$a/$b` is accepted, and
      goes out as declared whatever the pool holds for the two names. */
  lemma SlashStaysLiteral(path: string, pool: map<string, Json>, render: Json -> string)
    requires '$' !in path
    ensures !Fragment("$a/$b") && FindAll("$a/$b") == {"a", "b"}
    ensures AllAvailable(pool, Str("$a/$b")) && Substituted(pool, Str("$a/$b")) == Str("$a/$b")
    ensures Accepted(Posting(path, "$a/$b"), {"a", "b"})
    ensures Interpolated(Posting(path, "$a/$b"), pool, {"a", "b"}, render) == Ok(Posting(path, "$a/$b"))
  {
    SlashIsNotWhole();
    SlashIsNoFragment();
    SlashNames();
    PostedAsItIs(path, "$a/$b", pool, {"a", "b"}, render);
  }

  lemma SingleLetter(c: char)
    requires IdentStart(c)
    ensures Whole(['$', c]) == Some([c])
  {
    assert ['$', c][1..] == [c];
    assert [c][1..] == [];
    assert ['$', c][2..] == [];
    assert ['$', c][1..2] == [c];
    assert CharsLen([]) == 0;
    assert CharsLen([c]) == 1;
  }

  // ------------------------------------------------------------- shape of the path

  lemma SegmentsHoldNoSlash(pool: map<string, Json>, render: Json -> string, path: string)
    requires SegmentsAvailable(pool, Split(path, '/'))
    ensures forall i :: 0 <= i < |Split(path, '/')| ==> '/' !in Segment(pool, render, Split(path, '/')[i])
  {
    var parts := Split(path, '/');
    SplitPartsAreWhole(path, '/');
    forall i | 0 <= i < |parts| ensures '/' !in Segment(pool, render, parts[i]) {
      if Whole(parts[i]).Some? {
        SegmentRoundTrip(render(ValueOf(pool, Whole(parts[i]).value).value));
      }
    }
  }

  /** Whatever the pool holds, the final path has the declared segments: as many,
      the literal ones unchanged, and each substituted one decoding to exactly
      the text of its value. */
  lemma PathShapeFixed(call: Call, pool: map<string, Json>, allowed: set<string>, render: Json -> string)
    requires Interpolated(call, pool, allowed, render).Ok?
    ensures
      var declared := Split(call.path, '/');
      var final := Split(Interpolated(call, pool, allowed, render).value.path, '/');
      && |final| == |declared|
      && forall i :: 0 <= i < |declared| ==>
           match Whole(declared[i])
           case None => final[i] == declared[i]
           case Some(name) =>
             var text := render(ValueOf(pool, name).value);
             Unquote(final[i]) == Some(Utf8(text)) && Utf8Decode(Utf8(text)) == Some(text)
  {
    var declared := Split(call.path, '/');
    var segments := Segments(pool, render, declared);
    SegmentsHoldNoSlash(pool, render, call.path);
    SplitJoin(segments, '/');
    forall i | 0 <= i < |declared| && Whole(declared[i]).Some?
      ensures var text := render(ValueOf(pool, Whole(declared[i]).value).value);
              Unquote(segments[i]) == Some(Utf8(text)) && Utf8Decode(Utf8(text)) == Some(text)
    {
      SegmentRoundTrip(render(ValueOf(pool, Whole(declared[i]).value).value));
    }
  }

  /** So two pools give the same path only if every substituted value reads alike. */
  lemma PathDeterminesValues(call: Call, p: map<string, Json>, q: map<string, Json>, allowed: set<string>,
                             render: Json -> string, i: nat)
    requires Interpolated(call, p, allowed, render).Ok? && Interpolated(call, q, allowed, render).Ok?
    requires Interpolated(call, p, allowed, render).value.path == Interpolated(call, q, allowed, render).value.path
    requires i < |Split(call.path, '/')| && Whole(Split(call.path, '/')[i]).Some?
    ensures var name := Whole(Split(call.path, '/')[i]).value;
            render(ValueOf(p, name).value) == render(ValueOf(q, name).value)
  {
    PathShapeFixed(call, p, allowed, render);
    PathShapeFixed(call, q, allowed, render);
  }

  /** The new call is never marked public, whatever the declared one was. */
  lemma PublicIsDropped(call: Call, pool: map<string, Json>, allowed: set<string>, render: Json -> string)
    requires Interpolated(call, pool, allowed, render).Ok? && call.public
    ensures !Interpolated(call, pool, allowed, render).value.public
    ensures Interpolated(call, pool, allowed, render).value != call
  {
  }

  /** A path that starts with a slash keeps it, so the constructor of the new
      call has nothing to refuse. */
  lemma PathStaysAbsolute(call: Call, pool: map<string, Json>, allowed: set<string>, render: Json -> string)
    requires call.path != "" && call.path[0] == '/'
    requires Interpolated(call, pool, allowed, render).Ok?
    ensures var path := Interpolated(call, pool, allowed, render).value.path; path != "" && path[0] == '/'
  {
    var parts := Split(call.path, '/');
    assert parts[0] == [] && |parts| > 1;
    var segments := Segments(pool, render, parts);
    assert segments[0] == Segment(pool, render, []) == [];
    assert Join(segments, '/') == segments[0] + ['/'] + Join(segments[1..], '/');
  }
}
