/** Dot segments: what a path is resolved to before it is requested (RFC 3986
    section 5.2.4), and what that makes of an interpolated one. */
module DotSegments {
  import opened Interpolation
  import opened InterpolationSafety
  import opened JsonValues
  import opened Percent
  import opened Strings

  predicate Dot(segment: string)
  {
    segment == "." || segment == ".."
  }

  /** `remove_dot_segments` on the segments after the leading slash: `out` is the
      output so far. A dot segment at the end leaves an empty one. */
  function RemoveDots(out: seq<string>, segments: seq<string>): seq<string>
    decreases |segments|
  {
    if segments == [] then out
    else
      var rest := segments[1..];
      var kept :=
        if segments[0] == "." then out
        else if segments[0] == ".." then (if out == [] then [] else out[..|out| - 1])
        else out + [segments[0]];
      RemoveDots(if Dot(segments[0]) && rest == [] then kept + [""] else kept, rest)
  }

  /** A question mark or a number sign ends the path (RFC 3986 section 3.3). */
  predicate Ends(c: char)
  {
    c == '?' || c == '#'
  }

  function PathPart(s: string): string
  {
    if s == "" || Ends(s[0]) then "" else [s[0]] + PathPart(s[1..])
  }

  /** The segments of the resolved form of an absolute path, up to its query. */
  function Resolved(path: string): seq<string>
    requires path != "" && path[0] == '/'
  {
    [""] + RemoveDots([], Split(PathPart(path), '/')[1..])
  }

  // ---------------------------------------------------------- where the path ends

  predicate Open(s: string)
  {
    forall c :: c in s ==> !Ends(c)
  }

  lemma {:induction false} OpenIsWhole(s: string)
    ensures Open(s) <==> PathPart(s) == s
    ensures Open(PathPart(s))
  {
    if s != "" && !Ends(s[0]) {
      OpenIsWhole(s[1..]);
      assert s == [s[0]] + s[1..];
    }
  }

  /** The parts of a string that belong to its path: all before the first that is
      cut, and what is left of that one. */
  function PathParts(parts: seq<string>): seq<string>
  {
    if parts == [] then []
    else if Open(parts[0]) then [parts[0]] + PathParts(parts[1..])
    else [PathPart(parts[0])]
  }

  lemma {:induction false} PathOfParts(s: string)
    ensures Split(PathPart(s), '/') == PathParts(Split(s, '/'))
  {
    if s == "" {
    } else if Ends(s[0]) {
      var parts := Split(s, '/');
      assert s[0] in parts[0] by { FirstPartStarts(s); }
      assert PathPart(parts[0]) == "";
    } else {
      PathOfParts(s[1..]);
      var rest := Split(s[1..], '/');
      assert PathPart(s) == [s[0]] + PathPart(s[1..]) && PathPart(s)[1..] == PathPart(s[1..]);
      if s[0] == '/' {
        assert Split(s, '/') == [""] + rest && ([""] + rest)[1..] == rest;
      } else {
        ConsPart(s[0], rest);
      }
    }
  }

  lemma FirstPartStarts(s: string)
    requires s != "" && s[0] != '/'
    ensures Split(s, '/')[0] != "" && Split(s, '/')[0][0] == s[0]
  {
  }

  /** One more character in front of the first part. */
  lemma ConsPart(c: char, rest: seq<string>)
    requires rest != [] && !Ends(c)
    ensures var parts := PathParts(rest);
            parts != [] && PathParts([[c] + rest[0]] + rest[1..]) == [[c] + parts[0]] + parts[1..]
  {
    var longer := [[c] + rest[0]] + rest[1..];
    assert longer[1..] == rest[1..];
    assert Open([c] + rest[0]) <==> Open(rest[0]) by {
      assert forall x :: x in [c] + rest[0] <==> x == c || x in rest[0];
    }
    if Open(rest[0]) {
      assert ([rest[0]] + PathParts(rest[1..]))[1..] == PathParts(rest[1..]);
    } else {
      assert ([c] + rest[0])[1..] == rest[0];
    }
  }

  lemma {:induction false} NoDotsKept(out: seq<string>, segments: seq<string>)
    requires forall i :: 0 <= i < |segments| ==> !Dot(segments[i])
    ensures RemoveDots(out, segments) == out + segments
    decreases |segments|
  {
    if segments == [] {
      assert out + segments == out;
    } else {
      NoDotsKept(out + [segments[0]], segments[1..]);
      assert out + [segments[0]] + segments[1..] == out + segments;
    }
  }

  /** A dot segment is never kept: the path gets shorter, or it ends in an empty
      segment where there was a dot segment. */
  lemma {:induction false} DotsChange(out: seq<string>, segments: seq<string>)
    ensures |RemoveDots(out, segments)| <= |out| + |segments|
    ensures (exists i :: 0 <= i < |segments| && Dot(segments[i])) ==>
              var r := RemoveDots(out, segments);
              || |r| < |out| + |segments|
              || (r != [] && r[|r| - 1] == "" && Dot(segments[|segments| - 1]))
    decreases |segments|
  {
    if segments != [] {
      var rest := segments[1..];
      if rest == [] {
        assert segments == [segments[0]];
      } else {
        var kept :=
          if segments[0] == "." then out
          else if segments[0] == ".." then (if out == [] then [] else out[..|out| - 1])
          else out + [segments[0]];
        DotsChange(kept, rest);
        assert RemoveDots(out, segments) == RemoveDots(kept, rest);
        if !Dot(segments[0]) && exists i :: 0 <= i < |segments| && Dot(segments[i]) {
          var i :| 0 <= i < |segments| && Dot(segments[i]);
          assert Dot(rest[i - 1]);
        }
      }
    }
  }

  // ------------------------------------------------------------- quoting dots

  /** Dots are unreserved: quoting keeps a text of dots, and makes none. */
  lemma QuotedDot(text: string)
    ensures Dot(Quote(text)) <==> Dot(text)
    ensures Dot(text) ==> Quote(text) == text
  {
    QuotesItself();
    SegmentRoundTrip(text);
    if Dot(Quote(text)) {
      SegmentRoundTrip(Quote(text));
      assert Quote(Quote(text)) == Quote(text);
    }
  }

  lemma QuotesItself()
    ensures Quote(".") == "." && Quote("..") == ".."
  {
    var dot := '.' as int;
    assert Utf8Char('.') == [dot];
    assert "."[1..] == "" && ".."[1..] == ".";
    assert Utf8("") == [] && Utf8(".") == [dot] + [] && Utf8("..") == [dot] + [dot];
    assert [dot][1..] == [] && [dot, dot][1..] == [dot];
    assert QuoteByte(dot) == "." && QuoteBytes([]) == "";
    assert QuoteBytes([dot]) == "." && QuoteBytes([dot, dot]) == "." + ".";
  }

  // ------------------------------------------------------- the interpolated path

  /** A segment as declared: a literal one as it is, a substituted one decoding to
      the text of its value. */
  ghost predicate PartShape(part: string, pool: map<string, Json>, render: Json -> string, segment: string)
    requires Available(pool, part)
  {
    match Whole(part)
    case None => segment == part
    case Some(name) => Unquote(segment) == Some(Utf8(render(ValueOf(pool, name).value)))
  }

  /** Segments of the declared shape: as many, and each as declared. */
  ghost predicate DeclaredShape(declared: seq<string>, pool: map<string, Json>, render: Json -> string,
                                segments: seq<string>)
    requires SegmentsAvailable(pool, declared)
  {
    && |segments| == |declared|
    && forall i :: 0 <= i < |declared| ==> PartShape(declared[i], pool, render, segments[i])
  }

  /** A placeholder that is given a value that reads `.` or `..`. */
  ghost predicate DotValue(part: string, pool: map<string, Json>, render: Json -> string)
    requires Available(pool, part)
  {
    Whole(part).Some? && Dot(render(ValueOf(pool, Whole(part).value).value))
  }

  ghost predicate DotSubstituted(declared: seq<string>, pool: map<string, Json>, render: Json -> string)
    requires SegmentsAvailable(pool, declared)
  {
    exists i :: 0 <= i < |declared| && DotValue(declared[i], pool, render)
  }

  lemma SegmentDots(declared: seq<string>, pool: map<string, Json>, render: Json -> string, i: nat)
    requires SegmentsAvailable(pool, declared) && i < |declared| && !Dot(declared[i])
    ensures Dot(Segments(pool, render, declared)[i]) <==> DotValue(declared[i], pool, render)
  {
    PartDots(declared[i], pool, render);
  }

  lemma PartDots(part: string, pool: map<string, Json>, render: Json -> string)
    requires Available(pool, part) && !Dot(part)
    ensures Dot(Segment(pool, render, part)) <==> DotValue(part, pool, render)
  {
    if Whole(part).Some? { QuotedDot(render(ValueOf(pool, Whole(part).value).value)); }
  }

  /** Substitution keeps what is path apart from what follows: no value ends the
      path, and no declared part that does is a placeholder. */
  lemma {:induction false} PathPartsOfSegments(parts: seq<string>, pool: map<string, Json>, render: Json -> string)
    requires SegmentsAvailable(pool, parts)
    requires forall i :: 0 <= i < |parts| ==> Whole(parts[i]).Some? || FindAll(parts[i]) == {}
    ensures SegmentsAvailable(pool, PathParts(parts))
    ensures PathParts(Segments(pool, render, parts)) == Segments(pool, render, PathParts(parts))
  {
    if parts != [] {
      SegmentEnds(parts[0], pool, render);
      SegmentsCons(parts, pool, render);
      if Open(parts[0]) {
        PathPartsOfSegments(parts[1..], pool, render);
        var rest := PathParts(parts[1..]);
        assert ([parts[0]] + rest)[1..] == rest;
        SegmentsCons([parts[0]] + rest, pool, render);
      } else {
        CutMentionsNothing(parts[0]);
        assert PathParts(parts) == [PathPart(parts[0])];
      }
    }
  }

  lemma SegmentsCons(parts: seq<string>, pool: map<string, Json>, render: Json -> string)
    requires parts != [] && Available(pool, parts[0]) && SegmentsAvailable(pool, parts[1..])
    ensures SegmentsAvailable(pool, parts)
    ensures Segments(pool, render, parts) == [Segment(pool, render, parts[0])] + Segments(pool, render, parts[1..])
    ensures Segments(pool, render, parts)[1..] == Segments(pool, render, parts[1..])
  {
    assert parts == [parts[0]] + parts[1..];
    assert SegmentsAvailable(pool, parts);
  }

  lemma SegmentEnds(part: string, pool: map<string, Json>, render: Json -> string)
    requires Available(pool, part)
    ensures Whole(part).Some? ==> Open(part) && Open(Segment(pool, render, part))
    ensures Open(Segment(pool, render, part)) <==> Open(part)
  {
    if Whole(part).Some? {
      WholeIsOpen(part);
      QuoteHidesReserved(Utf8(render(ValueOf(pool, Whole(part).value).value)));
    }
  }

  lemma WholeIsOpen(s: string)
    requires Whole(s).Some?
    ensures Open(s)
  {
    var n := NameLen(s[1..]);
    assert s == ['$'] + s[1..1 + n] + s[1 + n..];
    forall i | 0 <= i < |s| ensures !Ends(s[i]) {
      if 1 <= i < 1 + n { assert s[i] == s[1..][i - 1]; }
      else if i >= 1 + n { assert s[i] == s[1 + n..][i - 1 - n]; }
    }
  }

  /** What a cut leaves of a part without names has none. */
  lemma CutMentionsNothing(part: string)
    requires !Open(part) && FindAll(part) == {}
    ensures Whole(PathPart(part)) == None
  {
    var rest := CutOff(part);
    FindAllAppend(PathPart(part), rest);
    if Whole(PathPart(part)).Some? { WholeIsMentioned(PathPart(part)); }
  }

  lemma {:induction false} CutOff(s: string) returns (rest: string)
    requires !Open(s)
    ensures s == PathPart(s) + rest && rest != "" && Ends(rest[0]) && Stops(rest)
  {
    if Ends(s[0]) {
      rest := s;
      assert PathPart(s) + s == s;
    } else {
      assert forall c :: c in s <==> c == s[0] || c in s[1..];
      rest := CutOff(s[1..]);
      assert s == [s[0]] + (PathPart(s[1..]) + rest);
    }
  }

  /** For a declared path without dot segments of its own: once it is resolved,
      the interpolated path still has the declared shape if and only if no value
      substituted in it reads `.` or `..`. A query or a fragment is left alone. */
  lemma ResolvedShapeIff(call: Call, pool: map<string, Json>, allowed: set<string>, render: Json -> string)
    requires call.path != "" && call.path[0] == '/'
    requires forall i :: 0 <= i < |Split(PathPart(call.path), '/')| ==> !Dot(Split(PathPart(call.path), '/')[i])
    requires Interpolated(call, pool, allowed, render).Ok?
    ensures
      var declared, path := Split(PathPart(call.path), '/'), Interpolated(call, pool, allowed, render).value.path;
      && path != "" && path[0] == '/' && SegmentsAvailable(pool, declared)
      && (DeclaredShape(declared, pool, render, Resolved(path)) <==> !DotSubstituted(declared, pool, render))
  {
    var declared := Split(PathPart(call.path), '/');
    PathStaysAbsolute(call, pool, allowed, render);
    PathSegments(call, pool, allowed, render);
    var segments := Segments(pool, render, declared);
    if DotSubstituted(declared, pool, render) {
      DotsShow(declared, pool, render, segments);
    } else {
      NoDotsShape(declared, pool, render, segments);
    }
  }

  lemma PathSegments(call: Call, pool: map<string, Json>, allowed: set<string>, render: Json -> string)
    requires call.path != "" && call.path[0] == '/' && Interpolated(call, pool, allowed, render).Ok?
    ensures
      var declared, path := Split(PathPart(call.path), '/'), Interpolated(call, pool, allowed, render).value.path;
      && SegmentsAvailable(pool, declared)
      && var segments := Segments(pool, render, declared);
      && segments != [] && segments[0] == "" && Split(PathPart(path), '/') == segments
  {
    var parts, path := Split(call.path, '/'), Interpolated(call, pool, allowed, render).value.path;
    SegmentsHoldNoSlash(pool, render, call.path);
    SplitJoin(Segments(pool, render, parts), '/');
    AcceptedParts(call, allowed);
    PathOfParts(call.path);
    PathOfParts(path);
    PathPartsOfSegments(parts, pool, render);
    LeadingEmpty(PathPart(call.path));
  }

  lemma AcceptedParts(call: Call, allowed: set<string>)
    requires Accepted(call, allowed)
    ensures forall i :: 0 <= i < |Split(call.path, '/')| ==>
              Whole(Split(call.path, '/')[i]).Some? || FindAll(Split(call.path, '/')[i]) == {}
  {
  }

  lemma SegmentsShape(declared: seq<string>, pool: map<string, Json>, render: Json -> string)
    requires SegmentsAvailable(pool, declared)
    ensures DeclaredShape(declared, pool, render, Segments(pool, render, declared))
  {
    forall i | 0 <= i < |declared|
      ensures PartShape(declared[i], pool, render, Segments(pool, render, declared)[i])
    {
      if Whole(declared[i]).Some? { SegmentRoundTrip(render(ValueOf(pool, Whole(declared[i]).value).value)); }
    }
  }

  lemma NoDotsShape(declared: seq<string>, pool: map<string, Json>, render: Json -> string, segments: seq<string>)
    requires SegmentsAvailable(pool, declared) && segments == Segments(pool, render, declared)
    requires forall i :: 0 <= i < |declared| ==> !Dot(declared[i])
    requires segments != [] && segments[0] == "" && !DotSubstituted(declared, pool, render)
    ensures DeclaredShape(declared, pool, render, [""] + RemoveDots([], segments[1..]))
  {
    forall i | 0 <= i < |segments| ensures !Dot(segments[i]) { SegmentDots(declared, pool, render, i); }
    NoDotsKept([], segments[1..]);
    assert [""] + ([] + segments[1..]) == segments;
    SegmentsShape(declared, pool, render);
  }

  lemma LeadingEmpty(path: string)
    requires path != "" && path[0] == '/'
    ensures Split(path, '/')[0] == "" && Whole("") == None
  {
  }

  /** A substituted dot shows in the resolved path. */
  lemma DotsShow(declared: seq<string>, pool: map<string, Json>, render: Json -> string, segments: seq<string>)
    requires SegmentsAvailable(pool, declared) && segments == Segments(pool, render, declared)
    requires forall i :: 0 <= i < |declared| ==> !Dot(declared[i])
    requires segments != [] && segments[0] == "" && DotSubstituted(declared, pool, render)
    ensures !DeclaredShape(declared, pool, render, [""] + RemoveDots([], segments[1..]))
  {
    var i := SomeDot(declared, pool, render, segments);
    var resolved := ShorterOrEmpty(segments, i);
    if |resolved| == |segments| { LastLost(declared, pool, render, segments, resolved); }
  }

  lemma ShorterOrEmpty(segments: seq<string>, i: nat) returns (resolved: seq<string>)
    requires i < |segments| - 1 && Dot(segments[i + 1])
    ensures resolved == [""] + RemoveDots([], segments[1..])
    ensures |resolved| == |segments| ==> resolved[|resolved| - 1] == "" && Dot(segments[|segments| - 1])
  {
    var rest := segments[1..];
    assert Dot(rest[i]);
    DotsChange([], rest);
    resolved := [""] + RemoveDots([], rest);
  }

  lemma SomeDot(declared: seq<string>, pool: map<string, Json>, render: Json -> string, segments: seq<string>)
    returns (i: nat)
    requires SegmentsAvailable(pool, declared) && segments == Segments(pool, render, declared)
    requires forall k :: 0 <= k < |declared| ==> !Dot(declared[k])
    requires segments != [] && segments[0] == "" && DotSubstituted(declared, pool, render)
    ensures i < |segments| - 1 && Dot(segments[i + 1])
  {
    var k :| 0 <= k < |declared| && DotValue(declared[k], pool, render);
    SegmentDots(declared, pool, render, k);
    assert k != 0 by { assert !Dot(""); }
    i := k - 1;
  }

  /** An empty last segment is not what a dot decodes to. */
  lemma LastLost(declared: seq<string>, pool: map<string, Json>, render: Json -> string, segments: seq<string>,
                 resolved: seq<string>)
    requires SegmentsAvailable(pool, declared) && segments == Segments(pool, render, declared) && segments != []
    requires |resolved| == |segments| && resolved[|resolved| - 1] == ""
    requires Dot(segments[|segments| - 1]) && !Dot(declared[|segments| - 1])
    ensures !DeclaredShape(declared, pool, render, resolved)
  {
    var last := |segments| - 1;
    SegmentDots(declared, pool, render, last);
    DotIsNotEmpty(declared[last], pool, render);
  }

  lemma DotIsNotEmpty(part: string, pool: map<string, Json>, render: Json -> string)
    requires Available(pool, part) && DotValue(part, pool, render)
    ensures !PartShape(part, pool, render, "")
  {
    DotHasBytes(render(ValueOf(pool, Whole(part).value).value));
  }

  lemma DotHasBytes(text: string)
    requires Dot(text)
    ensures Unquote("") != Some(Utf8(text))
  {
    assert |Utf8(text)| >= 1;
  }

  /** `GET /a/b/$id/c` */
  function Asking(a: string, b: string, c: string): Call
  {
    Call("GET", Join(["", a, b, "$id", c], '/'), map[], Null, false, false)
  }

  /** A literal path segment: no slash, no name, no end of the path, no dots. */
  predicate Literal(s: string)
  {
    '/' !in s && '$' !in s && Open(s) && !Dot(s)
  }

  lemma IdIsWhole()
    ensures Whole("$id") == Some("id") && FindAll("$id") == {"id"}
  {
    assert "$id"[1..] == "id" && "id"[1..] == "d" && "d"[1..] == "";
    assert CharsLen("") == 0 && CharsLen("d") == 1 && CharsLen("id") == 2;
    assert NameLen("id") == 2;
    assert "$id"[3..] == "" && "$id"[1..3] == "id";
    assert FindAll("$id") == {"id"} + FindAll("");
  }

  lemma LiteralPart(s: string)
    requires '$' !in s
    ensures Whole(s) == None && FindAll(s) == {}
  {
    NothingMentioned(s);
    if Whole(s).Some? { WholeIsMentioned(s); }
  }

  /** Parts that are `$id` or mention nothing. */
  ghost predicate OnlyId(parts: seq<string>)
  {
    forall i :: 0 <= i < |parts| ==> parts[i] == "$id" || '$' !in parts[i]
  }

  lemma {:induction false} OnlyIdMentioned(parts: seq<string>)
    requires parts != [] && OnlyId(parts)
    ensures FindAll(Join(parts, '/')) <= {"id"}
  {
    IdIsWhole();
    if '$' !in parts[0] { LiteralPart(parts[0]); }
    if |parts| > 1 {
      OnlyIdMentioned(parts[1..]);
      FindAllAround(parts[0], Join(parts[1..], '/'));
    }
  }

  lemma OnlyIdAccepted(parts: seq<string>, call: Call)
    requires parts != [] && OnlyId(parts) && Split(call.path, '/') == parts
    requires call.query == map[] && call.body == Null
    ensures Accepted(call, {"id"})
  {
    JoinSplit(call.path, '/');
    OnlyIdMentioned(parts);
    SplitWhole("id", '.');
    NothingInNone(map[]);
    IdIsWhole();
    forall i | 0 <= i < |parts| ensures Whole(parts[i]).Some? || FindAll(parts[i]) == {} {
      if '$' !in parts[i] { LiteralPart(parts[i]); }
    }
  }

  lemma IdSegment(part: string, pool: map<string, Json>, render: Json -> string)
    requires part == "$id" || '$' !in part
    requires "id" in pool && render(pool["id"]) == ".."
    ensures Available(pool, part)
    ensures Segment(pool, render, part) == if part == "$id" then ".." else part
  {
    if part == "$id" {
      IdIsWhole();
      QuotesItself();
      SplitWhole("id", '.');
      assert ["id"][1..] == [];
      assert Dotted(pool, "id") == Some(pool["id"]);
    } else {
      LiteralPart(part);
    }
  }

  lemma AskingParts(a: string, b: string, c: string) returns (parts: seq<string>)
    requires Literal(a) && Literal(b) && Literal(c)
    ensures parts == ["", a, b, "$id", c] && OnlyId(parts)
    ensures Split(Asking(a, b, c).path, '/') == parts
  {
    parts := ["", a, b, "$id", c];
    SplitJoin(parts, '/');
  }

  /** A value `..` takes the segment before it along: the accepted call
      `GET /v1/x/$id/status` asks for `/v1/status`. */
  lemma DotsTraverse(a: string, b: string, c: string, pool: map<string, Json>, render: Json -> string)
    requires Literal(a) && Literal(b) && Literal(c)
    requires "id" in pool && render(pool["id"]) == ".."
    ensures Accepted(Asking(a, b, c), {"id"})
    ensures
      var final := Interpolated(Asking(a, b, c), pool, {"id"}, render);
      && final.Ok? && final.value.path != "" && final.value.path[0] == '/'
      && Resolved(final.value.path) == ["", a, c]
  {
    var parts := AskingParts(a, b, c);
    OnlyIdAccepted(parts, Asking(a, b, c));
    NothingInNone(pool);
    AskingSegments(a, b, c, parts, pool, render);
    DotsRemoved(a, b, c);
  }

  lemma AskingSegments(a: string, b: string, c: string, parts: seq<string>, pool: map<string, Json>, render: Json -> string)
    requires Literal(a) && Literal(b) && Literal(c) && parts == ["", a, b, "$id", c] && OnlyId(parts)
    requires "id" in pool && render(pool["id"]) == ".."
    ensures SegmentsAvailable(pool, parts)
    ensures Segments(pool, render, parts) == ["", a, b, "..", c]
  {
    forall i | 0 <= i < |parts|
      ensures Available(pool, parts[i])
      ensures Segment(pool, render, parts[i]) == if parts[i] == "$id" then ".." else parts[i]
    {
      IdSegment(parts[i], pool, render);
    }
    assert '$' in "$id" by { assert "$id"[0] == '$'; }
    assert a != "$id" && b != "$id" && c != "$id";
  }

  lemma DotsRemoved(a: string, b: string, c: string)
    requires Literal(a) && Literal(b) && Literal(c)
    ensures var path := Join(["", a, b, "..", c], '/');
            path != "" && path[0] == '/' && Resolved(path) == ["", a, c]
  {
    var parts := ["", a, b, "..", c];
    SplitJoin(parts, '/');
    PathOfParts(Join(parts, '/'));
    AllOpen(parts);
    assert Join(parts, '/') == "" + ['/'] + Join(parts[1..], '/');
    assert parts[1..] == [a, b, "..", c];
    RemovesBoth(a, b, c);
    assert [""] + [a, c] == ["", a, c];
  }

  lemma {:induction false} AllOpen(parts: seq<string>)
    requires forall i :: 0 <= i < |parts| ==> Open(parts[i])
    ensures PathParts(parts) == parts
  {
    if parts != [] {
      AllOpen(parts[1..]);
      assert parts == [parts[0]] + parts[1..];
    }
  }

  lemma RemovesBoth(a: string, b: string, c: string)
    requires !Dot(a) && !Dot(b) && !Dot(c)
    ensures RemoveDots([], [a, b, "..", c]) == [a, c]
  {
    RemoveOne([], a, [b, "..", c]);
    assert [a] + [b, "..", c] == [a, b, "..", c] && [b] + ["..", c] == [b, "..", c] && [c] + [] == [c];
    RemoveOne([a], b, ["..", c]);
    assert ["..", c][1..] == [c] && [a, b][..1] == [a];
    RemoveOne([a], c, []);
    assert [] + [a] == [a] && [a] + [b] == [a, b] && [a] + [c] == [a, c];
  }

  lemma RemoveOne(out: seq<string>, segment: string, rest: seq<string>)
    requires !Dot(segment)
    ensures RemoveDots(out, [segment] + rest) == RemoveDots(out + [segment], rest)
  {
    assert ([segment] + rest)[1..] == rest;
  }
}
