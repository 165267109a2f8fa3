/** A reference is a URI whose fragment is a JSON Pointer: a fragment by the
    grammar of RFC 3986 section 3.5, percent-decoded (section 2.1), then split and
    unescaped (RFC 6901 section 6). */
module Fragments {
  import opened JsonValues
  import opened Percent
  import opened Pointers
  import opened Strings

  // ------------------------------------------------------------ percent-decoding

  /** The string starts with a percent sign and two hexadecimal digits. */
  predicate Triplet(s: string)
  {
    |s| >= 3 && s[0] == '%' && HexValue(s[1]) >= 0 && HexValue(s[2]) >= 0
  }

  predicate HasTriplet(s: string)
  {
    s != [] && (Triplet(s) || HasTriplet(s[1..]))
  }

  /** A character a fragment may hold as itself. */
  predicate FragmentChar(c: char)
  {
    || 'A' <= c <= 'Z' || 'a' <= c <= 'z' || '0' <= c <= '9'
    || c in "-._~" || c in "!$&'()*+,;=" || c in ":@/?"
  }

  /** Nothing but such characters and triplets. */
  predicate WellFormed(s: string)
    decreases |s|
  {
    if s == [] then true
    else if Triplet(s) then WellFormed(s[3..])
    else FragmentChar(s[0]) && WellFormed(s[1..])
  }

  predicate AllFragmentChars(s: string)
  {
    forall c :: c in s ==> FragmentChar(c)
  }

  lemma {:induction false} PlainWellFormed(s: string)
    requires !HasTriplet(s)
    ensures WellFormed(s) <==> AllFragmentChars(s)
  {
    if s != [] {
      PlainWellFormed(s[1..]);
      assert s == [s[0]] + s[1..];
    }
  }

  lemma {:induction false} NoPercentNoTriplet(s: string)
    requires '%' !in s
    ensures !HasTriplet(s)
  {
    if s != [] { NoPercentNoTriplet(s[1..]); }
  }

  lemma {:induction false} WellFormedAfter(a: string, b: string)
    requires AllFragmentChars(a)
    ensures WellFormed(a + b) <==> WellFormed(b)
  {
    if a == [] {
      assert a + b == b;
    } else {
      assert a[0] in a && (a + b)[1..] == a[1..] + b;
      WellFormedAfter(a[1..], b);
    }
  }

  /** The octets a fragment stands for: a triplet is one, anything else is in
      UTF-8. */
  function Octets(s: string): seq<Byte>
    decreases |s|
  {
    if s == [] then []
    else if Triplet(s) then [16 * HexValue(s[1]) + HexValue(s[2])] + Octets(s[3..])
    else Utf8Char(s[0]) + Octets(s[1..])
  }

  /** The decoded fragment; none when its octets are not UTF-8. */
  function Decoded(s: string): Option<string>
  {
    Utf8Decode(Octets(s))
  }

  lemma {:induction false} OctetsPlain(s: string)
    requires !HasTriplet(s)
    ensures Octets(s) == Utf8(s)
  {
    if s != [] { OctetsPlain(s[1..]); }
  }

  /** Without triplets, decoding changes nothing. */
  lemma DecodedPlain(s: string)
    requires !HasTriplet(s)
    ensures Decoded(s) == Some(s)
  {
    OctetsPlain(s);
    Utf8RoundTrip(s);
  }

  lemma {:induction false} OctetsAfter(a: string, b: string)
    requires '%' !in a
    ensures Octets(a + b) == Utf8(a) + Octets(b)
  {
    if a == [] {
      assert a + b == b;
    } else {
      assert (a + b)[1..] == a[1..] + b;
      OctetsAfter(a[1..], b);
    }
  }

  lemma {:induction false} Utf8DecodeAfter(a: string, rest: seq<Byte>)
    ensures
      match Utf8Decode(rest)
      case None => Utf8Decode(Utf8(a) + rest) == None
      case Some(t) => Utf8Decode(Utf8(a) + rest) == Some(a + t)
  {
    if a == [] {
      assert Utf8(a) + rest == rest;
      if Utf8Decode(rest).Some? { assert a + Utf8Decode(rest).value == Utf8Decode(rest).value; }
    } else {
      Utf8DecodeAfter(a[1..], rest);
      assert Utf8(a) + rest == Utf8Char(a[0]) + (Utf8(a[1..]) + rest);
      Utf8CharRoundTrip(a[0], Utf8(a[1..]) + rest);
      if Utf8Decode(rest).Some? {
        assert [a[0]] + (a[1..] + Utf8Decode(rest).value) == a + Utf8Decode(rest).value;
      }
    }
  }

  lemma DecodedAfter(a: string, b: string)
    requires '%' !in a
    ensures Decoded(b).None? ==> Decoded(a + b) == None
    ensures Decoded(b).Some? ==> Decoded(a + b) == Some(a + Decoded(b).value)
  {
    OctetsAfter(a, b);
    Utf8DecodeAfter(a, Octets(b));
  }

  // ------------------------------------------- decoding and unescaping keep apart

  /** A weight that unescaping keeps and decoding a triplet lowers. */
  function CharWeight(c: char): nat
  {
    if c in "~01/" then 0 else if c == '%' then 2 else 1
  }

  function Weight(s: string): nat
  {
    if s == [] then 0 else CharWeight(s[0]) + Weight(s[1..])
  }

  function OctetWeight(b: Byte): nat
  {
    if b < 0x80 then CharWeight(b as char) else if b >= 0xC0 then 1 else 0
  }

  function OctetsWeight(bytes: seq<Byte>): nat
  {
    if bytes == [] then 0 else OctetWeight(bytes[0]) + OctetsWeight(bytes[1..])
  }

  lemma {:induction false} WeightAppend(a: string, b: string)
    ensures Weight(a + b) == Weight(a) + Weight(b)
  {
    if a == [] {
      assert a + b == b;
    } else {
      assert (a + b)[1..] == a[1..] + b;
      WeightAppend(a[1..], b);
    }
  }

  lemma {:induction false} OctetsWeightAppend(a: seq<Byte>, b: seq<Byte>)
    ensures OctetsWeight(a + b) == OctetsWeight(a) + OctetsWeight(b)
  {
    if a == [] {
      assert a + b == b;
    } else {
      assert (a + b)[1..] == a[1..] + b;
      OctetsWeightAppend(a[1..], b);
    }
  }

  lemma {:induction false} WeightReplaced(s: string, pat: string, rep: string)
    requires |pat| > 0 && Weight(pat) == Weight(rep)
    ensures Weight(ReplaceAll(s, pat, rep)) == Weight(s)
    decreases |s|
  {
    if |s| >= |pat| {
      if s[..|pat|] == pat {
        assert s == pat + s[|pat|..];
        WeightAppend(pat, s[|pat|..]);
        WeightAppend(rep, ReplaceAll(s[|pat|..], pat, rep));
        WeightReplaced(s[|pat|..], pat, rep);
      } else {
        WeightReplaced(s[1..], pat, rep);
        WeightAppend([s[0]], ReplaceAll(s[1..], pat, rep));
      }
    }
  }

  lemma WeightUnescaped(s: string)
    ensures Weight(Unescape(s)) == Weight(s)
  {
    assert Weight("~1") == Weight("/") == 0 && Weight("~0") == Weight("~") == 0 by {
      assert Weight([]) == 0;
      assert "~1"[1..] == "1" && "~0"[1..] == "0";
    }
    WeightReplaced(s, "~1", "/");
    WeightReplaced(ReplaceAll(s, "~1", "/"), "~0", "~");
  }

  lemma Utf8CharWeight(c: char)
    ensures OctetsWeight(Utf8Char(c)) == CharWeight(c)
  {
    var b := Utf8Char(c);
    assert OctetsWeight([]) == 0;
    if |b| == 1 {
      assert b[1..] == [];
    } else {
      Continuations(b[1..]);
    }
  }

  lemma {:induction false} Continuations(bytes: seq<Byte>)
    requires forall i :: 0 <= i < |bytes| ==> Continuation(bytes[i])
    ensures OctetsWeight(bytes) == 0
  {
    if bytes != [] { Continuations(bytes[1..]); }
  }

  lemma {:induction false} WeightDecoded(bytes: seq<Byte>)
    requires Utf8Decode(bytes).Some?
    ensures Weight(Utf8Decode(bytes).value) == OctetsWeight(bytes)
    decreases |bytes|
  {
    if bytes != [] {
      var n := CharLength(bytes[0]);
      WeightDecoded(bytes[n..]);
      LeadWeight(bytes, n);
      SpelledWeight(bytes);
    }
  }

  /** Of the octets of one character only the first weighs anything. */
  lemma LeadWeight(bytes: seq<Byte>, n: nat)
    requires 1 <= n <= |bytes| && forall i :: 1 <= i < n ==> Continuation(bytes[i])
    ensures OctetsWeight(bytes) == OctetWeight(bytes[0]) + OctetsWeight(bytes[n..])
  {
    assert bytes[1..] == bytes[1..n] + bytes[n..];
    OctetsWeightAppend(bytes[1..n], bytes[n..]);
    Continuations(bytes[1..n]);
  }

  lemma SpelledWeight(bytes: seq<Byte>)
    requires bytes != [] && 1 <= CharLength(bytes[0]) <= |bytes| && Scalar(Spelled(bytes), CharLength(bytes[0]))
    ensures CharWeight(Spelled(bytes) as char) == OctetWeight(bytes[0])
  {
  }

  /** Every triplet decoded makes the weight smaller. */
  lemma {:induction false} OctetsLighter(s: string)
    ensures OctetsWeight(Octets(s)) <= Weight(s)
    ensures HasTriplet(s) ==> OctetsWeight(Octets(s)) < Weight(s)
    decreases |s|
  {
    if s == [] {
    } else if Triplet(s) {
      OctetsLighter(s[3..]);
      assert s == s[..3] + s[3..];
      WeightAppend(s[..3], s[3..]);
      TripletLighter(s);
      var b: Byte := 16 * HexValue(s[1]) + HexValue(s[2]);
      assert ([b] + Octets(s[3..]))[1..] == Octets(s[3..]);
    } else {
      OctetsLighter(s[1..]);
      OctetsWeightAppend(Utf8Char(s[0]), Octets(s[1..]));
      Utf8CharWeight(s[0]);
    }
  }

  lemma TripletLighter(s: string)
    requires Triplet(s)
    ensures OctetWeight(16 * HexValue(s[1]) + HexValue(s[2])) < Weight(s[..3])
  {
    assert s[..3] == ['%'] + [s[1]] + [s[2]];
    WeightAppend(['%'] + [s[1]], [s[2]]);
    WeightAppend(['%'], [s[1]]);
    assert Weight([]) == 0;
    assert forall c: char :: Weight([c]) == CharWeight(c) + Weight([c][1..]) == CharWeight(c);
    if 16 * HexValue(s[1]) + HexValue(s[2]) == '%' as int {
      assert s[1] == '2' && s[2] == '5';
    }
  }

  /** A name is read alike with and without decoding if and only if it holds no
      triplet: unescaping cannot make up for one. */
  lemma DecodingShowsIff(s: string)
    ensures HasTriplet(s) <==> !(Decoded(s).Some? && Unescape(Decoded(s).value) == Unescape(s))
  {
    if HasTriplet(s) {
      if Decoded(s).Some? {
        OctetsLighter(s);
        WeightDecoded(Octets(s));
        WeightUnescaped(s);
        WeightUnescaped(Decoded(s).value);
      }
    } else {
      DecodedPlain(s);
    }
  }

  // ------------------------------------------------------------------- fragments

  /** How the standard reads a reference within the same document. */
  function FragmentTokens(ref: string): Parsed
  {
    if ref == "" || ref[0] != '#' || !WellFormed(ref[1..]) then NotAPointer
    else match Decoded(ref[1..])
      case None => NotAPointer
      case Some(pointer) => ParsePointer(pointer)
  }

  /** One more token in front of a pointer, or of what is none. */
  lemma TokenInFront(token: string, pointer: string)
    requires pointer != "" && pointer[0] == '/'
    ensures ParsePointer("/" + Escape(token) + pointer) ==
            match ParsePointer(pointer) case Tokens(tokens) => Tokens([token] + tokens) case NotAPointer => NotAPointer
  {
    var p, parts := "/" + Escape(token) + pointer, Split(pointer[1..], '/');
    var whole := [Escape(token)] + parts;
    EscapeHidesSlash(token);
    FirstToken(Escape(token), pointer);
    assert Split(p[1..], '/') == whole;
    assert whole[1..] == parts;
    UnescapeEscape(token);
    EscapeWell(token);
    if ParsePointer(pointer).NotAPointer? {
      var i :| 0 <= i < |parts| && !WellEscaped(parts[i]);
      assert whole[i + 1] == parts[i];
    }
  }

  lemma FrontFirst(front: seq<string>, rest: string) returns (inner: string)
    requires front != []
    ensures inner == PointerOf(front[1..]) + "/" + rest && inner[0] == '/'
    ensures PointerOf(front) + "/" + rest == "/" + Escape(front[0]) + inner
  {
    var p := PointerOf(front[1..]);
    inner := p + "/" + rest;
    PointerSplits(front[1..]);
    assert "/" + Escape(front[0]) + p + "/" + rest == "/" + Escape(front[0]) + inner;
  }

  /** The tokens of a fixed path in front of those of a pointer. */
  function After(front: seq<string>, parsed: Parsed): Parsed
  {
    match parsed case Tokens(tokens) => Tokens(front + tokens) case NotAPointer => NotAPointer
  }

  lemma {:induction false} FrontTokens(front: seq<string>, rest: string, parsed: Parsed)
    requires ParsePointer("/" + rest) == parsed
    ensures ParsePointer(PointerOf(front) + "/" + rest) == After(front, parsed)
  {
    if front == [] {
      assert PointerOf(front) + "/" + rest == "/" + rest;
      if parsed.Tokens? { assert front + parsed.tokens == parsed.tokens; }
    } else {
      var inner := FrontFirst(front, rest);
      FrontTokens(front[1..], rest, parsed);
      TokenInFront(front[0], inner);
      if parsed.Tokens? { FirstInFront(front, parsed.tokens); }
    }
  }

  lemma FirstInFront(front: seq<string>, tail: seq<string>)
    requires front != []
    ensures [front[0]] + (front[1..] + tail) == front + tail
  {
  }

  /** A reference below a fixed path, read as a fragment. */
  lemma FragmentGoesOn(front: seq<string>, suffix: string)
    requires AllFragmentChars(PointerOf(front))
    ensures
      var ref := "#" + PointerOf(front) + "/" + suffix;
      if !WellFormed(suffix) || Decoded(suffix).None? then FragmentTokens(ref) == NotAPointer
      else FragmentTokens(ref) == After(front, ParsePointer("/" + Decoded(suffix).value))
  {
    var ref := "#" + PointerOf(front) + "/" + suffix;
    var path := PointerOf(front) + "/";
    assert ref[1..] == path + suffix;
    WellFormedAfter(path, suffix);
    DecodedAfter(path, suffix);
    if Decoded(suffix).Some? {
      FrontTokens(front, Decoded(suffix).value, ParsePointer("/" + Decoded(suffix).value));
    }
  }

  /** What follows the fixed path is read as the one name it unescapes to. */
  predicate OneName(suffix: string)
  {
    AllFragmentChars(suffix) && '/' !in suffix && WellEscaped(suffix)
  }

  /** ... which is exactly when it holds no slash, tildes only before `0` and `1`,
      and otherwise only characters a fragment may hold as themselves; a percent
      sign is none of these. */
  lemma OneNameIff(front: seq<string>, suffix: string)
    requires AllFragmentChars(PointerOf(front))
    ensures OneName(suffix) <==>
            FragmentTokens("#" + PointerOf(front) + "/" + suffix) == Tokens(front + [Unescape(suffix)])
  {
    FragmentGoesOn(front, suffix);
    if HasTriplet(suffix) {
      TripletIsNoName(front, suffix);
    } else {
      DecodedPlain(suffix);
      PlainWellFormed(suffix);
      WholePart(front, suffix, suffix);
    }
  }

  /** One part below the fixed path. */
  lemma WholePart(front: seq<string>, d: string, name: string)
    ensures After(front, ParsePointer("/" + d)) == Tokens(front + [Unescape(name)]) <==>
            '/' !in d && WellEscaped(d) && Unescape(d) == Unescape(name)
  {
    var parts := Split(d, '/');
    assert ("/" + d)[1..] == d;
    SplitWhole(d, '/');
    TailsDiffer(front, UnescapeEach(parts), Unescape(name));
    if '/' !in d {
      assert parts == [d];
      assert (forall i :: 0 <= i < |parts| ==> WellEscaped(parts[i])) <==> WellEscaped(d) by { assert parts[0] == d; }
      assert UnescapeEach(parts) == [Unescape(d)];
    }
  }

  lemma TripletNotPlain(suffix: string)
    requires HasTriplet(suffix)
    ensures !AllFragmentChars(suffix)
  {
    if '%' !in suffix { NoPercentNoTriplet(suffix); }
  }

  /** A suffix without triplets below the fixed path is the tokens it spells. */
  lemma FragmentReads(front: seq<string>, suffix: string, tokens: seq<string>)
    requires AllFragmentChars(PointerOf(front)) && AllFragmentChars(suffix)
    requires ParsePointer("/" + suffix) == Tokens(tokens)
    ensures FragmentTokens("#" + PointerOf(front) + "/" + suffix) == Tokens(front + tokens)
  {
    NoPercentNoTriplet(suffix);
    PlainWellFormed(suffix);
    DecodedPlain(suffix);
    FragmentGoesOn(front, suffix);
  }

  lemma TripletIsNoName(front: seq<string>, suffix: string)
    requires AllFragmentChars(PointerOf(front)) && HasTriplet(suffix)
    ensures !OneName(suffix)
    ensures FragmentTokens("#" + PointerOf(front) + "/" + suffix) != Tokens(front + [Unescape(suffix)])
  {
    TripletNotPlain(suffix);
    FragmentGoesOn(front, suffix);
    DecodingShowsIff(suffix);
    if Decoded(suffix).Some? { WholePart(front, Decoded(suffix).value, suffix); }
  }

  lemma TailsDiffer(front: seq<string>, tail: seq<string>, name: string)
    ensures front + tail == front + [name] <==> tail == [name]
  {
    if front + tail == front + [name] {
      assert (front + tail)[|front|..] == tail;
    }
  }

  /** What else than the one name such a suffix may be read as. */
  lemma OtherTokens(front: seq<string>, suffix: string) returns (tail: seq<string>)
    requires AllFragmentChars(PointerOf(front)) && !OneName(suffix)
    requires FragmentTokens("#" + PointerOf(front) + "/" + suffix).Tokens?
    ensures FragmentTokens("#" + PointerOf(front) + "/" + suffix).tokens == front + tail
    ensures tail != [] && tail != [Unescape(suffix)]
  {
    OneNameIff(front, suffix);
    FragmentGoesOn(front, suffix);
    tail := ParsePointer("/" + Decoded(suffix).value).tokens;
  }

  // ----------------------------------------------------- names that escape well

  /** A component name whose escape a fragment may hold as it is: tildes and
      slashes are among these characters, percent signs and spaces are not. */
  predicate PlainName(name: string)
  {
    AllFragmentChars(name)
  }

  lemma {:induction false} EscapedFragmentChars(s: string)
    ensures AllFragmentChars(EscapedChars(s)) <==> AllFragmentChars(s)
  {
    if s != [] {
      EscapedFragmentChars(s[1..]);
      var e := EscapedChars(s);
      assert e == EscapedChar(s[0]) + EscapedChars(s[1..]) && s == [s[0]] + s[1..];
      assert forall c :: c in EscapedChar(s[0]) ==> FragmentChar(c) || c == s[0];
    }
  }

  /** The escape of a name is one name by the standard exactly for such names. */
  lemma EscapedOneName(name: string)
    ensures OneName(Escape(name)) <==> PlainName(name)
  {
    EscapeByChars(name);
    EscapedFragmentChars(name);
    EscapeHidesSlash(name);
    EscapeWell(name);
  }

  lemma {:induction false} ReplacedChars(s: string, pat: string, rep: string)
    requires |pat| > 0 && AllFragmentChars(s) && AllFragmentChars(rep)
    ensures AllFragmentChars(ReplaceAll(s, pat, rep))
    decreases |s|
  {
    if |s| >= |pat| {
      if s[..|pat|] == pat {
        ReplacedChars(s[|pat|..], pat, rep);
      } else {
        assert s[0] in s;
        ReplacedChars(s[1..], pat, rep);
      }
    }
  }

  /** What such a string unescapes to is such a name. */
  lemma UnescapedPlain(s: string)
    requires AllFragmentChars(s)
    ensures PlainName(Unescape(s))
  {
    ReplacedChars(s, "~1", "/");
    ReplacedChars(ReplaceAll(s, "~1", "/"), "~0", "~");
  }
}
