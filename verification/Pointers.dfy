/** JSON Pointers: the escaping used by the bundler, the schema diff and the
    non-JSON finder, against the grammar of RFC 6901 sections 3 and 4. */
module Pointers {
  import opened Strings

  /** `_escape_pointer`: two `replace` calls, tilde first. */
  function Escape(s: string): string
  {
    ReplaceAll(ReplaceAll(s, "~", "~0"), "/", "~1")
  }

  /** `_unescape_pointer`: two `replace` calls, slash first. */
  function Unescape(s: string): string
  {
    ReplaceAll(ReplaceAll(s, "~1", "/"), "~0", "~")
  }

  /** What escaping means, character by character (RFC 6901 section 3). */
  function EscapedChar(c: char): string
  {
    if c == '~' then "~0" else if c == '/' then "~1" else [c]
  }

  function EscapedChars(s: string): string
  {
    if s == [] then [] else EscapedChar(s[0]) + EscapedChars(s[1..])
  }

  lemma {:induction false} ReplaceCharAppend(a: string, b: string, c: char, rep: string)
    ensures ReplaceChar(a + b, c, rep) == ReplaceChar(a, c, rep) + ReplaceChar(b, c, rep)
  {
    if a == [] {
      assert a + b == b;
    } else {
      assert (a + b)[1..] == a[1..] + b;
      ReplaceCharAppend(a[1..], b, c, rep);
    }
  }

  lemma {:induction false} EscapeByChars(s: string)
    ensures Escape(s) == EscapedChars(s)
  {
    ReplaceAllIsReplaceChar(s, '~', "~0");
    ReplaceAllIsReplaceChar(ReplaceChar(s, '~', "~0"), '/', "~1");
    if s != [] {
      EscapeByChars(s[1..]);
      ReplaceAllIsReplaceChar(s[1..], '~', "~0");
      ReplaceAllIsReplaceChar(ReplaceChar(s[1..], '~', "~0"), '/', "~1");
      var head := if s[0] == '~' then "~0" else [s[0]];
      ReplaceCharAppend(head, ReplaceChar(s[1..], '~', "~0"), '/', "~1");
      assert ReplaceChar(head, '/', "~1") == EscapedChar(s[0]) by {
        if s[0] == '~' {
          assert head[1..] == "0" && "0"[1..] == [];
          assert ReplaceChar("0", '/', "~1") == "0" + ReplaceChar([], '/', "~1");
        } else {
          assert head[1..] == [];
        }
      }
    }
  }

  /** First pass of unescaping: only the tilde is still escaped. */
  lemma {:induction false} UnescapeSlashes(s: string)
    ensures ReplaceAll(EscapedChars(s), "~1", "/") == ReplaceChar(s, '~', "~0")
  {
    if s != [] {
      UnescapeSlashes(s[1..]);
      SlashesOnce(s[0], EscapedChars(s[1..]));
    }
  }

  /** The first pass over one escaped character, whatever follows. */
  lemma SlashesOnce(c: char, rest: string)
    ensures ReplaceAll(EscapedChar(c) + rest, "~1", "/") ==
            (if c == '~' then "~0" else [c]) + ReplaceAll(rest, "~1", "/")
  {
    var e := EscapedChar(c) + rest;
    if c == '~' {
      assert e[1..] == "0" + rest;
      assert e[..2] == "~0";
      if |rest| > 0 { assert (e[1..])[..2] == ['0', rest[0]]; }
      assert (e[1..])[1..] == rest;
    } else if c == '/' {
      assert e[..2] == "~1" && e[2..] == rest;
    } else {
      assert e[1..] == rest;
      if |e| >= 2 { assert e[..2][0] == c; }
    }
  }

  /** Second pass: the tilde comes back. */
  lemma {:induction false} UnescapeTildes(s: string)
    ensures ReplaceAll(ReplaceChar(s, '~', "~0"), "~0", "~") == s
  {
    if s != [] {
      UnescapeTildes(s[1..]);
      var e, rest := ReplaceChar(s, '~', "~0"), ReplaceChar(s[1..], '~', "~0");
      if s[0] == '~' {
        assert e[..2] == "~0" && e[2..] == rest;
      } else {
        assert e[1..] == rest;
        if |e| >= 2 { assert e[..2][0] == s[0]; }
      }
      assert s == [s[0]] + s[1..];
    }
  }

  lemma {:induction false} UnescapeEscape(s: string)
    ensures Unescape(Escape(s)) == s
  {
    EscapeByChars(s);
    UnescapeSlashes(s);
    UnescapeTildes(s);
  }

  lemma {:induction false} EscapeInjective(a: string, b: string)
    requires Escape(a) == Escape(b)
    ensures a == b
  {
    UnescapeEscape(a);
    UnescapeEscape(b);
  }

  /** Unescaping does not invert: a stray tilde is passed through, so two
      different strings can unescape alike. */
  lemma UnescapeNotInjective()
    ensures Unescape("~") == Unescape("~0") && "~" != "~0"
  {
    assert "~0"[..2] == "~0" && "~0"[2..] == [];
    assert ReplaceAll("~0", "~1", "/") == "~0" by {
      assert "~0"[1..] == "0";
    }
  }

  lemma {:induction false} EscapeHidesSlash(s: string)
    ensures '/' !in Escape(s)
  {
    EscapeByChars(s);
    if s != [] {
      EscapeHidesSlash(s[1..]);
      EscapeByChars(s[1..]);
    }
  }

  lemma {:induction false} NothingToReplace(s: string, pat: string, rep: string)
    requires |pat| > 0 && pat[0] !in s
    ensures ReplaceAll(s, pat, rep) == s
  {
    if |s| >= |pat| {
      assert s[..|pat|][0] == s[0];
      NothingToReplace(s[1..], pat, rep);
      assert s == [s[0]] + s[1..];
    }
  }

  lemma UnescapePlain(s: string)
    requires '~' !in s
    ensures Unescape(s) == s
  {
    NothingToReplace(s, "~1", "/");
    NothingToReplace(s, "~0", "~");
  }

  lemma EscapePlain(s: string)
    requires '~' !in s && '/' !in s
    ensures Escape(s) == s
  {
    NothingToReplace(s, "~", "~0");
    NothingToReplace(s, "/", "~1");
  }

  // -------------------------------------------------- whole pointers

  /** One more reference token: `f"{path}/{escape(token)}"`. */
  function Child(path: string, token: string): string
  {
    path + "/" + Escape(token)
  }

  /** `_pointer`: a sequence of tokens as a pointer. */
  function PointerOf(tokens: seq<string>): string
  {
    if tokens == [] then "" else "/" + Escape(tokens[0]) + PointerOf(tokens[1..])
  }

  function UnescapeEach(parts: seq<string>): (r: seq<string>)
    ensures |r| == |parts|
    ensures forall i :: 0 <= i < |parts| ==> r[i] == Unescape(parts[i])
  {
    if parts == [] then [] else [Unescape(parts[0])] + UnescapeEach(parts[1..])
  }

  datatype Parsed = Tokens(tokens: seq<string>) | NotAPointer

  /** A tilde stands only before `0` or `1` (RFC 6901 section 3). */
  predicate WellEscaped(part: string)
  {
    part != "" ==>
      && (part[0] == '~' ==> |part| >= 2 && (part[1] == '0' || part[1] == '1'))
      && WellEscaped(part[1..])
  }

  /** RFC 6901 sections 3 and 4: the empty pointer, or `/`-prefixed tokens, each
      well escaped and then unescaped. */
  function ParsePointer(p: string): Parsed
  {
    if p == "" then Tokens([])
    else if p[0] != '/' then NotAPointer
    else
      var parts := Split(p[1..], '/');
      if forall i :: 0 <= i < |parts| ==> WellEscaped(parts[i]) then Tokens(UnescapeEach(parts)) else NotAPointer
  }

  lemma {:induction false} EscapedCharsWell(s: string)
    ensures WellEscaped(EscapedChars(s))
  {
    if s != [] {
      var e := EscapedChars(s);
      EscapedCharsWell(s[1..]);
      if |EscapedChar(s[0])| == 1 {
        assert e[1..] == EscapedChars(s[1..]);
      } else {
        assert e[1..][1..] == EscapedChars(s[1..]);
      }
    }
  }

  /** What escaping gives is well escaped. */
  lemma EscapeWell(s: string)
    ensures WellEscaped(Escape(s))
  {
    EscapeByChars(s);
    EscapedCharsWell(s);
  }

  lemma {:induction false} PlainWell(s: string)
    requires '~' !in s
    ensures WellEscaped(s)
  {
    if s != [] { PlainWell(s[1..]); }
  }

  lemma FirstToken(head: string, rest: string)
    requires '/' !in head
    requires rest == "" || rest[0] == '/'
    ensures
      var body := ("/" + head + rest)[1..];
      Split(body, '/') == [head] + (if rest == "" then [] else Split(rest[1..], '/'))
  {
    assert ("/" + head + rest)[1..] == head + rest;
    if rest == "" {
      assert head + rest == head;
      SplitWhole(head, '/');
    } else {
      assert head + rest == head + ['/'] + rest[1..];
      SplitCons(head, rest[1..], '/');
    }
  }

  lemma {:induction false} PointerSplits(tokens: seq<string>)
    ensures tokens != [] ==> PointerOf(tokens) != "" && PointerOf(tokens)[0] == '/'
    ensures tokens != [] ==> Split(PointerOf(tokens)[1..], '/') == EscapeEach(tokens)
    ensures tokens == [] ==> PointerOf(tokens) == ""
  {
    if tokens != [] {
      EscapeHidesSlash(tokens[0]);
      PointerSplits(tokens[1..]);
      FirstToken(Escape(tokens[0]), PointerOf(tokens[1..]));
    }
  }

  function EscapeEach(tokens: seq<string>): (r: seq<string>)
    ensures |r| == |tokens|
    ensures forall i :: 0 <= i < |tokens| ==> r[i] == Escape(tokens[i])
  {
    if tokens == [] then [] else [Escape(tokens[0])] + EscapeEach(tokens[1..])
  }

  lemma {:induction false} UnescapeEscapeEach(tokens: seq<string>)
    ensures UnescapeEach(EscapeEach(tokens)) == tokens
  {
    if tokens != [] {
      UnescapeEscape(tokens[0]);
      UnescapeEscapeEach(tokens[1..]);
      assert EscapeEach(tokens)[1..] == EscapeEach(tokens[1..]);
    }
  }

  /** Every pointer the code builds reads back as the tokens it was built from. */
  lemma {:induction false} PointerRoundTrip(tokens: seq<string>)
    ensures ParsePointer(PointerOf(tokens)) == Tokens(tokens)
  {
    if tokens != [] {
      PointerSplits(tokens);
      UnescapeEscapeEach(tokens);
      forall i | 0 <= i < |tokens| ensures WellEscaped(EscapeEach(tokens)[i]) { EscapeWell(tokens[i]); }
    }
  }

  lemma {:induction false} PointerOfInjective(a: seq<string>, b: seq<string>)
    requires PointerOf(a) == PointerOf(b)
    ensures a == b
  {
    PointerRoundTrip(a);
    PointerRoundTrip(b);
  }

  /** Extending a pointer by `Child` is extending the token list. */
  lemma {:induction false} PointerOfSnoc(tokens: seq<string>, token: string)
    ensures PointerOf(tokens + [token]) == Child(PointerOf(tokens), token)
  {
    if tokens == [] {
      assert (tokens + [token])[1..] == [];
    } else {
      assert (tokens + [token])[1..] == tokens[1..] + [token];
      PointerOfSnoc(tokens[1..], token);
    }
  }

  // ------------------------------------------------------- things said of places

  /** Something said of the place at these tokens; and the same, printed. */
  datatype Placed<+K> = Placed(tokens: seq<string>, kind: K)

  datatype Printed<+K> = Printed(path: string, kind: K)

  function Under<K>(token: string, items: seq<Placed<K>>): seq<Placed<K>>
  {
    seq(|items|, i requires 0 <= i < |items| => Placed([token] + items[i].tokens, items[i].kind))
  }

  /** Printed below a path. */
  function Render<K>(path: string, items: seq<Placed<K>>): seq<Printed<K>>
  {
    seq(|items|, i requires 0 <= i < |items| => Printed(path + PointerOf(items[i].tokens), items[i].kind))
  }

  lemma RenderUnder<K>(path: string, token: string, items: seq<Placed<K>>)
    ensures Render(path, Under(token, items)) == Render(Child(path, token), items)
  {
    forall i | 0 <= i < |items|
      ensures path + PointerOf([token] + items[i].tokens) == Child(path, token) + PointerOf(items[i].tokens)
    {
      assert ([token] + items[i].tokens)[1..] == items[i].tokens;
    }
  }

  lemma RenderAppend<K>(path: string, a: seq<Placed<K>>, b: seq<Placed<K>>)
    ensures Render(path, a + b) == Render(path, a) + Render(path, b)
  {
  }
}
