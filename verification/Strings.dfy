/** The parts of Python's `str` that the modelled code relies on: `replace`,
    `split`, `join`, decimal rendering and code-point order. */
module Strings {

  // ---------------------------------------------------------------- replace

  /** `s.replace(pat, rep)`: one left-to-right scan, matches do not overlap. */
  function ReplaceAll(s: string, pat: string, rep: string): string
    requires |pat| > 0
    decreases |s|
  {
    if |s| < |pat| then s
    else if s[..|pat|] == pat then rep + ReplaceAll(s[|pat|..], pat, rep)
    else [s[0]] + ReplaceAll(s[1..], pat, rep)
  }

  /** Replace one character by a string, wherever it occurs. */
  function ReplaceChar(s: string, c: char, rep: string): string
  {
    if s == [] then []
    else (if s[0] == c then rep else [s[0]]) + ReplaceChar(s[1..], c, rep)
  }

  lemma {:induction false} ReplaceAllIsReplaceChar(s: string, c: char, rep: string)
    ensures ReplaceAll(s, [c], rep) == ReplaceChar(s, c, rep)
  {
    if s != [] {
      assert s[..1] == [s[0]];
      ReplaceAllIsReplaceChar(s[1..], c, rep);
    }
  }

  // ---------------------------------------------------------- split and join

  /** `s.split(sep)` for a one-character separator: never the empty list. */
  function Split(s: string, sep: char): (parts: seq<string>)
    ensures |parts| > 0
  {
    if s == [] then [[]]
    else
      var rest := Split(s[1..], sep);
      if s[0] == sep then [[]] + rest
      else [[s[0]] + rest[0]] + rest[1..]
  }

  /** `sep.join(parts)` */
  function Join(parts: seq<string>, sep: char): string
  {
    if |parts| == 0 then []
    else if |parts| == 1 then parts[0]
    else parts[0] + [sep] + Join(parts[1..], sep)
  }

  lemma {:induction false} JoinSplit(s: string, sep: char)
    ensures Join(Split(s, sep), sep) == s
  {
    if s != [] {
      JoinSplit(s[1..], sep);
      var rest := Split(s[1..], sep);
      if s[0] == sep {
        assert ([[]] + rest)[1..] == rest;
        assert s == [sep] + s[1..];
      } else {
        var all := [[s[0]] + rest[0]] + rest[1..];
        assert all[1..] == rest[1..];
        assert s == [s[0]] + s[1..];
      }
    }
  }

  lemma {:induction false} SplitPartsAreWhole(s: string, sep: char)
    ensures forall i :: 0 <= i < |Split(s, sep)| ==> sep !in Split(s, sep)[i]
  {
    if s != [] { SplitPartsAreWhole(s[1..], sep); }
  }

  /** A string without the separator is a single part. */
  lemma {:induction false} SplitWhole(s: string, sep: char)
    ensures sep !in s <==> Split(s, sep) == [s]
    ensures sep in s <==> |Split(s, sep)| > 1
  {
    if s != [] {
      SplitWhole(s[1..], sep);
      assert s == [s[0]] + s[1..];
    }
  }

  lemma {:induction false} SplitCons(part: string, rest: string, sep: char)
    requires sep !in part
    ensures Split(part + [sep] + rest, sep) == [part] + Split(rest, sep)
  {
    if part == [] {
      assert (part + [sep] + rest)[1..] == rest;
    } else {
      SplitCons(part[1..], rest, sep);
      assert (part + [sep] + rest)[1..] == part[1..] + [sep] + rest;
      assert part == [part[0]] + part[1..];
    }
  }

  lemma {:induction false} SplitJoin(parts: seq<string>, sep: char)
    requires |parts| > 0
    requires forall i :: 0 <= i < |parts| ==> sep !in parts[i]
    ensures Split(Join(parts, sep), sep) == parts
  {
    if |parts| == 1 {
      SplitWhole(parts[0], sep);
    } else {
      SplitJoin(parts[1..], sep);
      SplitCons(parts[0], Join(parts[1..], sep), sep);
    }
  }

  // ------------------------------------------------------------ concatenation

  lemma Associative<T>(a: seq<T>, b: seq<T>, c: seq<T>)
    ensures a + (b + c) == (a + b) + c
  {
  }

  // ------------------------------------------------------------- decimals

  function DigitChar(d: nat): (c: char)
    requires d < 10
    ensures '0' <= c <= '9'
  {
    ('0' as int + d) as char
  }

  /** `str(n)` for a list index. */
  function Decimal(n: nat): (s: string)
    ensures |s| > 0
    ensures forall i :: 0 <= i < |s| ==> '0' <= s[i] <= '9'
  {
    if n < 10 then [DigitChar(n)] else Decimal(n / 10) + [DigitChar(n % 10)]
  }

  /** The number a string of digits spells; `-1` when it is not all digits. */
  function DecimalValue(s: string): int
  {
    if s == [] then 0
    else
      var c := s[|s| - 1];
      var front := DecimalValue(s[..|s| - 1]);
      if front < 0 || !('0' <= c <= '9') then -1
      else 10 * front + (c as int - '0' as int)
  }

  lemma {:induction false} DecimalRoundTrip(n: nat)
    ensures DecimalValue(Decimal(n)) == n
  {
    if n >= 10 {
      DecimalRoundTrip(n / 10);
      var s := Decimal(n / 10) + [DigitChar(n % 10)];
      assert s[..|s| - 1] == Decimal(n / 10);
    } else {
      var s := [DigitChar(n)];
      assert s[..|s| - 1] == [];
    }
  }

  // ----------------------------------------------------- code-point order

  /** Python's `<=` on strings: lexicographic by code point. */
  predicate LexLeq(a: string, b: string)
  {
    if a == [] then true
    else if b == [] then false
    else if a[0] != b[0] then a[0] < b[0]
    else LexLeq(a[1..], b[1..])
  }

  lemma {:induction false} LexTotal(a: string, b: string)
    ensures LexLeq(a, b) || LexLeq(b, a)
    ensures LexLeq(a, b) && LexLeq(b, a) ==> a == b
  {
    if a != [] && b != [] && a[0] == b[0] {
      LexTotal(a[1..], b[1..]);
      assert a == [a[0]] + a[1..] && b == [b[0]] + b[1..];
    }
  }

  lemma {:induction false} LexTransitive(a: string, b: string, c: string)
    requires LexLeq(a, b) && LexLeq(b, c)
    ensures LexLeq(a, c)
  {
    if a != [] && b != [] && c != [] && a[0] == b[0] == c[0] {
      LexTransitive(a[1..], b[1..], c[1..]);
    }
  }

  // -------------------------------------------------------------- sorted keys

  lemma MinKeyExists(s: set<string>)
    requires s != {}
    ensures exists k :: k in s && forall m :: m in s ==> LexLeq(k, m)
  {
    var x :| x in s;
    var rest := s - {x};
    if rest == {} {
      LexTotal(x, x);
      assert s == {x};
    } else {
      MinKeyExists(rest);
      var k :| k in rest && forall m :: m in rest ==> LexLeq(k, m);
      LexTotal(k, x);
      var least := if LexLeq(x, k) then x else k;
      forall m | m in s ensures LexLeq(least, m) {
        LexTotal(m, m);
        if m != x && least == x { LexTransitive(x, k, m); }
      }
    }
  }

  lemma MinKeyUnique(s: set<string>)
    ensures forall a, b :: a in s && b in s && LexLeq(a, b) && LexLeq(b, a) ==> a == b
  {
    forall a, b | a in s && b in s && LexLeq(a, b) && LexLeq(b, a) ensures a == b { LexTotal(a, b); }
  }

  function MinKey(s: set<string>): (k: string)
    requires s != {}
    ensures k in s && forall m :: m in s ==> LexLeq(k, m)
  {
    MinKeyExists(s);
    MinKeyUnique(s);
    var k :| k in s && forall m :: m in s ==> LexLeq(k, m);
    k
  }

  /** `sorted(keys)` */
  function SortedKeys(s: set<string>): (keys: seq<string>)
    ensures forall k :: k in keys <==> k in s
    ensures forall i, j :: 0 <= i < j < |keys| ==> keys[i] != keys[j] && LexLeq(keys[i], keys[j])
  {
    if s == {} then []
    else
      var k := MinKey(s);
      [k] + SortedKeys(s - {k})
  }
}
