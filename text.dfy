/** Character classes and string operations of the three source languages (Python, PHP,
    TypeScript), written out over `seq<char>`. */
module Text {
  import opened Wrappers

  predicate IsDigit(c: char) { '0' <= c <= '9' }
  predicate IsUpper(c: char) { 'A' <= c <= 'Z' }
  predicate IsLower(c: char) { 'a' <= c <= 'z' }
  predicate IsLetter(c: char) { IsUpper(c) || IsLower(c) }
  predicate IsAlnum(c: char) { IsLetter(c) || IsDigit(c) }

  predicate AllDigits(s: string) { forall k :: 0 <= k < |s| ==> IsDigit(s[k]) }

  /** ASCII lower-casing, as PHP's `strtolower` does. */
  function LowerChar(c: char): char { if IsUpper(c) then (c as int + 32) as char else c }

  function Lower(s: string): (r: string)
    ensures |r| == |s|
    ensures forall k :: 0 <= k < |s| ==> r[k] == LowerChar(s[k])
  {
    if s == [] then [] else [LowerChar(s[0])] + Lower(s[1..])
  }

  /** Python's `str.lower` for a comparison with an ASCII word: the ASCII capitals and U+212A
      KELVIN SIGN, whose lower case is `k`, are lowered. Every other character Python changes
      lowers to text that is not plain ASCII, so keeping it leaves every such comparison as it is. */
  function PyLowerChar(c: char): char { if c == '\U{212A}' then 'k' else LowerChar(c) }

  function PyLower(s: string): (r: string)
    ensures |r| == |s|
    ensures forall k :: 0 <= k < |s| ==> r[k] == PyLowerChar(s[k])
  {
    if s == [] then [] else [PyLowerChar(s[0])] + PyLower(s[1..])
  }

  /** Python's `str.isspace` (the characters `str.strip`, `int()` and regex `\s` treat as space). */
  predicate IsPySpace(c: char) {
    var n := c as int;
    (9 <= n <= 13) || (28 <= n <= 32) || n == 0x85 || n == 0xA0 || n == 0x1680
    || (0x2000 <= n <= 0x200A) || n == 0x2028 || n == 0x2029 || n == 0x202F || n == 0x205F
    || n == 0x3000
  }

  /** The characters PHP's `trim` removes by default: space, \t, \n, \r, \0 and \x0B. */
  predicate IsPhpTrimChar(c: char) {
    var n := c as int;
    n == 32 || n == 9 || n == 10 || n == 13 || n == 0 || n == 11
  }

  /** ECMAScript WhiteSpace and LineTerminator, the characters `String.prototype.trim` removes. */
  predicate IsJsSpace(c: char) {
    var n := c as int;
    (9 <= n <= 13) || n == 32 || n == 0xA0 || n == 0xFEFF || n == 0x1680
    || (0x2000 <= n <= 0x200A) || n == 0x2028 || n == 0x2029 || n == 0x202F || n == 0x205F
    || n == 0x3000
  }

  function TrimLeft(s: string, ws: char -> bool): (r: string)
    ensures |r| <= |s| && r == s[|s| - |r|..]
    ensures r == [] || !ws(r[0])
    ensures forall k :: 0 <= k < |s| - |r| ==> ws(s[k])
  {
    if s != [] && ws(s[0]) then TrimLeft(s[1..], ws) else s
  }

  function TrimRight(s: string, ws: char -> bool): (r: string)
    ensures |r| <= |s| && r == s[..|r|]
    ensures r == [] || !ws(r[|r| - 1])
    ensures forall k :: |r| <= k < |s| ==> ws(s[k])
  {
    if s != [] && ws(s[|s| - 1]) then TrimRight(s[..|s| - 1], ws) else s
  }

  /** Removes the leading and trailing characters that satisfy `ws`. */
  function Trim(s: string, ws: char -> bool): string {
    TrimRight(TrimLeft(s, ws), ws)
  }

  function PyStrip(s: string): string { Trim(s, IsPySpace) }
  function PhpTrim(s: string): string { Trim(s, IsPhpTrimChar) }
  function JsTrim(s: string): string { Trim(s, IsJsSpace) }

  /** A string that neither starts nor ends with a `ws` character is its own trim. */
  lemma TrimOfTrimmed(s: string, ws: char -> bool)
    requires s == [] || (!ws(s[0]) && !ws(s[|s| - 1]))
    ensures Trim(s, ws) == s
  {
  }

  /** Trimming is idempotent. */
  lemma TrimIdempotent(s: string, ws: char -> bool)
    ensures Trim(Trim(s, ws), ws) == Trim(s, ws)
  {
    var l := TrimLeft(s, ws);
    var t := TrimRight(l, ws);
    if t != [] {
      assert t[0] == l[0];
    }
    TrimOfTrimmed(t, ws);
  }

  /** One space on each side of a stripped string is removed again by `str.strip`. */
  lemma StripPadded(s: string)
    requires s == [] || (!IsPySpace(s[0]) && !IsPySpace(s[|s| - 1]))
    ensures PyStrip([' '] + s + [' ']) == s
  {
    var l := [' '] + s + [' '];
    assert l[1..] == s + [' '];
    if s != [] {
      assert (s + [' '])[..|s|] == s;
    }
  }

  predicate StartsWith(s: string, prefix: string) {
    |prefix| <= |s| && s[..|prefix|] == prefix
  }

  /** A string that starts with `prefix` agrees with it on every position of `prefix`. */
  lemma StartsWithAt(s: string, prefix: string, i: nat)
    requires StartsWith(s, prefix) && i < |prefix|
    ensures s[i] == prefix[i]
  {
    assert s[..|prefix|][i] == s[i];
  }

  /** PHP `str_contains` and JavaScript `includes`: the needle occurs somewhere in `s`. */
  predicate ContainsSub(s: string, needle: string) {
    exists i :: 0 <= i <= |s| - |needle| && OccursAt(s, needle, i)
  }

  predicate OccursAt(s: string, needle: string, i: int)
    requires 0 <= i <= |s| - |needle|
  {
    s[i..i + |needle|] == needle
  }

  /** The first index of `c` in `s`. */
  function IndexOf(s: string, c: char): (r: Option<nat>)
    ensures r.None? <==> c !in s
    ensures r.Some? ==> r.value < |s| && s[r.value] == c && c !in s[..r.value]
  {
    if s == [] then None
    else if s[0] == c then Some(0)
    else match IndexOf(s[1..], c)
      case None => None
      case Some(i) => assert s[1..][..i] == s[1..i + 1]; Some(i + 1)
  }

  /** Python's `s.split(c, 1)` when it yields two parts: the text before the first `c` and the
      text after it; `None` when `c` does not occur (the split then yields one part). */
  function SplitOnce(s: string, c: char): (r: Option<(string, string)>)
    ensures r.None? <==> c !in s
    ensures r.Some? ==> s == r.value.0 + [c] + r.value.1 && c !in r.value.0
  {
    match IndexOf(s, c)
    case None => None
    case Some(i) => assert s == s[..i] + [c] + s[i + 1..]; Some((s[..i], s[i + 1..]))
  }

  /** PHP `implode($glue, $parts)`, JavaScript `parts.join(glue)`. */
  function Implode(glue: string, parts: seq<string>): string {
    if parts == [] then ""
    else if |parts| == 1 then parts[0]
    else parts[0] + glue + Implode(glue, parts[1..])
  }

  /** Splitting at every `c` (PHP `explode`, JavaScript `split`); there is always one part more
      than there are `c`s, so at least one. */
  function Split(s: string, c: char): (r: seq<string>)
    ensures |r| >= 1
    decreases |s|
  {
    match SplitOnce(s, c)
    case None => [s]
    case Some((head, tail)) => [head] + Split(tail, c)
  }

  /** Splitting the joined parts gives them back when no part holds the separator. */
  lemma {:induction false} SplitOfImplode(parts: seq<string>, c: char)
    requires |parts| >= 1 && forall k :: 0 <= k < |parts| ==> c !in parts[k]
    ensures Split(Implode([c], parts), c) == parts
  {
    if |parts| == 1 {
      assert Implode([c], parts) == parts[0];
    } else {
      var rest := Implode([c], parts[1..]);
      assert Implode([c], parts) == parts[0] + [c] + rest;
      SplitOnceOf(parts[0], c, rest);
      SplitOfImplode(parts[1..], c);
    }
  }

  /** The first `c` of `a + [c] + b` is the one after `a` when `a` has none. */
  lemma {:induction false} IndexOfFirst(a: string, c: char, b: string)
    requires c !in a
    ensures IndexOf(a + [c] + b, c) == Some(|a|)
  {
    var s := a + [c] + b;
    if a == [] {
      assert s[0] == c;
    } else {
      assert s[0] == a[0] && a[0] in a;
      assert s[1..] == a[1..] + [c] + b;
      IndexOfFirst(a[1..], c, b);
    }
  }

  lemma SplitOnceOf(a: string, c: char, b: string)
    requires c !in a
    ensures SplitOnce(a + [c] + b, c) == Some((a, b))
  {
    var s := a + [c] + b;
    IndexOfFirst(a, c, b);
    assert s[..|a|] == a && s[|a| + 1..] == b;
  }

  function DigitValue(c: char): nat
    requires IsDigit(c)
  {
    c as int - '0' as int
  }

  function DigitChar(d: nat): (c: char)
    requires d < 10
    ensures IsDigit(c) && DigitValue(c) == d
  {
    ('0' as int + d) as char
  }

  /** The value of a decimal digit string, most significant digit first. */
  function DecValue(ds: string): nat
    requires AllDigits(ds)
  {
    if ds == [] then 0 else DecValue(ds[..|ds| - 1]) * 10 + DigitValue(ds[|ds| - 1])
  }

  /** Decimal rendering of a natural number without leading zeros (Python `str`, PHP `(string)`,
      f-string interpolation). */
  function NatToDecimal(n: nat): (r: string)
    ensures |r| > 0 && AllDigits(r)
    ensures '-' !in r && '@' !in r
  {
    if n < 10 then [DigitChar(n)] else NatToDecimal(n / 10) + [DigitChar(n % 10)]
  }

  function IntToDecimal(i: int): string {
    if i < 0 then "-" + NatToDecimal(-i) else NatToDecimal(i)
  }

  lemma {:induction false} DecValueOfNatToDecimal(n: nat)
    ensures DecValue(NatToDecimal(n)) == n
  {
    if n >= 10 {
      var r := NatToDecimal(n);
      assert r[..|r| - 1] == NatToDecimal(n / 10);
      DecValueOfNatToDecimal(n / 10);
    }
  }

  /** The decimal rendering of a number below 1000 has at most three digits, and it starts with
      `0` only for 0 itself. */
  lemma NatToDecimalShape(n: nat)
    requires n < 1000
    ensures |NatToDecimal(n)| <= 3
    ensures NatToDecimal(n)[0] == '0' ==> n == 0
  {
    if n >= 10 {
      var m := n / 10;
      if m >= 10 {
        assert NatToDecimal(m) == NatToDecimal(m / 10) + [DigitChar(m % 10)];
        assert NatToDecimal(m)[0] == DigitChar(m / 10);
      }
      assert NatToDecimal(n)[0] == NatToDecimal(m)[0];
    }
  }

  /** Python accepts single underscores between digits in `int()`. */
  predicate ValidUnderscored(t: string) {
    |t| > 0 && IsDigit(t[0]) && IsDigit(t[|t| - 1])
    && (forall k :: 0 <= k < |t| ==> IsDigit(t[k]) || t[k] == '_')
    && forall k :: 0 <= k < |t| ==>
         IsDigit(t[k]) || (t[k] == '_' && 0 < k < |t| - 1 && IsDigit(t[k - 1]) && IsDigit(t[k + 1]))
  }

  function RemoveUnderscores(t: string): (r: string)
    requires forall k :: 0 <= k < |t| ==> IsDigit(t[k]) || t[k] == '_'
    ensures AllDigits(r)
    ensures AllDigits(t) ==> r == t
  {
    if t == [] then []
    else (if t[0] == '_' then [] else [t[0]]) + RemoveUnderscores(t[1..])
  }

  function UnderscoredDigits(t: string): Option<nat> {
    if ValidUnderscored(t) then Some(DecValue(RemoveUnderscores(t))) else None
  }

  /** Python's `int()` applied to a string: surrounding white space, an optional sign, then
      ASCII digits with single underscores between them; `None` where `int()` raises ValueError. */
  function PyInt(s: string): Option<int> {
    SignedDigits(PyStrip(s))
  }

  /** An optional sign followed by digits with single underscores between them. */
  function SignedDigits(t: string): Option<int> {
    var signed := t != [] && (t[0] == '+' || t[0] == '-');
    match UnderscoredDigits(if signed then t[1..] else t)
    case None => None
    case Some(n) => Some(if signed && t[0] == '-' then -(n as int) else n as int)
  }

  lemma UnderscoredDigitsOfDecimal(n: nat)
    ensures UnderscoredDigits(NatToDecimal(n)) == Some(n)
  {
    var ds := NatToDecimal(n);
    assert ValidUnderscored(ds);
    DecValueOfNatToDecimal(n);
  }

  lemma SignedDigitsOfNegative(n: nat)
    requires n > 0
    ensures SignedDigits("-" + NatToDecimal(n)) == Some(-(n as int))
  {
    var ds := NatToDecimal(n);
    var t := "-" + ds;
    assert t != [] && t[0] == '-' && t[1..] == ds;
    UnderscoredDigitsOfDecimal(n);
    assert UnderscoredDigits(t[1..]) == Some(n);
  }

  lemma SignedDigitsOfNatural(n: nat)
    ensures SignedDigits(NatToDecimal(n)) == Some(n as int)
  {
    var ds := NatToDecimal(n);
    assert IsDigit(ds[0]);
    UnderscoredDigitsOfDecimal(n);
  }

  lemma SignedDigitsOfDecimal(i: int)
    ensures SignedDigits(IntToDecimal(i)) == Some(i)
  {
    if i < 0 {
      SignedDigitsOfNegative(-i);
    } else {
      SignedDigitsOfNatural(i);
    }
  }

  /** A decimal rendering has no surrounding white space. */
  lemma PyStripOfDecimal(i: int)
    ensures PyStrip(IntToDecimal(i)) == IntToDecimal(i)
  {
    var s := IntToDecimal(i);
    var ds := NatToDecimal(if i < 0 then -i else i);
    assert s[|s| - 1] == ds[|ds| - 1];
    assert IsDigit(ds[|ds| - 1]) && (IsDigit(s[0]) || s[0] == '-');
    TrimOfTrimmed(s, IsPySpace);
  }

  /** Rendering a number in decimal and reading it back with `int()` gives the number. */
  lemma PyIntOfIntToDecimal(i: int)
    ensures PyInt(IntToDecimal(i)) == Some(i)
  {
    PyStripOfDecimal(i);
    SignedDigitsOfDecimal(i);
  }

  // ---------------------------------------------------------------- bytes of PHP strings

  /** The number of bytes of the UTF-8 encoding of `c`: PHP strings are byte strings, so
      `strlen` and byte-wise regular expressions see this many units per character. */
  function Utf8Size(c: char): nat {
    if c as int < 0x80 then 1
    else if c as int < 0x800 then 2
    else if c as int < 0x10000 then 3
    else 4
  }

  /** `strlen` of the UTF-8 encoding of `s`. */
  function Utf8Length(s: string): nat {
    if s == [] then 0 else Utf8Size(s[0]) + Utf8Length(s[1..])
  }

  predicate IsAscii(c: char) { c as int < 0x80 }

  lemma {:induction false} Utf8LengthOfAscii(s: string)
    requires forall k :: 0 <= k < |s| ==> IsAscii(s[k])
    ensures Utf8Length(s) == |s|
  {
    if s != [] {
      Utf8LengthOfAscii(s[1..]);
    }
  }

  // ---------------------------------------------------------------- per-character rewriting

  /** Replaces every character `c` of `s` by the string `f(c)`. */
  function FlatMapChars(s: string, f: char -> string): string {
    if s == [] then [] else f(s[0]) + FlatMapChars(s[1..], f)
  }

  lemma {:induction false} FlatMapConcat(a: string, b: string, f: char -> string)
    ensures FlatMapChars(a + b, f) == FlatMapChars(a, f) + FlatMapChars(b, f)
  {
    if a == [] {
      assert a + b == b;
    } else {
      assert (a + b)[0] == a[0] && (a + b)[1..] == a[1..] + b;
      FlatMapConcat(a[1..], b, f);
    }
  }

  /** A rewrite that maps every character of `s` to itself leaves `s` unchanged. */
  lemma {:induction false} FlatMapIdentity(s: string, f: char -> string)
    requires forall k :: 0 <= k < |s| ==> f(s[k]) == [s[k]]
    ensures FlatMapChars(s, f) == s
  {
    if s != [] {
      FlatMapIdentity(s[1..], f);
    }
  }

  /** A character that no replacement contains does not occur in the result. */
  lemma {:induction false} FlatMapAvoids(s: string, f: char -> string, x: char)
    requires forall k :: 0 <= k < |s| ==> x !in f(s[k])
    ensures x !in FlatMapChars(s, f)
  {
    if s != [] {
      FlatMapAvoids(s[1..], f, x);
    }
  }

  /** JavaScript `s.replace(/c/g, rep)` for a one-character pattern. */
  function ReplaceChar(s: string, c: char, rep: string): string {
    FlatMapChars(s, x => if x == c then rep else [x])
  }

  lemma ReplaceCharOne(x: char, c: char, rep: string)
    ensures ReplaceChar([x], c, rep) == if x == c then rep else [x]
  {
    var f := y => if y == c then rep else [y];
    assert [x][1..] == [];
    assert FlatMapChars([x], f) == f(x) + FlatMapChars([], f);
  }

  lemma ReplaceCharConcat(a: string, b: string, c: char, rep: string)
    ensures ReplaceChar(a + b, c, rep) == ReplaceChar(a, c, rep) + ReplaceChar(b, c, rep)
  {
    FlatMapConcat(a, b, x => if x == c then rep else [x]);
  }

  /** Replacing a character that does not occur changes nothing. */
  lemma ReplaceCharAbsent(s: string, c: char, rep: string)
    requires c !in s
    ensures ReplaceChar(s, c, rep) == s
  {
    var f := x => if x == c then rep else [x];
    assert forall k :: 0 <= k < |s| ==> f(s[k]) == [s[k]];
    FlatMapIdentity(s, f);
  }
}
