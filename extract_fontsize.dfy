/** `parse_font_size_from_da`: the font size in a default-appearance string (section 12.7.3.3
    of ISO 32000-1), read with the pattern `/[A-Za-z0-9+_-]+\s+([\d.]+)\s+Tf`. */
module DaFontSize {
  import opened Wrappers
  import opened Text
  import opened Values

  predicate IsFontNameChar(c: char) { IsAlnum(c) || c == '+' || c == '_' || c == '-' }
  predicate IsSizeChar(c: char) { IsDigit(c) || c == '.' }

  predicate All(s: string, cls: char -> bool) { forall k :: 0 <= k < |s| ==> cls(s[k]) }

  /** Splits `t` into its longest prefix of `cls` characters and the rest. */
  function Span(t: string, cls: char -> bool): (r: (string, string))
    ensures r.0 + r.1 == t
    ensures All(r.0, cls)
    ensures r.1 == [] || !cls(r.1[0])
  {
    if t != [] && cls(t[0]) then
      var (run, rest) := Span(t[1..], cls);
      assert t == [t[0]] + (run + rest);
      ([t[0]] + run, rest)
    else ([], t)
  }

  /** Spanning a run that is followed by a character outside the class gives back that run. */
  lemma {:induction false} SpanOf(x: string, y: string, cls: char -> bool)
    requires All(x, cls)
    requires y == [] || !cls(y[0])
    ensures Span(x + y, cls) == (x, y)
  {
    if x == [] {
      assert x + y == y;
    } else {
      var t := x + y;
      assert t[0] == x[0] && cls(t[0]);
      assert t[1..] == x[1..] + y;
      SpanOf(x[1..], y, cls);
      assert x == [x[0]] + x[1..];
    }
  }

  /** The size group when the pattern matches at the start of `t`. Each run of the pattern is
      followed by a character its class excludes (name characters, then white space, then
      digits and dots, then white space, then `T`), so a match takes every run at its longest
      and backtracking cannot produce another one. */
  function TfMatchHere(t: string): (r: Option<string>)
    ensures r.Some? ==> r.value != [] && All(r.value, IsSizeChar)
  {
    if t == [] || t[0] != '/' then None
    else
      var (name, r1) := Span(t[1..], IsFontNameChar);
      var (sp1, r2) := Span(r1, IsPySpace);
      var (num, r3) := Span(r2, IsSizeChar);
      var (sp2, r4) := Span(r3, IsPySpace);
      if name != [] && sp1 != [] && num != [] && sp2 != [] && |r4| >= 2 && r4[0] == 'T' && r4[1] == 'f'
      then Some(num)
      else None
  }

  /** `re.search`: the group of the leftmost match. */
  function FirstTfMatch(s: string): (r: Option<string>)
    ensures r.Some? ==> r.value != [] && All(r.value, IsSizeChar)
  {
    if s == [] then None
    else match TfMatchHere(s)
      case Some(g) => Some(g)
      case None => FirstTfMatch(s[1..])
  }

  function Pow10(n: nat): (r: nat)
    ensures r >= 1
  {
    if n == 0 then 1 else 10 * Pow10(n - 1)
  }

  /** Python `float()` of a run of digits and dots: at most one dot and at least one digit;
      None where `float()` raises ValueError. */
  function SizeValue(t: string): (r: Option<real>)
    requires All(t, IsSizeChar)
    ensures r.Some? ==> r.value >= 0.0
  {
    match IndexOf(t, '.')
    case None =>
      if t == [] then None else Some(DecValue(t) as real)
    case Some(p) =>
      var whole := t[..p];
      var frac := t[p + 1..];
      assert AllDigits(whole) by {
        forall k | 0 <= k < |whole| ensures IsDigit(whole[k]) {
          assert whole[k] in t[..p];
        }
      }
      if '.' in frac || (whole == [] && frac == []) then None
      else
        assert AllDigits(frac) by {
          forall k | 0 <= k < |frac| ensures IsDigit(frac[k]) {
            assert t[p + 1 + k] == frac[k];
          }
        }
        var fraction := DecValue(frac) as real / Pow10(|frac|) as real;
        FractionNonNegative(DecValue(frac) as real, Pow10(|frac|) as real);
        Some(DecValue(whole) as real + fraction)
  }

  lemma FractionNonNegative(digits: real, scale: real)
    requires digits >= 0.0 && scale >= 1.0
    ensures digits / scale >= 0.0
  {
  }

  /** `parse_font_size_from_da`: None for a missing, empty or non-string value and when the
      pattern does not match; otherwise `float()` of the first match's size group (None where
      that raises). */
  function ParseFontSizeFromDa(da: Value): (r: Option<real>)
    ensures !da.Str? || da.s == [] ==> r.None?
    ensures r.Some? ==> r.value >= 0.0
  {
    if !PyTruthy(da) || !da.Str? then None
    else match FirstTfMatch(da.s)
      case None => None
      case Some(g) => SizeValue(g)
  }

  /** Text before the first `/` never starts a match. */
  lemma {:induction false} SkipNoSlash(prefix: string, t: string)
    requires '/' !in prefix
    ensures FirstTfMatch(prefix + t) == FirstTfMatch(t)
  {
    if prefix == [] {
      assert prefix + t == t;
    } else {
      var s := prefix + t;
      assert s[1..] == prefix[1..] + t;
      assert s[0] == prefix[0] && prefix[0] in prefix;
      assert TfMatchHere(s) == None;
      SkipNoSlash(prefix[1..], t);
    }
  }

  /** A default-appearance string `prefix /Font <sp> size <sp> Tf rest` whose prefix has no `/`
      yields the size text. */
  lemma MatchOfDa(prefix: string, font: string, sp1: string, num: string, sp2: string, rest: string)
    requires '/' !in prefix
    requires font != [] && All(font, IsFontNameChar)
    requires sp1 != [] && All(sp1, IsPySpace)
    requires num != [] && All(num, IsSizeChar)
    requires sp2 != [] && All(sp2, IsPySpace)
    ensures FirstTfMatch(prefix + ("/" + (font + (sp1 + (num + (sp2 + ("Tf" + rest))))))) == Some(num)
  {
    var r4 := "Tf" + rest;
    var r3 := sp2 + r4;
    var r2 := num + r3;
    var r1 := sp1 + r2;
    var t := "/" + (font + r1);
    assert t[1..] == font + r1;
    SpanOf(font, r1, IsFontNameChar);
    SpanOf(sp1, r2, IsPySpace);
    SpanOf(num, r3, IsSizeChar);
    SpanOf(sp2, r4, IsPySpace);
    assert TfMatchHere(t) == Some(num);
    SkipNoSlash(prefix, t);
  }

  lemma TwoDigits(a: char, b: char)
    requires IsDigit(a) && IsDigit(b)
    ensures DecValue([a, b]) == 10 * DigitValue(a) + DigitValue(b)
  {
    assert [a, b][..1] == [a];
    assert [a][..0] == [];
    assert DecValue([a]) == DigitValue(a);
  }

  /** The size of a well-formed default-appearance string is the value of its size text. */
  lemma SizeOfDa(da: string, prefix: string, font: string, sp1: string, num: string, sp2: string, rest: string)
    requires da == prefix + ("/" + (font + (sp1 + (num + (sp2 + ("Tf" + rest))))))
    requires '/' !in prefix
    requires font != [] && All(font, IsFontNameChar)
    requires sp1 != [] && All(sp1, IsPySpace)
    requires num != [] && All(num, IsSizeChar)
    requires sp2 != [] && All(sp2, IsPySpace)
    ensures ParseFontSizeFromDa(Str(da)) == SizeValue(num)
  {
    MatchOfDa(prefix, font, sp1, num, sp2, rest);
  }

  /** `float()` of a run of digits is its decimal value. */
  lemma SizeValueOfDigits(d: string)
    requires d != [] && AllDigits(d)
    ensures All(d, IsSizeChar) && SizeValue(d) == Some(DecValue(d) as real)
  {
    assert '.' !in d by {
      forall k | 0 <= k < |d| ensures d[k] != '.' {
        assert IsDigit(d[k]);
      }
    }
  }

  /** The first dot of a text is where it stands when no dot comes before it. */
  lemma FirstDotAt(t: string, p: nat)
    requires p < |t| && t[p] == '.' && '.' !in t[..p]
    ensures IndexOf(t, '.') == Some(p)
  {
  }

  /** `float()` of digits, one dot and digits (either run may be empty, not both) is the whole
      part plus the fraction's digits over the matching power of ten. */
  lemma SizeValueOfDecimal(t: string, w: string, f: string)
    requires t == w + "." + f && AllDigits(w) && AllDigits(f) && (w != [] || f != [])
    ensures All(t, IsSizeChar)
    ensures SizeValue(t) == Some(DecValue(w) as real + DecValue(f) as real / Pow10(|f|) as real)
  {
    DecimalShape(t, w, f);
    SizeValueAtDot(t, |w|, w, f);
  }

  /** Where the dot of such a text stands, and the runs on either side. */
  lemma DecimalShape(t: string, w: string, f: string)
    requires t == w + "." + f && AllDigits(w) && AllDigits(f)
    ensures All(t, IsSizeChar) && IndexOf(t, '.') == Some(|w|) && '.' !in f
    ensures t[..|w|] == w && t[|w| + 1..] == f
  {
    assert t[..|w|] == w && t[|w| + 1..] == f;
    assert '.' !in w by {
      forall k | 0 <= k < |w| ensures w[k] != '.' {
        assert IsDigit(w[k]);
      }
    }
    assert '.' !in f by {
      forall k | 0 <= k < |f| ensures f[k] != '.' {
        assert IsDigit(f[k]);
      }
    }
    assert All(t, IsSizeChar) by {
      forall k | 0 <= k < |t| ensures IsSizeChar(t[k]) {
        if k < |w| {
          assert t[k] == w[k];
        } else if k > |w| {
          assert t[k] == f[k - |w| - 1];
        }
      }
    }
    FirstDotAt(t, |w|);
  }

  /** `float()` of a run whose only dot is at `p`. */
  lemma SizeValueAtDot(t: string, p: nat, w: string, f: string)
    requires All(t, IsSizeChar) && IndexOf(t, '.') == Some(p) && '.' !in f
    requires t[..p] == w && t[p + 1..] == f && AllDigits(w) && AllDigits(f) && (w != [] || f != [])
    ensures SizeValue(t) == Some(DecValue(w) as real + DecValue(f) as real / Pow10(|f|) as real)
  {
  }

  // Two of the sizes that the script's own tests use, spelled out for the lemmas below.

  lemma SizeValue9point5()
    ensures SizeValue("9.5") == Some(9.5)
  {
    assert IndexOf("9.5", '.') == Some(1);
    assert "9.5"[..1] == "9" && "9.5"[2..] == "5";
  }

  lemma SizeValue10point25()
    ensures SizeValue("10.25") == Some(10.25)
  {
    TwoDigits('1', '0');
    TwoDigits('2', '5');
    assert IndexOf("10.25", '.') == Some(2);
    assert "10.25"[..2] == "10" && "10.25"[3..] == "25";
  }

  // The examples that the script's own tests state. Each string is a parameter so that the
  // verifier does not evaluate the matcher on the literal.

  lemma SizeOfHelv12(helv: string)
    requires helv == "0 0 0 rg /Helv 12 Tf"
    ensures ParseFontSizeFromDa(Str(helv)) == Some(12.0)
  {
    SizeOfDa(helv, "0 0 0 rg ", "Helv", " ", "12", " ", "");
    TwoDigits('1', '2');
    SizeValueOfDigits("12");
  }

  lemma SizeOfHelvetica10(helvetica: string)
    requires helvetica == "/Helvetica 10 Tf"
    ensures ParseFontSizeFromDa(Str(helvetica)) == Some(10.0)
  {
    SizeOfDa(helvetica, "", "Helvetica", " ", "10", " ", "");
    TwoDigits('1', '0');
    SizeValueOfDigits("10");
  }

  lemma SizeOfSymbol9point5(symbol: string)
    requires symbol == "/MyFont+Symbol 9.5 Tf"
    ensures ParseFontSizeFromDa(Str(symbol)) == Some(9.5)
  {
    SizeOfDa(symbol, "", "MyFont+Symbol", " ", "9.5", " ", "");
    SizeValue9point5();
  }

  lemma SizeOfCombined10point25(combined: string)
    requires combined == "0 0 0 rg /Helv+Symbol 10.25 Tf"
    ensures ParseFontSizeFromDa(Str(combined)) == Some(10.25)
  {
    SizeOfDa(combined, "0 0 0 rg ", "Helv+Symbol", " ", "10.25", " ", "");
    SizeValue10point25();
  }

  lemma SizeOfDoubleSpaced(spaced: string)
    requires spaced == "/Helvetica  12  Tf"
    ensures ParseFontSizeFromDa(Str(spaced)) == Some(12.0)
  {
    SizeOfDa(spaced, "", "Helvetica", "  ", "12", "  ", "");
    TwoDigits('1', '2');
    SizeValueOfDigits("12");
  }

  /** A size run with two dots matches the pattern, but `float()` raises and no size is
      reported. */
  lemma SizeOfTwoDots(dotted: string)
    requires dotted == "/Helv 1.2.3 Tf"
    ensures ParseFontSizeFromDa(Str(dotted)) == None
  {
    SizeOfDa(dotted, "", "Helv", " ", "1.2.3", " ", "");
    assert IndexOf("1.2.3", '.') == Some(1);
    assert "1.2.3"[2..] == "2.3";
  }

  /** A default-appearance string without `/` names no font, so it yields no size. */
  lemma NoSlashNoSize(da: string)
    requires '/' !in da
    ensures ParseFontSizeFromDa(Str(da)) == None
  {
    SkipNoSlash(da, "");
    assert da + "" == da;
  }
}
