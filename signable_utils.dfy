/** Unit conversion and HTML escaping of the signature-box editor (assets/signable-editor/utils.ts
    with the factor table of assets/signable-editor/constants.ts). Numbers are exact reals. */
module SignableUtils {
  import opened Wrappers
  import opened Text

  // ---------------------------------------------------------------- units

  /** `PT_TO_UNIT`: the factor that turns points into the unit, for the five known units. */
  function PtToUnitFactor(unit: string): (r: Option<real>)
    ensures r.Some? <==> unit in {"pt", "mm", "cm", "in", "px"}
    ensures r.Some? ==> r.value > 0.0
  {
    if unit == "pt" then Some(1.0)
    else if unit == "mm" then Some(25.4 / 72.0)
    else if unit == "cm" then Some(2.54 / 72.0)
    else if unit == "in" then Some(1.0 / 72.0)
    else if unit == "px" then Some(96.0 / 72.0)
    else None
  }

  /** `PT_TO_UNIT[unit] ?? 1`. */
  function Factor(unit: string): (f: real)
    ensures f > 0.0
    ensures PtToUnitFactor(unit).None? ==> f == 1.0
  {
    PtToUnitFactor(unit).GetOr(1.0)
  }

  function PtToUnit(val: real, unit: string): real {
    val * Factor(unit)
  }

  function UnitToPt(val: real, unit: string): real {
    val / Factor(unit)
  }

  /** Converting to a unit and back gives the value in points again, for every unit. */
  lemma UnitToPtOfPtToUnit(v: real, unit: string)
    ensures UnitToPt(PtToUnit(v, unit), unit) == v
  {
    var f := Factor(unit);
    assert (v * f) / f == v;
  }

  /** Converting from a unit to points and back gives the value in the unit again. */
  lemma PtToUnitOfUnitToPt(v: real, unit: string)
    ensures PtToUnit(UnitToPt(v, unit), unit) == v
  {
    var f := Factor(unit);
    assert (v / f) * f == v;
  }

  /** An unknown unit converts with factor 1: both directions are the identity. */
  lemma UnknownUnitIsIdentity(v: real, unit: string)
    requires unit !in {"pt", "mm", "cm", "in", "px"}
    ensures PtToUnit(v, unit) == v && UnitToPt(v, unit) == v
  {
  }

  /** 72 pt is one inch, 25.4 mm and 2.54 cm; 1 in is 72 pt and 96 px. */
  lemma OneInch()
    ensures PtToUnit(72.0, "in") == 1.0 && PtToUnit(72.0, "mm") == 25.4
    ensures PtToUnit(72.0, "cm") == 2.54 && PtToUnit(72.0, "px") == 96.0
    ensures UnitToPt(1.0, "in") == 72.0
  {
  }

  // ---------------------------------------------------------------- HTML escaping

  /** The entity `escapeHtml` writes for one character. */
  function HtmlEntity(c: char): string {
    if c == '&' then "&amp;"
    else if c == '<' then "&lt;"
    else if c == '>' then "&gt;"
    else if c == '"' then "&quot;"
    else if c == '\'' then "&#39;"
    else [c]
  }

  predicate IsHtmlSpecial(c: char) {
    c == '&' || c == '<' || c == '>' || c == '"' || c == '\''
  }

  /** `escapeHtml`: five global replacements, `&` first. */
  function EscapeHtml(s: string): string {
    ReplaceChar(ReplaceChar(ReplaceChar(ReplaceChar(ReplaceChar(
      s, '&', "&amp;"), '<', "&lt;"), '>', "&gt;"), '"', "&quot;"), '\'', "&#39;")
  }

  lemma EscapeHtmlConcat(a: string, b: string)
    ensures EscapeHtml(a + b) == EscapeHtml(a) + EscapeHtml(b)
  {
    var a1, b1 := ReplaceChar(a, '&', "&amp;"), ReplaceChar(b, '&', "&amp;");
    ReplaceCharConcat(a, b, '&', "&amp;");
    var a2, b2 := ReplaceChar(a1, '<', "&lt;"), ReplaceChar(b1, '<', "&lt;");
    ReplaceCharConcat(a1, b1, '<', "&lt;");
    var a3, b3 := ReplaceChar(a2, '>', "&gt;"), ReplaceChar(b2, '>', "&gt;");
    ReplaceCharConcat(a2, b2, '>', "&gt;");
    var a4, b4 := ReplaceChar(a3, '"', "&quot;"), ReplaceChar(b3, '"', "&quot;");
    ReplaceCharConcat(a3, b3, '"', "&quot;");
    ReplaceCharConcat(a4, b4, '\'', "&#39;");
  }

  /** The replacement written by an earlier step contains none of the later characters, so the
      chain escapes each character exactly once. */
  lemma EscapeHtmlChar(c: char)
    ensures EscapeHtml([c]) == HtmlEntity(c)
  {
    ReplaceCharOne(c, '&', "&amp;");
    if c == '&' {
      EscapeAmp(c);
      return;
    }
    ReplaceCharOne(c, '<', "&lt;");
    if c == '<' {
      EscapeLt(c);
      return;
    }
    ReplaceCharOne(c, '>', "&gt;");
    if c == '>' {
      EscapeGt(c);
      return;
    }
    ReplaceCharOne(c, '"', "&quot;");
    if c == '"' {
      ReplaceCharAbsent("&quot;", '\'', "&#39;");
      return;
    }
    ReplaceCharOne(c, '\'', "&#39;");
  }

  lemma EscapeAmp(c: char)
    requires c == '&'
    ensures EscapeHtml([c]) == "&amp;"
  {
    ReplaceCharOne(c, '&', "&amp;");
    AfterAmp("&amp;");
  }

  /** The four replacements after the first leave text without their characters unchanged. */
  lemma AfterAmp(e: string)
    requires '<' !in e && '>' !in e && '"' !in e && '\'' !in e
    ensures ReplaceChar(ReplaceChar(ReplaceChar(ReplaceChar(e, '<', "&lt;"), '>', "&gt;"), '"', "&quot;"), '\'', "&#39;") == e
  {
    ReplaceCharAbsent(e, '<', "&lt;");
    ReplaceCharAbsent(e, '>', "&gt;");
    ReplaceCharAbsent(e, '"', "&quot;");
    ReplaceCharAbsent(e, '\'', "&#39;");
  }

  lemma EscapeLt(c: char)
    requires c == '<'
    ensures EscapeHtml([c]) == "&lt;"
  {
    ReplaceCharOne(c, '&', "&amp;");
    ReplaceCharOne(c, '<', "&lt;");
    AfterLt("&lt;");
  }

  lemma AfterLt(e: string)
    requires '>' !in e && '"' !in e && '\'' !in e
    ensures ReplaceChar(ReplaceChar(ReplaceChar(e, '>', "&gt;"), '"', "&quot;"), '\'', "&#39;") == e
  {
    ReplaceCharAbsent(e, '>', "&gt;");
    ReplaceCharAbsent(e, '"', "&quot;");
    ReplaceCharAbsent(e, '\'', "&#39;");
  }

  lemma EscapeGt(c: char)
    requires c == '>'
    ensures EscapeHtml([c]) == "&gt;"
  {
    var e := "&gt;";
    ReplaceCharOne(c, '&', "&amp;");
    ReplaceCharOne(c, '<', "&lt;");
    ReplaceCharOne(c, '>', e);
    ReplaceCharAbsent(e, '"', "&quot;");
    ReplaceCharAbsent(e, '\'', "&#39;");
  }

  /** `escapeHtml` replaces every character by its entity, one character at a time. */
  lemma {:induction false} EscapeHtmlPerChar(s: string)
    ensures EscapeHtml(s) == FlatMapChars(s, HtmlEntity)
  {
    if s != [] {
      assert s == [s[0]] + s[1..];
      EscapeHtmlConcat([s[0]], s[1..]);
      EscapeHtmlChar(s[0]);
      EscapeHtmlPerChar(s[1..]);
    } else {
      assert ReplaceChar([], '&', "&amp;") == [];
    }
  }

  /** The output of `escapeHtml` holds no raw `<`, `>`, `"` or `'`. */
  lemma EscapeHtmlHasNoRawSpecials(s: string)
    ensures '<' !in EscapeHtml(s) && '>' !in EscapeHtml(s)
    ensures '"' !in EscapeHtml(s) && '\'' !in EscapeHtml(s)
  {
    EscapeHtmlPerChar(s);
    EntityAvoids(s, '<');
    EntityAvoids(s, '>');
    EntityAvoids(s, '"');
    EntityAvoids(s, '\'');
  }

  lemma EntityAvoids(s: string, x: char)
    requires x == '<' || x == '>' || x == '"' || x == '\''
    ensures x !in FlatMapChars(s, HtmlEntity)
  {
    forall k | 0 <= k < |s|
      ensures x !in HtmlEntity(s[k])
    {
      EntityAvoidsOne(s[k], x);
    }
    FlatMapAvoids(s, HtmlEntity, x);
  }

  lemma EntityAvoidsOne(c: char, x: char)
    requires x == '<' || x == '>' || x == '"' || x == '\''
    ensures x !in HtmlEntity(c)
  {
    if !IsHtmlSpecial(c) {
      assert HtmlEntity(c) == [c];
    }
  }

  /** Text without `& < > " '` is returned unchanged. */
  lemma EscapeHtmlOfPlainText(s: string)
    requires forall k :: 0 <= k < |s| ==> !IsHtmlSpecial(s[k])
    ensures EscapeHtml(s) == s
  {
    EscapeHtmlPerChar(s);
    FlatMapIdentity(s, HtmlEntity);
  }

  /** Decoding of the five entities `escapeHtml` writes; any other text is copied. */
  function UnescapeHtml(s: string): string
    decreases |s|
  {
    if s == [] then []
    else if StartsWith(s, "&amp;") then "&" + UnescapeHtml(s[5..])
    else if StartsWith(s, "&lt;") then "<" + UnescapeHtml(s[4..])
    else if StartsWith(s, "&gt;") then ">" + UnescapeHtml(s[4..])
    else if StartsWith(s, "&quot;") then "\"" + UnescapeHtml(s[6..])
    else if StartsWith(s, "&#39;") then "'" + UnescapeHtml(s[5..])
    else [s[0]] + UnescapeHtml(s[1..])
  }

  lemma UnescapeEntity(c: char, rest: string)
    ensures UnescapeHtml(HtmlEntity(c) + rest) == [c] + UnescapeHtml(rest)
  {
    if c == '&' {
      UnescapeAt("&amp;", rest, 5);
    } else if c == '<' {
      DiffersAt("&lt;" + rest, "&amp;", 1);
      UnescapeAt("&lt;", rest, 4);
    } else if c == '>' {
      DiffersAt("&gt;" + rest, "&amp;", 1);
      DiffersAt("&gt;" + rest, "&lt;", 1);
      UnescapeAt("&gt;", rest, 4);
    } else if c == '"' {
      DiffersAt("&quot;" + rest, "&amp;", 1);
      DiffersAt("&quot;" + rest, "&lt;", 1);
      DiffersAt("&quot;" + rest, "&gt;", 1);
      UnescapeAt("&quot;", rest, 6);
    } else if c == '\'' {
      DiffersAt("&#39;" + rest, "&amp;", 1);
      DiffersAt("&#39;" + rest, "&lt;", 1);
      DiffersAt("&#39;" + rest, "&gt;", 1);
      DiffersAt("&#39;" + rest, "&quot;", 1);
      UnescapeAt("&#39;", rest, 5);
    } else {
      var t := [c] + rest;
      assert t[1..] == rest;
      DiffersAt(t, "&amp;", 0);
      DiffersAt(t, "&lt;", 0);
      DiffersAt(t, "&gt;", 0);
      DiffersAt(t, "&quot;", 0);
      DiffersAt(t, "&#39;", 0);
    }
  }

  /** Text that differs from `prefix` at position `i` does not start with it. */
  lemma DiffersAt(s: string, prefix: string, i: nat)
    requires i < |prefix| && i < |s| && s[i] != prefix[i]
    ensures !StartsWith(s, prefix)
  {
    if StartsWith(s, prefix) {
      StartsWithAt(s, prefix, i);
    }
  }

  /** An entity of length `n` at the front is cut off whole. */
  lemma UnescapeAt(e: string, rest: string, n: nat)
    requires |e| == n
    ensures (e + rest)[..n] == e && (e + rest)[n..] == rest
  {
  }

  /** Decoding the escaped text gives the original text back: `&` is escaped first, so text that
      already looks like an entity comes back as written and is not decoded a second time. */
  lemma {:induction false} UnescapeEscapeHtml(s: string)
    ensures UnescapeHtml(EscapeHtml(s)) == s
  {
    EscapeHtmlPerChar(s);
    UnescapeFlatMap(s);
  }

  lemma {:induction false} UnescapeFlatMap(s: string)
    ensures UnescapeHtml(FlatMapChars(s, HtmlEntity)) == s
  {
    if s != [] {
      UnescapeEntity(s[0], FlatMapChars(s[1..], HtmlEntity));
      UnescapeFlatMap(s[1..]);
    }
  }

  /** Escaping is not idempotent: an escaped `&` is escaped again. */
  lemma EscapeHtmlOfEntity(amp: string, rest: string)
    requires amp == "&" && rest == "lt;"
    ensures EscapeHtml(amp + rest) == "&amp;" + rest
  {
    EscapeHtmlConcat(amp, rest);
    EscapeAmp('&');
    EscapeHtmlOfPlainText(rest);
  }
}
