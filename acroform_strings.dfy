/** The attribute escaper and the fallback string table of the AcroForm editor
    (assets/acroform-editor/strings.ts). */
module AcroFormStrings {
  import opened Text
  import SignableUtils

  /** `DEFAULT_STRINGS`: the fallback table is empty, so every key is looked up in the strings the
      page injects. */
  const DefaultStrings: map<string, string> := map[]

  lemma DefaultStringsEmpty()
    ensures forall key :: key !in DefaultStrings
  {
  }

  /** The text `escapeAttr` writes for one character. */
  function AttrEntity(c: char): string {
    if c == '&' then "&amp;" else if c == '"' then "&quot;" else [c]
  }

  /** `escapeAttr`: `&` then `"`, nothing else. */
  function EscapeAttr(s: string): string {
    ReplaceChar(ReplaceChar(s, '&', "&amp;"), '"', "&quot;")
  }

  lemma EscapeAttrChar(c: char)
    ensures EscapeAttr([c]) == AttrEntity(c)
  {
    ReplaceCharOne(c, '&', "&amp;");
    if c == '&' {
      ReplaceCharAbsent("&amp;", '"', "&quot;");
    } else {
      ReplaceCharOne(c, '"', "&quot;");
    }
  }

  lemma EscapeAttrConcat(a: string, b: string)
    ensures EscapeAttr(a + b) == EscapeAttr(a) + EscapeAttr(b)
  {
    ReplaceCharConcat(a, b, '&', "&amp;");
    ReplaceCharConcat(ReplaceChar(a, '&', "&amp;"), ReplaceChar(b, '&', "&amp;"), '"', "&quot;");
  }

  /** `escapeAttr` rewrites each character on its own: `&` to `&amp;`, `"` to `&quot;`, every
      other character to itself. */
  lemma {:induction false} EscapeAttrPerChar(s: string)
    ensures EscapeAttr(s) == FlatMapChars(s, AttrEntity)
  {
    if s != [] {
      assert s == [s[0]] + s[1..];
      EscapeAttrConcat([s[0]], s[1..]);
      EscapeAttrChar(s[0]);
      EscapeAttrPerChar(s[1..]);
    } else {
      assert ReplaceChar([], '&', "&amp;") == [];
    }
  }

  /** A character other than `&` and `"` (an angle bracket, say) passes through where it stands. */
  lemma EscapeAttrKeeps(a: string, c: char, b: string)
    requires c != '&' && c != '"'
    ensures EscapeAttr(a + [c] + b) == EscapeAttr(a) + [c] + EscapeAttr(b)
  {
    EscapeAttrConcat(a + [c], b);
    EscapeAttrConcat(a, [c]);
    EscapeAttrChar(c);
  }

  /** Text without `&` and `"`, the empty string included, is returned unchanged. */
  lemma EscapeAttrOfPlainText(s: string)
    requires '&' !in s && '"' !in s
    ensures EscapeAttr(s) == s
  {
    ReplaceCharAbsent(s, '&', "&amp;");
    ReplaceCharAbsent(s, '"', "&quot;");
  }

  /** The output holds no raw double quote, so it cannot end a quoted attribute. */
  lemma EscapeAttrHasNoQuote(s: string)
    ensures '"' !in EscapeAttr(s)
  {
    EscapeAttrPerChar(s);
    forall k | 0 <= k < |s|
      ensures '"' !in AttrEntity(s[k])
    {
      if s[k] != '&' && s[k] != '"' {
        assert AttrEntity(s[k]) == [s[k]];
      }
    }
    FlatMapAvoids(s, AttrEntity, '"');
  }

  /** On text without `<`, `>` and `'` the attribute escaper and the HTML escaper of the
      signature-box editor agree. */
  lemma {:induction false} EscapeAttrAgreesWithEscapeHtml(s: string)
    requires '<' !in s && '>' !in s && '\'' !in s
    ensures EscapeAttr(s) == SignableUtils.EscapeHtml(s)
  {
    EscapeAttrPerChar(s);
    SignableUtils.EscapeHtmlPerChar(s);
    if s != [] {
      assert s[1..] == s[1..];
      assert AttrEntity(s[0]) == SignableUtils.HtmlEntity(s[0]);
      EscapeAttrAgreesWithEscapeHtml(s[1..]);
      EscapeAttrPerChar(s[1..]);
      SignableUtils.EscapeHtmlPerChar(s[1..]);
    }
  }

  /** An ampersand between two plain texts becomes `&amp;` and the texts stay as they are. */
  lemma EscapeAttrOfAmpersandText(left: string, right: string)
    requires '&' !in left && '"' !in left && '&' !in right && '"' !in right
    ensures EscapeAttr(left + "&" + right) == left + "&amp;" + right
  {
    EscapeAttrConcat(left + "&", right);
    EscapeAttrConcat(left, "&");
    EscapeAttrOfPlainText(left);
    EscapeAttrOfPlainText(right);
    EscapeAttrChar('&');
  }

  /** A plain text between double quotes has both quotes replaced by `&quot;`. */
  lemma EscapeAttrOfQuotedText(t: string)
    requires '&' !in t && '"' !in t
    ensures EscapeAttr("\"" + t + "\"") == "&quot;" + t + "&quot;"
  {
    EscapeAttrConcat("\"" + t, "\"");
    EscapeAttrConcat("\"", t);
    EscapeAttrOfPlainText(t);
    EscapeAttrChar('"');
  }
}
