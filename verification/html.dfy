/** HTML escaping of free text before it is placed inside the message's
    markup (`_sanitize_html`), and the unescaping that inverts it. */
module Html {
  import opened Text

  /** `_sanitize_html`: empty text stays empty; otherwise `&`, then `<`, then
      `>` are replaced by their entities, in that order. */
  function Sanitize(t: string): string
  {
    if t == "" then ""
    else Replace(Replace(Replace(t, "&", "&amp;"), "<", "&lt;"), ">", "&gt;")
  }

  /** The inverse of `Sanitize`: `&lt;`, then `&gt;`, then `&amp;` are turned
      back into the characters they stand for. `&amp;` comes last, so that
      text which was literally `&lt;` before escaping is not decoded twice. */
  function Unescape(s: string): string
  {
    Replace(Replace(Replace(s, "&lt;", "<"), "&gt;", ">"), "&amp;", "&")
  }

  /** Which of the three special characters are written as entities. */
  datatype Escapes = Escapes(amp: bool, lt: bool, gt: bool)

  const Plain := Escapes(false, false, false)
  const Full := Escapes(true, true, true)

  /** One character, written as an entity when `e` says so. */
  function EscapeChar(c: char, e: Escapes): string
  {
    if c == '&' && e.amp then "&amp;"
    else if c == '<' && e.lt then "&lt;"
    else if c == '>' && e.gt then "&gt;"
    else [c]
  }

  /** Character-by-character escaping: the reference definition that each
      stage of `Sanitize` and `Unescape` is compared with. */
  function EscapeWith(t: string, e: Escapes): string
  {
    if t == "" then "" else EscapeChar(t[0], e) + EscapeWith(t[1..], e)
  }

  lemma {:induction false} EscapePlain(t: string)
    ensures EscapeWith(t, Plain) == t
  {
    if t != "" {
      EscapePlain(t[1..]);
      assert t == [t[0]] + t[1..];
    }
  }

  /** Escaping distributes over concatenation. */
  lemma {:induction false} EscapeAppend(a: string, b: string, e: Escapes)
    ensures EscapeWith(a + b, e) == EscapeWith(a, e) + EscapeWith(b, e)
  {
    if a == "" {
      assert a + b == b;
    } else {
      assert (a + b)[0] == a[0];
      assert (a + b)[1..] == a[1..] + b;
      EscapeAppend(a[1..], b, e);
    }
  }

  /** One `Replace` pass moves escaping from stage `e` to stage `f`, provided
      every escaped character of stage `e` is a token the scan passes over
      whole, and stage `f` is stage `e` with exactly the tokens equal to
      `pat` rewritten to `rep`. */
  lemma {:induction false} ReplaceStage(t: string, e: Escapes, f: Escapes, pat: string, rep: string)
    requires pat != ""
    requires forall c :: Separable(EscapeChar(c, e), pat)
    requires forall c :: EscapeChar(c, f) == if EscapeChar(c, e) == pat then rep else EscapeChar(c, e)
    ensures Replace(EscapeWith(t, e), pat, rep) == EscapeWith(t, f)
  {
    if t != "" {
      ReplaceToken(EscapeChar(t[0], e), EscapeWith(t[1..], e), pat, rep);
      ReplaceStage(t[1..], e, f, pat, rep);
    }
  }

  /** The intermediate stages between plain and fully escaped text. */
  const AmpOnly := Escapes(true, false, false)
  const AmpLt := Escapes(true, true, false)
  const AmpGt := Escapes(true, false, true)

  lemma EscapeAmpPass(t: string)
    ensures Replace(EscapeWith(t, Plain), "&", "&amp;") == EscapeWith(t, AmpOnly)
  {
    forall c
      ensures Separable(EscapeChar(c, Plain), "&")
      ensures EscapeChar(c, AmpOnly) == if EscapeChar(c, Plain) == "&" then "&amp;" else EscapeChar(c, Plain)
    {
    }
    ReplaceStage(t, Plain, AmpOnly, "&", "&amp;");
  }

  lemma EscapeLtPass(t: string)
    ensures Replace(EscapeWith(t, AmpOnly), "<", "&lt;") == EscapeWith(t, AmpLt)
  {
    forall c
      ensures Separable(EscapeChar(c, AmpOnly), "<")
      ensures EscapeChar(c, AmpLt) == if EscapeChar(c, AmpOnly) == "<" then "&lt;" else EscapeChar(c, AmpOnly)
    {
    }
    ReplaceStage(t, AmpOnly, AmpLt, "<", "&lt;");
  }

  lemma EscapeGtPass(t: string)
    ensures Replace(EscapeWith(t, AmpLt), ">", "&gt;") == EscapeWith(t, Full)
  {
    forall c
      ensures Separable(EscapeChar(c, AmpLt), ">")
      ensures EscapeChar(c, Full) == if EscapeChar(c, AmpLt) == ">" then "&gt;" else EscapeChar(c, AmpLt)
    {
    }
    ReplaceStage(t, AmpLt, Full, ">", "&gt;");
  }

  /** The three passes of `Sanitize` together escape each character on its
      own: `&` first means no entity produced later is escaped again. */
  lemma SanitizeEscapes(t: string)
    ensures Sanitize(t) == EscapeWith(t, Full)
  {
    if t != "" {
      EscapePlain(t);
      EscapeAmpPass(t);
      EscapeLtPass(t);
      EscapeGtPass(t);
    }
  }

  lemma UnescapeLtPass(t: string)
    ensures Replace(EscapeWith(t, Full), "&lt;", "<") == EscapeWith(t, AmpGt)
  {
    forall c
      ensures Separable(EscapeChar(c, Full), "&lt;")
      ensures EscapeChar(c, AmpGt) == if EscapeChar(c, Full) == "&lt;" then "<" else EscapeChar(c, Full)
    {
      if c == '&' || c == '>' {
        assert EscapeChar(c, Full)[1] != "&lt;"[1];
      }
    }
    ReplaceStage(t, Full, AmpGt, "&lt;", "<");
  }

  lemma UnescapeGtPass(t: string)
    ensures Replace(EscapeWith(t, AmpGt), "&gt;", ">") == EscapeWith(t, AmpOnly)
  {
    forall c
      ensures Separable(EscapeChar(c, AmpGt), "&gt;")
      ensures EscapeChar(c, AmpOnly) == if EscapeChar(c, AmpGt) == "&gt;" then ">" else EscapeChar(c, AmpGt)
    {
      if c == '&' {
        assert EscapeChar(c, AmpGt)[1] != "&gt;"[1];
      }
    }
    ReplaceStage(t, AmpGt, AmpOnly, "&gt;", ">");
  }

  lemma UnescapeAmpPass(t: string)
    ensures Replace(EscapeWith(t, AmpOnly), "&amp;", "&") == EscapeWith(t, Plain)
  {
    forall c
      ensures Separable(EscapeChar(c, AmpOnly), "&amp;")
      ensures EscapeChar(c, Plain) == if EscapeChar(c, AmpOnly) == "&amp;" then "&" else EscapeChar(c, AmpOnly)
    {
    }
    ReplaceStage(t, AmpOnly, Plain, "&amp;", "&");
  }

  /** Unescaping the sanitized text gives back the original text. */
  lemma UnescapeSanitize(t: string)
    ensures Unescape(Sanitize(t)) == t
  {
    SanitizeEscapes(t);
    UnescapeLtPass(t);
    UnescapeGtPass(t);
    UnescapeAmpPass(t);
    EscapePlain(t);
  }

  /** Sanitized text contains no markup brackets. */
  lemma {:induction false} EscapeFullNoBrackets(t: string)
    ensures '<' !in EscapeWith(t, Full) && '>' !in EscapeWith(t, Full)
  {
    if t != "" {
      EscapeFullNoBrackets(t[1..]);
    }
  }

  lemma SanitizeNoBrackets(t: string)
    ensures '<' !in Sanitize(t) && '>' !in Sanitize(t)
  {
    SanitizeEscapes(t);
    EscapeFullNoBrackets(t);
  }

  /** Each `&` grows by four characters, each `<` and `>` by three. */
  lemma {:induction false} EscapeFullLength(t: string)
    ensures |EscapeWith(t, Full)| == |t| + 4 * Count(t, '&') + 3 * Count(t, '<') + 3 * Count(t, '>')
  {
    if t != "" {
      EscapeFullLength(t[1..]);
    }
  }

  lemma SanitizeLength(t: string)
    ensures |Sanitize(t)| == |t| + 4 * Count(t, '&') + 3 * Count(t, '<') + 3 * Count(t, '>')
  {
    SanitizeEscapes(t);
    EscapeFullLength(t);
  }

  /** Sanitizing is empty exactly on empty text, and is the identity on text
      with no special character. */
  lemma SanitizeEmpty(t: string)
    ensures Sanitize(t) == "" <==> t == ""
    ensures ('&' !in t && '<' !in t && '>' !in t) ==> Sanitize(t) == t
  {
    SanitizeLength(t);
    if '&' !in t && '<' !in t && '>' !in t {
      SanitizeEscapes(t);
      EscapeUntouched(t);
    }
  }

  lemma {:induction false} EscapeUntouched(t: string)
    requires '&' !in t && '<' !in t && '>' !in t
    ensures EscapeWith(t, Full) == t
  {
    if t != "" {
      EscapeUntouched(t[1..]);
      assert t == [t[0]] + t[1..];
    }
  }

  /** Sanitizing distributes over concatenation. */
  lemma SanitizeAppend(a: string, b: string)
    ensures Sanitize(a + b) == Sanitize(a) + Sanitize(b)
  {
    SanitizeEscapes(a);
    SanitizeEscapes(b);
    SanitizeEscapes(a + b);
    EscapeAppend(a, b, Full);
  }
}
