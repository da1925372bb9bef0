/** `escapeHtml`: the text of a value made safe for HTML by replacing the
    five characters `&`, `<`, `>`, `"` and `'` with entity references. */
module Html {
  import opened Wrappers
  import opened Text

  /** `String(s ?? "")` for a value that is text, `null` or `undefined`. */
  function TextOf(s: Option<string>): string
  {
    if s.Some? then s.value else ""
  }

  /** The five `replaceAll` passes, `&` first. */
  function Passes(t: string): string
  {
    ReplaceAll(ReplaceAll(ReplaceAll(ReplaceAll(ReplaceAll(t, '&', "&amp;"), '<', "&lt;"), '>', "&gt;"), '"', "&quot;"), '\'', "&#039;")
  }

  /** `escapeHtml(s)` */
  function EscapeHtml(s: Option<string>): (r: string)
    ensures s.None? ==> r == ""
  {
    Passes(TextOf(s))
  }

  predicate IsMarkup(c: char)
  {
    c == '&' || c == '<' || c == '>' || c == '"' || c == '\''
  }

  /** The characters that must not appear raw in escaped text. */
  predicate IsRaw(c: char)
  {
    c == '<' || c == '>' || c == '"' || c == '\''
  }

  /** The reference definition: each character on its own. */
  function EscapeChar(c: char): (r: string)
    ensures !IsMarkup(c) ==> r == [c]
    ensures |r| >= 1 && r[0] == (if IsMarkup(c) then '&' else c)
    ensures forall k :: 0 <= k < |r| ==> !IsRaw(r[k])
  {
    match c
    case '&' => "&amp;"
    case '<' => "&lt;"
    case '>' => "&gt;"
    case '"' => "&quot;"
    case '\'' => "&#039;"
    case _ => [c]
  }

  function EscapeEach(t: string): string
  {
    if t == [] then [] else EscapeChar(t[0]) + EscapeEach(t[1..])
  }

  lemma PassesConcat(a: string, b: string)
    ensures Passes(a + b) == Passes(a) + Passes(b)
  {
    ReplaceAllConcat(a, b, '&', "&amp;");
    var a1, b1 := ReplaceAll(a, '&', "&amp;"), ReplaceAll(b, '&', "&amp;");
    ReplaceAllConcat(a1, b1, '<', "&lt;");
    var a2, b2 := ReplaceAll(a1, '<', "&lt;"), ReplaceAll(b1, '<', "&lt;");
    ReplaceAllConcat(a2, b2, '>', "&gt;");
    var a3, b3 := ReplaceAll(a2, '>', "&gt;"), ReplaceAll(b2, '>', "&gt;");
    ReplaceAllConcat(a3, b3, '"', "&quot;");
    var a4, b4 := ReplaceAll(a3, '"', "&quot;"), ReplaceAll(b3, '"', "&quot;");
    ReplaceAllConcat(a4, b4, '\'', "&#039;");
  }

  lemma PassesChar(c: char)
    ensures Passes([c]) == EscapeChar(c)
  {
  }

  /** Because `&` is replaced first, the passes never re-escape an entity
      they introduced: each character is escaped exactly once. */
  lemma {:induction false} EscapeHtmlPerChar(t: string)
    ensures EscapeHtml(Some(t)) == EscapeEach(t)
  {
    if t != [] {
      assert t == [t[0]] + t[1..];
      PassesConcat([t[0]], t[1..]);
      PassesChar(t[0]);
      EscapeHtmlPerChar(t[1..]);
    }
  }

  /** A text with none of the five characters comes back unchanged. */
  lemma PlainUnchanged(t: string)
    requires forall k :: 0 <= k < |t| ==> !IsMarkup(t[k])
    ensures EscapeHtml(Some(t)) == t
  {
    assert '&' !in t && '<' !in t && '>' !in t && '"' !in t && '\'' !in t;
  }

  /** The escaped text holds no raw `<`, `>`, `"` or `'`. */
  lemma {:induction false} EscapedIsSafe(t: string)
    ensures forall k :: 0 <= k < |EscapeHtml(Some(t))| ==> !IsRaw(EscapeHtml(Some(t))[k])
  {
    EscapeHtmlPerChar(t);
    EscapeEachSafe(t);
  }

  lemma {:induction false} EscapeEachSafe(t: string)
    ensures forall k :: 0 <= k < |EscapeEach(t)| ==> !IsRaw(EscapeEach(t)[k])
  {
    if t != [] {
      EscapeEachSafe(t[1..]);
      var h, r := EscapeChar(t[0]), EscapeEach(t[1..]);
      forall k | 0 <= k < |h + r| ensures !IsRaw((h + r)[k]) {
        if k >= |h| {
          assert (h + r)[k] == r[k - |h|];
          assert !IsRaw(r[k - |h|]);
        } else {
          assert (h + r)[k] == h[k];
          assert !IsRaw(h[k]);
        }
      }
    }
  }

  /** Decoding the five entity references, the inverse of the escape. */
  function Unescape(s: string): (r: string)
    decreases |s|
  {
    if s == [] then []
    else if |s| >= 5 && s[..5] == "&amp;" then "&" + Unescape(s[5..])
    else if |s| >= 4 && s[..4] == "&lt;" then "<" + Unescape(s[4..])
    else if |s| >= 4 && s[..4] == "&gt;" then ">" + Unescape(s[4..])
    else if |s| >= 6 && s[..6] == "&quot;" then "\"" + Unescape(s[6..])
    else if |s| >= 6 && s[..6] == "&#039;" then "'" + Unescape(s[6..])
    else [s[0]] + Unescape(s[1..])
  }

  lemma UnescapeChar(c: char, rest: string)
    ensures Unescape(EscapeChar(c) + rest) == [c] + Unescape(rest)
  {
    if IsMarkup(c) {
      UnescapeEntity(c, rest);
    } else {
      UnescapePlain([c] + rest);
      assert ([c] + rest)[1..] == rest;
    }
  }

  /** Text not starting with `&` decodes its first character as itself. */
  lemma UnescapePlain(s: string)
    requires s != [] && s[0] != '&'
    ensures Unescape(s) == [s[0]] + Unescape(s[1..])
  {
    assert |s| >= 5 ==> s[..5][0] == s[0];
    assert |s| >= 4 ==> s[..4][0] == s[0];
    assert |s| >= 6 ==> s[..6][0] == s[0];
  }

  /** Each entity is recognised by the decoder and nothing after it is consumed. */
  lemma UnescapeEntity(c: char, rest: string)
    requires IsMarkup(c)
    ensures Unescape(EscapeChar(c) + rest) == [c] + Unescape(rest)
  {
    var e := EscapeChar(c);
    var s := e + rest;
    assert s[..|e|] == e && s[|e|..] == rest;
    assert |s| >= 5 ==> s[..5][1] == s[1];
    assert |s| >= 4 ==> s[..4][1] == s[1];
    assert |s| >= 6 ==> s[..6][1] == s[1];
    assert s[1] == e[1];
  }

  /** Decoding the escaped text gives back the original text. */
  lemma {:induction false} UnescapeEscape(t: string)
    ensures Unescape(EscapeHtml(Some(t))) == t
  {
    EscapeHtmlPerChar(t);
    UnescapeEach(t);
  }

  lemma {:induction false} UnescapeEach(t: string)
    ensures Unescape(EscapeEach(t)) == t
  {
    if t != [] {
      UnescapeChar(t[0], EscapeEach(t[1..]));
      UnescapeEach(t[1..]);
      assert t == [t[0]] + t[1..];
    }
  }
}
