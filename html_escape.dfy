/** `escapeHtml` of app.js: the five HTML-special characters become entity
    references, every other character is kept, and falsy input (null,
    undefined, "") becomes "". */
module HtmlEscape {
  import opened Wrappers

  /** The characters the replacement targets: & < > " ' */
  predicate IsSpecial(c: char) {
    c == '&' || c == '<' || c == '>' || c == '"' || c == '\''
  }

  /** The replacement for one character. */
  function Entity(c: char): string {
    match c
    case '&' => "&amp;"
    case '<' => "&lt;"
    case '>' => "&gt;"
    case '"' => "&quot;"
    case '\'' => "&#39;"
    case _ => [c]
  }

  /** The global replace over a whole string. The result never holds a
      character that could open a tag or close an attribute value. */
  function EscapeText(s: string): (r: string)
    ensures forall i :: 0 <= i < |r| ==> r[i] != '<' && r[i] != '>' && r[i] != '"' && r[i] != '\''
    ensures |r| >= |s|
  {
    if s == [] then [] else Entity(s[0]) + EscapeText(s[1..])
  }

  /** `escapeHtml(s)`: "" for a falsy argument, the replaced text otherwise. */
  function EscapeHtml(s: Option<string>): (r: string)
    ensures s.None? || s == Some("") ==> r == ""
    ensures s.Some? ==> r == EscapeText(s.value)
  {
    if s.None? || s.value == "" then "" else EscapeText(s.value)
  }

  /** Decoding of the five entity references, the reading a browser gives
      the escaped text. */
  function Unescape(t: string): string
    decreases |t|
  {
    if t == [] then []
    else if "&amp;" <= t then "&" + Unescape(t[5..])
    else if "&lt;" <= t then "<" + Unescape(t[4..])
    else if "&gt;" <= t then ">" + Unescape(t[4..])
    else if "&quot;" <= t then "\"" + Unescape(t[6..])
    else if "&#39;" <= t then "'" + Unescape(t[5..])
    else [t[0]] + Unescape(t[1..])
  }

  /** Decoding one replaced character in front of any text gives the character back. */
  lemma UnescapeEntity(c: char, rest: string)
    ensures Unescape(Entity(c) + rest) == [c] + Unescape(rest)
  {
    var t := Entity(c) + rest;
    match c
    case '&' => assert t[1] == 'a' && t[5..] == rest;
    case '<' => assert t[1] == 'l' && t[4..] == rest;
    case '>' => assert t[1] == 'g' && t[4..] == rest;
    case '"' => assert t[1] == 'q' && t[6..] == rest;
    case '\'' => assert t[1] == '#' && t[2] == '3' && t[5..] == rest;
    case _ =>
      assert t[0] == c && t[1..] == rest;
  }

  /** Decoding recovers the original text: escaping loses nothing. */
  lemma {:induction false} UnescapeEscapeText(s: string)
    ensures Unescape(EscapeText(s)) == s
  {
    if s != [] {
      UnescapeEntity(s[0], EscapeText(s[1..]));
      UnescapeEscapeText(s[1..]);
      assert [s[0]] + s[1..] == s;
    }
  }

  /** Escaping works character by character, so it distributes over concatenation. */
  lemma {:induction false} EscapeTextAppend(a: string, b: string)
    ensures EscapeText(a + b) == EscapeText(a) + EscapeText(b)
  {
    if a == [] {
      assert a + b == b;
    } else {
      assert (a + b)[0] == a[0] && (a + b)[1..] == a[1..] + b;
      EscapeTextAppend(a[1..], b);
      calc {
        EscapeText(a + b);
        Entity(a[0]) + EscapeText(a[1..] + b);
        Entity(a[0]) + (EscapeText(a[1..]) + EscapeText(b));
        (Entity(a[0]) + EscapeText(a[1..])) + EscapeText(b);
      }
    }
  }

  /** Text without special characters passes through unchanged. */
  lemma {:induction false} EscapeTextPlain(s: string)
    requires forall i :: 0 <= i < |s| ==> !IsSpecial(s[i])
    ensures EscapeText(s) == s
  {
    if s != [] {
      EscapeTextPlain(s[1..]);
      assert [s[0]] + s[1..] == s;
    }
  }

  /** Every ampersand in the output begins one of the five references. */
  lemma {:induction false} AmpersandsBeginEntities(s: string, i: nat)
    requires i < |EscapeText(s)| && EscapeText(s)[i] == '&'
    ensures var t := EscapeText(s)[i..];
      "&amp;" <= t || "&lt;" <= t || "&gt;" <= t || "&quot;" <= t || "&#39;" <= t
  {
    var e := Entity(s[0]);
    var r := EscapeText(s[1..]);
    assert EscapeText(s) == e + r;
    if i < |e| {
      assert i == 0;
      assert EscapeText(s)[i..] == e + r;
    } else {
      assert EscapeText(s)[i..] == r[i - |e|..];
      AmpersandsBeginEntities(s[1..], i - |e|);
    }
  }
}
