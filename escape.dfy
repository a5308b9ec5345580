/**
 * `Utils.escapeHtml` of app.js: five `replaceAll` passes over the text,
 * `&` first, then `<`, `>`, `"` and `'`.
 */
module Html {
  import opened Wrappers

  /** `s.replaceAll(c, rep)` for a one-character pattern: every occurrence of `c` becomes `rep`. */
  function ReplaceAll(s: string, c: char, rep: string): (r: string)
    ensures c !in rep ==> c !in r
  {
    if |s| == 0 then "" else (if s[0] == c then rep else [s[0]]) + ReplaceAll(s[1..], c, rep)
  }

  /** `Utils.escapeHtml(s)`. */
  function EscapeHtml(s: string): string {
    ReplaceAll(ReplaceAll(ReplaceAll(ReplaceAll(ReplaceAll(s, '&', "&amp;"), '<', "&lt;"), '>', "&gt;"), '"', "&quot;"), '\'', "&#039;")
  }

  /** The replacement of one character, as the five passes together treat it. */
  function EscapeChar(c: char): string {
    if c == '&' then "&amp;"
    else if c == '<' then "&lt;"
    else if c == '>' then "&gt;"
    else if c == '"' then "&quot;"
    else if c == '\'' then "&#039;"
    else [c]
  }

  /** A single left-to-right pass replacing each character by its escape. */
  function EscapeEach(s: string): string {
    if |s| == 0 then "" else EscapeChar(s[0]) + EscapeEach(s[1..])
  }

  /** The characters that the escaping keeps out of its output. */
  predicate IsMarkup(c: char) {
    c == '<' || c == '>' || c == '"' || c == '\''
  }

  predicate HasPrefix(s: string, p: string) {
    |p| <= |s| && s[..|p|] == p
  }

  /** One of the five entities starts at position i. */
  predicate EntityAt(r: string, i: nat)
    requires i <= |r|
  {
    var t := r[i..];
    HasPrefix(t, "&amp;") || HasPrefix(t, "&lt;") || HasPrefix(t, "&gt;") ||
    HasPrefix(t, "&quot;") || HasPrefix(t, "&#039;")
  }

  /** The character whose entity starts the text, with the entity's length, if one does. */
  function DecodeEntity(t: string): Option<(char, nat)> {
    if HasPrefix(t, "&amp;") then Some(('&', 5))
    else if HasPrefix(t, "&lt;") then Some(('<', 4))
    else if HasPrefix(t, "&gt;") then Some(('>', 4))
    else if HasPrefix(t, "&quot;") then Some(('"', 6))
    else if HasPrefix(t, "&#039;") then Some(('\'', 6))
    else None
  }

  /** Decodes the five entities back to their characters; any other character stands for itself. */
  function Unescape(r: string): string
    decreases |r|
  {
    if |r| == 0 then ""
    else match DecodeEntity(r)
      case Some((c, n)) => if n <= |r| then [c] + Unescape(r[n..]) else ""
      case None => [r[0]] + Unescape(r[1..])
  }

  lemma {:induction false} ReplaceAllConcat(a: string, b: string, c: char, rep: string)
    ensures ReplaceAll(a + b, c, rep) == ReplaceAll(a, c, rep) + ReplaceAll(b, c, rep)
    decreases |a|
  {
    if |a| == 0 {
      assert a + b == b;
    } else {
      assert (a + b)[0] == a[0];
      assert (a + b)[1..] == a[1..] + b;
      ReplaceAllConcat(a[1..], b, c, rep);
    }
  }

  lemma {:induction false} ReplaceAllAbsent(s: string, c: char, rep: string)
    requires c !in s
    ensures ReplaceAll(s, c, rep) == s
    decreases |s|
  {
    if |s| > 0 {
      assert s[1..] + [] == s[1..];
      ReplaceAllAbsent(s[1..], c, rep);
      assert [s[0]] + s[1..] == s;
    }
  }

  /** The five passes distribute over concatenation. */
  lemma EscapeHtmlConcat(a: string, b: string)
    ensures EscapeHtml(a + b) == EscapeHtml(a) + EscapeHtml(b)
  {
    var a1, b1 := ReplaceAll(a, '&', "&amp;"), ReplaceAll(b, '&', "&amp;");
    ReplaceAllConcat(a, b, '&', "&amp;");
    var a2, b2 := ReplaceAll(a1, '<', "&lt;"), ReplaceAll(b1, '<', "&lt;");
    ReplaceAllConcat(a1, b1, '<', "&lt;");
    var a3, b3 := ReplaceAll(a2, '>', "&gt;"), ReplaceAll(b2, '>', "&gt;");
    ReplaceAllConcat(a2, b2, '>', "&gt;");
    var a4, b4 := ReplaceAll(a3, '"', "&quot;"), ReplaceAll(b3, '"', "&quot;");
    ReplaceAllConcat(a3, b3, '"', "&quot;");
    ReplaceAllConcat(a4, b4, '\'', "&#039;");
  }

  lemma ReplaceAllOne(x: char, c: char, rep: string)
    ensures ReplaceAll([x], c, rep) == if x == c then rep else [x]
  {
    assert [x][1..] == [];
  }

  /** The five passes one after another, each named. */
  lemma PassesOn(t: string, c1: string, c2: string, c3: string, c4: string, c5: string)
    requires c1 == ReplaceAll(t, '&', "&amp;") && c2 == ReplaceAll(c1, '<', "&lt;")
    requires c3 == ReplaceAll(c2, '>', "&gt;") && c4 == ReplaceAll(c3, '"', "&quot;")
    requires c5 == ReplaceAll(c4, '\'', "&#039;")
    ensures EscapeHtml(t) == c5
  {
  }

  /** An entity produced by one pass is left alone by the passes after it. */
  lemma EntityUntouched(e: string, c: char, rep: string)
    requires e in ["&amp;", "&lt;", "&gt;", "&quot;"] && IsMarkup(c)
    ensures ReplaceAll(e, c, rep) == e
  {
    ReplaceAllAbsent(e, c, rep);
  }

  /** On one character the five passes give that character's escape: no later pass touches an earlier entity. */
  lemma EscapeHtmlChar(c: char)
    ensures EscapeHtml([c]) == EscapeChar(c)
  {
    var e := EscapeChar(c);
    if c == '&' {
      ReplaceAllOne(c, '&', "&amp;");
      EntityUntouched(e, '<', "&lt;");
      EntityUntouched(e, '>', "&gt;");
      EntityUntouched(e, '"', "&quot;");
      EntityUntouched(e, '\'', "&#039;");
      PassesOn([c], e, e, e, e, e);
    } else if c == '<' {
      ReplaceAllOne(c, '&', "&amp;");
      ReplaceAllOne(c, '<', "&lt;");
      EntityUntouched(e, '>', "&gt;");
      EntityUntouched(e, '"', "&quot;");
      EntityUntouched(e, '\'', "&#039;");
      PassesOn([c], [c], e, e, e, e);
    } else if c == '>' {
      ReplaceAllOne(c, '&', "&amp;");
      ReplaceAllOne(c, '<', "&lt;");
      ReplaceAllOne(c, '>', "&gt;");
      EntityUntouched(e, '"', "&quot;");
      EntityUntouched(e, '\'', "&#039;");
      PassesOn([c], [c], [c], e, e, e);
    } else if c == '"' {
      ReplaceAllOne(c, '&', "&amp;");
      ReplaceAllOne(c, '<', "&lt;");
      ReplaceAllOne(c, '>', "&gt;");
      ReplaceAllOne(c, '"', "&quot;");
      EntityUntouched(e, '\'', "&#039;");
      PassesOn([c], [c], [c], [c], e, e);
    } else {
      ReplaceAllOne(c, '&', "&amp;");
      ReplaceAllOne(c, '<', "&lt;");
      ReplaceAllOne(c, '>', "&gt;");
      ReplaceAllOne(c, '"', "&quot;");
      ReplaceAllOne(c, '\'', "&#039;");
      PassesOn([c], [c], [c], [c], [c], e);
    }
  }

  /** The chain of passes is the same as escaping each character once. */
  lemma {:induction false} EscapeHtmlIsPerChar(s: string)
    ensures EscapeHtml(s) == EscapeEach(s)
    decreases |s|
  {
    if |s| == 0 {
      assert EscapeHtml(s) == "";
    } else {
      assert s == [s[0]] + s[1..];
      EscapeHtmlConcat([s[0]], s[1..]);
      EscapeHtmlChar(s[0]);
      EscapeHtmlIsPerChar(s[1..]);
    }
  }

  lemma {:induction false} EscapeEachNoMarkup(s: string)
    ensures forall i :: 0 <= i < |EscapeEach(s)| ==> !IsMarkup(EscapeEach(s)[i])
    decreases |s|
  {
    if |s| > 0 {
      EscapeEachNoMarkup(s[1..]);
      var chunk := EscapeChar(s[0]);
      assert forall i :: 0 <= i < |chunk| ==> !IsMarkup(chunk[i]);
    }
  }

  lemma {:induction false} EscapeEachEntities(s: string)
    ensures forall i :: 0 <= i < |EscapeEach(s)| && EscapeEach(s)[i] == '&' ==> EntityAt(EscapeEach(s), i)
    decreases |s|
  {
    if |s| > 0 {
      EscapeEachEntities(s[1..]);
      var chunk, rest := EscapeChar(s[0]), EscapeEach(s[1..]);
      var r := chunk + rest;
      forall i | 0 <= i < |r| && r[i] == '&'
        ensures EntityAt(r, i)
      {
        if i < |chunk| {
          assert i == 0;
          assert r[0..][..|chunk|] == chunk;
        } else {
          assert r[i..] == rest[i - |chunk|..];
        }
      }
    }
  }

  lemma NotPrefixAt(t: string, p: string, i: nat)
    requires i < |p| && i < |t| && t[i] != p[i]
    ensures !HasPrefix(t, p)
  {
    if |p| <= |t| {
      assert t[..|p|][i] != p[i];
    }
  }

  lemma PrefixRest(p: string, rest: string)
    ensures HasPrefix(p + rest, p) && (p + rest)[|p|..] == rest
  {
    assert (p + rest)[..|p|] == p;
  }

  /** An escaped character followed by any text decodes to that character and the length of its escape. */
  lemma DecodeChunk(c: char, rest: string)
    ensures DecodeEntity(EscapeChar(c) + rest) ==
      if EscapeChar(c) == [c] then None else Some((c, |EscapeChar(c)|))
  {
    var t := EscapeChar(c) + rest;
    PrefixRest(EscapeChar(c), rest);
    if c == '&' {
    } else if c == '<' {
      NotPrefixAt(t, "&amp;", 1);
    } else if c == '>' {
      NotPrefixAt(t, "&amp;", 1);
      NotPrefixAt(t, "&lt;", 1);
    } else if c == '"' {
      NotPrefixAt(t, "&amp;", 1);
      NotPrefixAt(t, "&lt;", 1);
      NotPrefixAt(t, "&gt;", 1);
    } else if c == '\'' {
      NotPrefixAt(t, "&amp;", 1);
      NotPrefixAt(t, "&lt;", 1);
      NotPrefixAt(t, "&gt;", 1);
      NotPrefixAt(t, "&quot;", 1);
    } else {
      NotPrefixAt(t, "&amp;", 0);
      NotPrefixAt(t, "&lt;", 0);
      NotPrefixAt(t, "&gt;", 0);
      NotPrefixAt(t, "&quot;", 0);
      NotPrefixAt(t, "&#039;", 0);
    }
  }

  /** Decoding an escaped character followed by any text yields that character first. */
  lemma UnescapeChunk(c: char, rest: string)
    ensures Unescape(EscapeChar(c) + rest) == [c] + Unescape(rest)
  {
    var t := EscapeChar(c) + rest;
    DecodeChunk(c, rest);
    PrefixRest(EscapeChar(c), rest);
  }

  lemma {:induction false} EscapeEachRoundTrip(s: string)
    ensures Unescape(EscapeEach(s)) == s
    decreases |s|
  {
    if |s| > 0 {
      EscapeEachRoundTrip(s[1..]);
      UnescapeChunk(s[0], EscapeEach(s[1..]));
      assert s == [s[0]] + s[1..];
    }
  }

  /** The output of `escapeHtml` contains none of `<`, `>`, `"` and `'`. */
  lemma EscapeHtmlNoMarkup(s: string)
    ensures forall i :: 0 <= i < |EscapeHtml(s)| ==> !IsMarkup(EscapeHtml(s)[i])
  {
    EscapeHtmlIsPerChar(s);
    EscapeEachNoMarkup(s);
  }

  /** Every `&` in the output of `escapeHtml` starts one of the five entities, because `&` is replaced first. */
  lemma EscapeHtmlEntities(s: string)
    ensures forall i :: 0 <= i < |EscapeHtml(s)| && EscapeHtml(s)[i] == '&' ==> EntityAt(EscapeHtml(s), i)
  {
    EscapeHtmlIsPerChar(s);
    EscapeEachEntities(s);
  }

  /** Escaping loses nothing: decoding the entities gives the original text back. */
  lemma EscapeHtmlRoundTrip(s: string)
    ensures Unescape(EscapeHtml(s)) == s
  {
    EscapeHtmlIsPerChar(s);
    EscapeEachRoundTrip(s);
  }
}
