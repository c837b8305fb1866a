/**
 * `escapeHtml`: every `&`, `<`, `>`, `"` and `'` of a string is replaced by
 * its character reference (`&amp;`, `&lt;`, `&gt;`, `&quot;`, `&#39;`), and
 * every other character is kept.  Team names, conference names, the league
 * name and the bracket's names all pass through it before reaching the page.
 */
module Html {
  import opened Seqs

  /** The characters the escape replaces. */
  predicate Special(c: char)
  {
    c == '&' || c == '<' || c == '>' || c == '"' || c == '\''
  }

  /** What one character becomes. */
  function EscapeChar(c: char): (r: string)
    ensures |r| >= 1
    ensures !Special(c) ==> r == [c]
    ensures Special(c) ==> r[0] == '&' && |r| >= 4 && r[|r| - 1] == ';'
  {
    match c
    case '&' => "&amp;"
    case '<' => "&lt;"
    case '>' => "&gt;"
    case '"' => "&quot;"
    case '\'' => "&#39;"
    case _ => [c]
  }

  /** `escapeHtml(s)`. */
  function EscapeHtml(s: string): (r: string)
    ensures |r| >= |s|
  {
    if s == [] then [] else EscapeChar(s[0]) + EscapeHtml(s[1..])
  }

  /** Decoding the five references back, one at a time from the left; an `&` that starts none of them stays. */
  function Unescape(s: string): string
  {
    if s == [] then []
    else if s[0] != '&' then [s[0]] + Unescape(s[1..])
    else if |s| >= 5 && s[..5] == "&amp;" then "&" + Unescape(s[5..])
    else if |s| >= 4 && s[..4] == "&lt;" then "<" + Unescape(s[4..])
    else if |s| >= 4 && s[..4] == "&gt;" then ">" + Unescape(s[4..])
    else if |s| >= 6 && s[..6] == "&quot;" then "\"" + Unescape(s[6..])
    else if |s| >= 5 && s[..5] == "&#39;" then "'" + Unescape(s[5..])
    else [s[0]] + Unescape(s[1..])
  }

  /** Decoding an escaped character, followed by anything, gives the character back first. */
  lemma {:induction false} UnescapeChar(c: char, rest: string)
    ensures Unescape(EscapeChar(c) + rest) == [c] + Unescape(rest)
  {
    var e := EscapeChar(c) + rest;
    AppendHalves(EscapeChar(c), rest);
    match c
    case '&' =>
    case '<' =>
    case '>' =>
    case '"' =>
      assert e[..4][1] == 'q' && e[..4][1] != "&lt;"[1] && e[..4][1] != "&gt;"[1];
    case '\'' =>
      assert e[..4][1] == '#' && e[..4][1] != "&lt;"[1] && e[..4][1] != "&gt;"[1];
    case _ =>
  }

  /** The escape loses nothing: decoding gives the original string back. */
  lemma {:induction false} UnescapeEscape(s: string)
    ensures Unescape(EscapeHtml(s)) == s
  {
    if s != [] {
      UnescapeEscape(s[1..]);
      UnescapeChar(s[0], EscapeHtml(s[1..]));
      SplitFirst(s);
    }
  }

  /** No `<`, `>`, `"` or `'` survives, so the result cannot open a tag or close an attribute. */
  lemma {:induction false} EscapedIsInert(s: string)
    ensures forall i :: 0 <= i < |EscapeHtml(s)| ==> EscapeHtml(s)[i] !in "<>\"'"
  {
    if s != [] {
      EscapedIsInert(s[1..]);
      var head, tail := EscapeChar(s[0]), EscapeHtml(s[1..]);
      assert EscapeHtml(s) == head + tail;
      forall i | 0 <= i < |head + tail| ensures (head + tail)[i] !in "<>\"'" {
        if i >= |head| {
          assert (head + tail)[i] == tail[i - |head|];
        }
      }
    }
  }

  /** Strings without special characters pass through unchanged. */
  lemma {:induction false} EscapePlain(s: string)
    requires forall i :: 0 <= i < |s| ==> !Special(s[i])
    ensures EscapeHtml(s) == s
  {
    if s != [] {
      EscapePlain(s[1..]);
      SplitFirst(s);
    }
  }

  /** Escaping distributes over concatenation, as a global replace does. */
  lemma {:induction false} EscapeAppend(a: string, b: string)
    ensures EscapeHtml(a + b) == EscapeHtml(a) + EscapeHtml(b)
  {
    if a != [] {
      TailAppend(a, b);
      EscapeAppend(a[1..], b);
    } else {
      EmptyAppend(a, b);
      assert b + a == b;
    }
  }
}
