/**
 * `escapeHtml` (EcoVoyage/web/script.js:298-300): each of the five
 * characters `& < > " '` is replaced by its fixed character reference, every
 * other character is copied through. The page passes it the city name before
 * inserting it into markup.
 */
module Escape {

  /** The characters the regular expression `/[&<>"']/g` matches. */
  predicate Special(c: char)
  {
    c == '&' || c == '<' || c == '>' || c == '"' || c == '\''
  }

  /** Characters that could open or close a tag or an attribute value. */
  predicate Markup(c: char)
  {
    c == '<' || c == '>' || c == '"' || c == '\''
  }

  /** The replacement table of the arrow function. */
  function Entity(c: char): (r: string)
    ensures Special(c) ==> |r| >= 4 && r[0] == '&' && r[|r| - 1] == ';'
    ensures !Special(c) ==> r == [c]
    ensures forall k :: 0 <= k < |r| ==> !Markup(r[k])
  {
    match c
    case '&' => "&amp;"
    case '<' => "&lt;"
    case '>' => "&gt;"
    case '"' => "&quot;"
    case '\'' => "&#39;"
    case _ => [c]
  }

  /** The escaped text: no markup character survives, and nothing gets shorter. */
  function EscapeHtml(s: string): (r: string)
    ensures |r| >= |s|
    ensures forall k :: 0 <= k < |r| ==> !Markup(r[k])
  {
    if s == [] then [] else Entity(s[0]) + EscapeHtml(s[1..])
  }

  /** Escaping works character by character, so it distributes over concatenation. */
  lemma {:induction false} EscapeConcat(a: string, b: string)
    ensures EscapeHtml(a + b) == EscapeHtml(a) + EscapeHtml(b)
  {
    if a == [] {
      assert a + b == b;
    } else {
      assert (a + b)[0] == a[0];
      assert (a + b)[1..] == a[1..] + b;
      EscapeConcat(a[1..], b);
    }
  }

  /** Text without any of the five characters passes through unchanged. */
  lemma {:induction false} EscapePlain(s: string)
    requires forall k :: 0 <= k < |s| ==> !Special(s[k])
    ensures EscapeHtml(s) == s
  {
    if s != [] {
      EscapePlain(s[1..]);
    }
  }

  /** Each input character becomes its own entity, in order: the output is the concatenation of `Entity(s[k])`. */
  lemma {:induction false} EscapeAt(s: string, k: nat)
    requires k < |s|
    ensures EscapeHtml(s) == EscapeHtml(s[..k]) + Entity(s[k]) + EscapeHtml(s[k + 1..])
  {
    assert s == s[..k] + [s[k]] + s[k + 1..];
    EscapeConcat(s[..k] + [s[k]], s[k + 1..]);
    EscapeConcat(s[..k], [s[k]]);
    assert [s[k]][1..] == [];
    assert EscapeHtml([s[k]]) == Entity(s[k]) + [];
  }

  // ----- The inverse: decoding the five references -----

  predicate StartsWith(s: string, prefix: string)
  {
    |prefix| <= |s| && s[..|prefix|] == prefix
  }

  /** Reads the five references back as characters; anything else is copied. */
  function Unescape(s: string): string
    decreases |s|
  {
    if s == [] then []
    else if StartsWith(s, "&amp;") then "&" + Unescape(s[5..])
    else if StartsWith(s, "&lt;") then "<" + Unescape(s[4..])
    else if StartsWith(s, "&gt;") then ">" + Unescape(s[4..])
    else if StartsWith(s, "&quot;") then "\"" + Unescape(s[6..])
    else if StartsWith(s, "&#39;") then "'" + Unescape(s[5..])
    else [s[0]] + Unescape(s[1..])
  }

  lemma UnescapeEntity(c: char, rest: string)
    ensures Unescape(Entity(c) + rest) == [c] + Unescape(rest)
  {
    var s := Entity(c) + rest;
    if !Special(c) {
      assert s[0] == c;
      assert !StartsWith(s, "&amp;") && !StartsWith(s, "&lt;") && !StartsWith(s, "&gt;")
        && !StartsWith(s, "&quot;") && !StartsWith(s, "&#39;") by {
        assert c != '&';
      }
      assert s[1..] == rest;
    } else if c == '&' {
      assert s[..5] == "&amp;" && s[5..] == rest;
    } else if c == '<' {
      assert s[..4] == "&lt;" && s[4..] == rest;
      assert s[1] == 'l';
    } else if c == '>' {
      assert s[..4] == "&gt;" && s[4..] == rest;
      assert s[1] == 'g';
    } else if c == '"' {
      assert s[..6] == "&quot;" && s[6..] == rest;
      assert s[1] == 'q';
    } else {
      assert s[..5] == "&#39;" && s[5..] == rest;
      assert s[1] == '#';
    }
  }

  /** Decoding the escaped text gives back the original: escaping loses nothing. */
  lemma {:induction false} UnescapeEscape(s: string)
    ensures Unescape(EscapeHtml(s)) == s
  {
    if s != [] {
      UnescapeEntity(s[0], EscapeHtml(s[1..]));
      UnescapeEscape(s[1..]);
    }
  }

  /** Hence two texts that escape alike are the same text. */
  lemma EscapeInjective(a: string, b: string)
    requires EscapeHtml(a) == EscapeHtml(b)
    ensures a == b
  {
    UnescapeEscape(a);
    UnescapeEscape(b);
  }
}
