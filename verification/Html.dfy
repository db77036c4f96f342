/** escapeHtml (deliverables.ts): five replacements one after the other, against one substitution of characters. */
module Html {
  import opened Prelude
  import opened Text

  /** replaceAll of one character. */
  function ReplaceAll(s: string, c: char, text: string): string {
    if s == "" then "" else (if s[0] == c then text else [s[0]]) + ReplaceAll(s[1..], c, text)
  }

  function EscapeHtml(s: string): string {
    ReplaceAll(ReplaceAll(ReplaceAll(ReplaceAll(ReplaceAll(s,
      '&', "&amp;"),
      '<', "&lt;"),
      '>', "&gt;"),
      '"', "&quot;"),
      '\'', "&#039;")
  }

  /** What a character is written as. */
  function Entity(c: char): string {
    if c == '&' then "&amp;"
    else if c == '<' then "&lt;"
    else if c == '>' then "&gt;"
    else if c == '"' then "&quot;"
    else if c == '\'' then "&#039;"
    else [c]
  }

  /** Every character substituted, all at once. */
  function Substituted(s: string): string {
    if s == "" then "" else Entity(s[0]) + Substituted(s[1..])
  }

  lemma {:induction false} ReplaceConcat(a: string, b: string, c: char, text: string)
    ensures ReplaceAll(a + b, c, text) == ReplaceAll(a, c, text) + ReplaceAll(b, c, text)
  {
    if a == "" {
      assert a + b == b;
    } else {
      ReplaceConcat(a[1..], b, c, text);
      ConcatAssociates(if a[0] == c then text else [a[0]], ReplaceAll(a[1..], c, text), ReplaceAll(b, c, text));
      assert (a + b)[1..] == a[1..] + b;
    }
  }

  lemma {:induction false} ReplaceAbsent(s: string, c: char, text: string)
    requires c !in s
    ensures ReplaceAll(s, c, text) == s
  {
    if s != "" {
      assert s[0] in s && s == [s[0]] + s[1..];
      ReplaceAbsent(s[1..], c, text);
    }
  }

  lemma ReplaceOne(c: char, d: char, text: string)
    ensures ReplaceAll([c], d, text) == if c == d then text else [c]
  {
    assert [c][1..] == "";
    assert text + "" == text;
  }

  lemma EscapeConcat(a: string, b: string)
    ensures EscapeHtml(a + b) == EscapeHtml(a) + EscapeHtml(b)
  {
    var a1, b1 := ReplaceAll(a, '&', "&amp;"), ReplaceAll(b, '&', "&amp;");
    var a2, b2 := ReplaceAll(a1, '<', "&lt;"), ReplaceAll(b1, '<', "&lt;");
    var a3, b3 := ReplaceAll(a2, '>', "&gt;"), ReplaceAll(b2, '>', "&gt;");
    var a4, b4 := ReplaceAll(a3, '"', "&quot;"), ReplaceAll(b3, '"', "&quot;");
    ReplaceConcat(a, b, '&', "&amp;");
    ReplaceConcat(a1, b1, '<', "&lt;");
    ReplaceConcat(a2, b2, '>', "&gt;");
    ReplaceConcat(a3, b3, '"', "&quot;");
    ReplaceConcat(a4, b4, '\'', "&#039;");
  }

  /** None of the characters that a later replacement would touch. */
  predicate NoMarkup(s: string) {
    '<' !in s && '>' !in s && '"' !in s && '\'' !in s
  }

  lemma LaterReplacements(s: string)
    requires NoMarkup(s)
    ensures ReplaceAll(s, '<', "&lt;") == s && ReplaceAll(s, '>', "&gt;") == s && ReplaceAll(s, '"', "&quot;") == s
    ensures ReplaceAll(s, '\'', "&#039;") == s
  {
    ReplaceAbsent(s, '<', "&lt;");
    ReplaceAbsent(s, '>', "&gt;");
    ReplaceAbsent(s, '"', "&quot;");
    ReplaceAbsent(s, '\'', "&#039;");
  }

  lemma EntityHasNoMarkup(c: char)
    ensures NoMarkup(Entity(c)) && Entity(c) != ""
  {
  }

  /** On one character the five replacements give its entity: none touches what an earlier one has written. */
  lemma EscapeOne(c: char)
    ensures EscapeHtml([c]) == Entity(c)
  {
    EntityHasNoMarkup(c);
    LaterReplacements(Entity(c));
    ReplaceOne(c, '&', "&amp;");
    ReplaceOne(c, '<', "&lt;");
    ReplaceOne(c, '>', "&gt;");
    ReplaceOne(c, '"', "&quot;");
    ReplaceOne(c, '\'', "&#039;");
  }

  /** The five replacements are one substitution of every character. */
  lemma {:induction false} EscapeIsSubstitution(s: string)
    ensures EscapeHtml(s) == Substituted(s)
  {
    if s != "" {
      assert s == [s[0]] + s[1..];
      EscapeConcat([s[0]], s[1..]);
      EscapeOne(s[0]);
      EscapeIsSubstitution(s[1..]);
    }
  }

  lemma {:induction false} SubstitutedHasNoMarkup(s: string)
    ensures NoMarkup(Substituted(s))
  {
    if s != "" {
      SubstitutedHasNoMarkup(s[1..]);
      EntityHasNoMarkup(s[0]);
    }
  }

  // ---------- Decoding ----------

  /** Reads the entities back; an ampersand that starts none of them stands for itself. */
  function Unescape(s: string): string
    decreases |s|
  {
    if s == "" then ""
    else if StartsWith(s, "&amp;") then "&" + Unescape(s[5..])
    else if StartsWith(s, "&lt;") then "<" + Unescape(s[4..])
    else if StartsWith(s, "&gt;") then ">" + Unescape(s[4..])
    else if StartsWith(s, "&quot;") then "\"" + Unescape(s[6..])
    else if StartsWith(s, "&#039;") then "'" + Unescape(s[6..])
    else [s[0]] + Unescape(s[1..])
  }

  lemma StartsOtherwise(s: string, prefix: string)
    requires |s| > 1 && |prefix| > 1 && s[1] != prefix[1]
    ensures !StartsWith(s, prefix)
  {
    if |prefix| <= |s| {
      assert s[..|prefix|][1] == s[1];
    }
  }

  lemma UnescapeAmpersand(rest: string)
    ensures Unescape("&amp;" + rest) == "&" + Unescape(rest)
  {
    var s := "&amp;" + rest;
    assert s[1] == "&amp;"[1] && s[..5] == "&amp;" && s[5..] == rest;
  }

  lemma UnescapeLess(rest: string)
    ensures Unescape("&lt;" + rest) == "<" + Unescape(rest)
  {
    var s := "&lt;" + rest;
    assert s[1] == "&lt;"[1] && s[..4] == "&lt;" && s[4..] == rest;
    StartsOtherwise(s, "&amp;");
  }

  lemma UnescapeGreater(rest: string)
    ensures Unescape("&gt;" + rest) == ">" + Unescape(rest)
  {
    var s := "&gt;" + rest;
    assert s[1] == "&gt;"[1] && s[..4] == "&gt;" && s[4..] == rest;
    StartsOtherwise(s, "&amp;");
    StartsOtherwise(s, "&lt;");
  }

  lemma UnescapeQuote(rest: string)
    ensures Unescape("&quot;" + rest) == "\"" + Unescape(rest)
  {
    var s := "&quot;" + rest;
    assert s[1] == "&quot;"[1] && s[..6] == "&quot;" && s[6..] == rest;
    StartsOtherwise(s, "&amp;");
    StartsOtherwise(s, "&lt;");
    StartsOtherwise(s, "&gt;");
  }

  lemma UnescapeApostrophe(rest: string)
    ensures Unescape("&#039;" + rest) == "'" + Unescape(rest)
  {
    var s := "&#039;" + rest;
    assert s[1] == "&#039;"[1] && s[..6] == "&#039;" && s[6..] == rest;
    StartsOtherwise(s, "&amp;");
    StartsOtherwise(s, "&lt;");
    StartsOtherwise(s, "&gt;");
    StartsOtherwise(s, "&quot;");
  }

  lemma UnescapeOther(c: char, rest: string)
    requires c != '&'
    ensures Unescape([c] + rest) == [c] + Unescape(rest)
  {
    var s := [c] + rest;
    assert s[0] == c && s[1..] == rest;
    forall prefix: string | prefix != "" && prefix[0] == '&' ensures !StartsWith(s, prefix) {
      if |prefix| <= |s| {
        assert s[..|prefix|][0] == s[0];
      }
    }
  }

  lemma UnescapeEntity(c: char, rest: string)
    ensures Unescape(Entity(c) + rest) == [c] + Unescape(rest)
  {
    if c == '&' {
      UnescapeAmpersand(rest);
    } else if c == '<' {
      UnescapeLess(rest);
    } else if c == '>' {
      UnescapeGreater(rest);
    } else if c == '"' {
      UnescapeQuote(rest);
    } else if c == '\'' {
      UnescapeApostrophe(rest);
    } else {
      UnescapeOther(c, rest);
    }
  }

  lemma {:induction false} UnescapeSubstituted(s: string)
    ensures Unescape(Substituted(s)) == s
  {
    if s != "" {
      UnescapeEntity(s[0], Substituted(s[1..]));
      UnescapeSubstituted(s[1..]);
      assert [s[0]] + s[1..] == s;
    }
  }

  /** Escaped text has no markup characters and is read back as it was, for every text. */
  lemma EscapeIsSafeAndReversible(s: string)
    ensures NoMarkup(EscapeHtml(s)) && Unescape(EscapeHtml(s)) == s
  {
    EscapeIsSubstitution(s);
    SubstitutedHasNoMarkup(s);
    UnescapeSubstituted(s);
  }
}
