/** What cleaning a text (sanitizeStoredText, SafeOperationEndpoint.php) can do to it. */
module Cleaning {
  import opened Text
  import opened SeoMeta

  /** Stripping tags only ever deletes characters: the result is not longer, and is the text itself when it is
      not shorter. */
  ghost predicate OnlyDeletes(env: Env) {
    forall s :: |env.strip(s)| <= |s| && (|env.strip(s)| == |s| ==> env.strip(s) == s)
  }

  // ---------- White space ----------

  /** Only spaces as white space, no two in a row. */
  predicate IsCollapsed(s: string) {
    forall i :: 0 <= i < |s| && IsSpace(s[i]) ==> s[i] == ' ' && (i + 1 < |s| ==> !IsSpace(s[i + 1]))
  }

  lemma {:induction false} CollapseCollapses(s: string)
    ensures IsCollapsed(CollapseSpaces(s))
    ensures CollapseSpaces(s) != "" && IsSpace(CollapseSpaces(s)[0]) ==> s != "" && IsSpace(s[0])
  {
    if s != "" {
      CollapseCollapses(s[1..]);
    }
  }

  lemma {:induction false} CollapsedStays(s: string)
    requires IsCollapsed(s)
    ensures CollapseSpaces(s) == s
  {
    if s != "" {
      CollapsedStays(s[1..]);
      assert s == [s[0]] + s[1..];
      assert IsSpace(s[0]) && |s| > 1 ==> !IsSpace(s[1]);
    }
  }

  lemma {:induction false} TrimLeftIsSuffix(s: string)
    ensures |TrimLeft(s)| <= |s| && TrimLeft(s) == s[|s| - |TrimLeft(s)|..]
  {
    if s != "" && IsTrimmed(s[0]) {
      TrimLeftIsSuffix(s[1..]);
    }
  }

  /** Spaces, tabs, newlines, carriage returns, vertical tabs and form feeds. */
  predicate IsWhite(c: char) {
    c in [' ', '\t', '\n', '\r', '\U{0B}', '\U{0C}']
  }

  lemma WhiteIsSpace(c: char)
    ensures IsWhite(c) <==> IsSpace(c)
  {
  }

  lemma {:induction false} RunCollapses(run: string, b: string)
    requires run != "" && (forall i :: 0 <= i < |run| ==> IsSpace(run[i])) && (b == "" || !IsSpace(b[0]))
    ensures CollapseSpaces(run + b) == " " + CollapseSpaces(b)
  {
    assert (run + b)[1..] == run[1..] + b;
    if |run| > 1 {
      RunCollapses(run[1..], b);
    } else {
      assert run[1..] + b == b;
    }
  }

  lemma {:induction false} RunCollapsesBehind(a: string, run: string, b: string)
    requires run != "" && (forall i :: 0 <= i < |run| ==> IsSpace(run[i])) && (b == "" || !IsSpace(b[0]))
    requires a == "" || !IsSpace(a[|a| - 1])
    ensures CollapseSpaces(a + (run + b)) == CollapseSpaces(a) + (" " + CollapseSpaces(b))
  {
    RunCollapses(run, b);
    if a == "" {
      assert a + (run + b) == run + b;
    } else {
      var s := a + (run + b);
      assert s[1..] == a[1..] + (run + b);
      RunCollapsesBehind(a[1..], run, b);
    }
  }

  /** A run of white space becomes one space, and a text without white space is kept as it is. */
  lemma RunBecomesSpace(a: string, run: string, b: string)
    requires run != "" && (forall i :: 0 <= i < |run| ==> IsWhite(run[i]))
    requires (a == "" || !IsWhite(a[|a| - 1])) && (b == "" || !IsWhite(b[0]))
    ensures CollapseSpaces(a + (run + b)) == CollapseSpaces(a) + (" " + CollapseSpaces(b))
    ensures (forall i :: 0 <= i < |a| ==> !IsWhite(a[i])) ==> CollapseSpaces(a) == a
  {
    forall c ensures IsWhite(c) <==> IsSpace(c) {
      WhiteIsSpace(c);
    }
    RunCollapsesBehind(a, run, b);
    if forall i :: 0 <= i < |a| ==> !IsWhite(a[i]) {
      CollapsedStays(a);
    }
  }

  lemma TrimKeepsCollapsed(s: string)
    requires IsCollapsed(s)
    ensures IsCollapsed(Trim(s))
  {
    TrimLeftIsSuffix(s);
    var start := |s| - |TrimLeft(s)|;
    TrimRightEnds(TrimLeft(s));
    var trimmed := Trim(s);
    assert trimmed == s[start..start + |trimmed|];
    forall i | 0 <= i < |trimmed| ensures trimmed[i] == s[start + i] {
    }
  }

  lemma {:induction false} CollapseShrinks(s: string)
    ensures |CollapseSpaces(s)| <= |s|
  {
    if s != "" {
      CollapseShrinks(s[1..]);
    }
  }

  lemma TrimShrinks(s: string)
    ensures |Trim(s)| <= |s| && (|Trim(s)| == |s| ==> Trim(s) == s)
  {
    TrimLeftIsSuffix(s);
    TrimRightEnds(TrimLeft(s));
  }

  // ---------- Cleaning ----------

  lemma CleanIsCollapsed(env: Env, s: string)
    ensures IsCollapsed(CleanText(env, s)) && IsTrim(CleanText(env, s))
  {
    CollapseCollapses(env.strip(s));
    TrimKeepsCollapsed(CollapseSpaces(env.strip(s)));
    TrimTrims(CollapseSpaces(env.strip(s)));
  }

  /** Cleaning never lengthens a text. */
  lemma CleanShrinks(env: Env, s: string)
    requires OnlyDeletes(env)
    ensures |CleanText(env, s)| <= |env.strip(s)| <= |s|
  {
    CollapseShrinks(env.strip(s));
    TrimShrinks(CollapseSpaces(env.strip(s)));
  }

  /** A cleaned text that cleaning does not shorten is left alone by it. */
  lemma CleanSameLength(env: Env, s: string)
    requires OnlyDeletes(env) && IsCollapsed(s) && IsTrim(s) && |CleanText(env, s)| == |s|
    ensures CleanText(env, s) == s
  {
    CleanShrinks(env, s);
    assert env.strip(s) == s;
    CollapsedStays(s);
    TrimKeeps(s);
  }

  /** Cleaning twice gives a text back exactly when cleaning once does. */
  lemma CleanedTwice(env: Env, s: string)
    requires OnlyDeletes(env)
    ensures CleanText(env, CleanText(env, s)) == s <==> CleanText(env, s) == s
  {
    var once := CleanText(env, s);
    if CleanText(env, once) == s {
      CleanShrinks(env, s);
      CleanShrinks(env, once);
      CleanIsCollapsed(env, once);
      CleanSameLength(env, s);
    }
  }
}
