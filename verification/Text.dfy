/** The string operations of PHP that the plugin's parsing relies on. */
module Text {

  /** The characters `trim` strips: space, tab, newline, carriage return, NUL and vertical tab. */
  predicate IsTrimmed(c: char) {
    c == ' ' || c == '\t' || c == '\n' || c == '\r' || c == '\0' || c == '\U{0B}'
  }

  /** The characters `\s` matches in a regular expression. */
  predicate IsSpace(c: char) {
    c == ' ' || c == '\t' || c == '\n' || c == '\r' || c == '\U{0B}' || c == '\U{0C}'
  }

  function TrimLeft(s: string): string {
    if s == "" || !IsTrimmed(s[0]) then s else TrimLeft(s[1..])
  }

  function TrimRight(s: string): string {
    if s == "" || !IsTrimmed(s[|s| - 1]) then s else TrimRight(s[..|s| - 1])
  }

  function Trim(s: string): string {
    TrimRight(TrimLeft(s))
  }

  predicate IsTrim(s: string) {
    s == "" || (!IsTrimmed(s[0]) && !IsTrimmed(s[|s| - 1]))
  }

  lemma TrimKeeps(s: string)
    requires IsTrim(s)
    ensures Trim(s) == s
  {
  }

  lemma {:induction false} TrimLeftStarts(s: string)
    ensures TrimLeft(s) == "" || !IsTrimmed(TrimLeft(s)[0])
  {
    if s != "" && IsTrimmed(s[0]) {
      TrimLeftStarts(s[1..]);
    }
  }

  lemma {:induction false} TrimRightEnds(s: string)
    ensures var t := TrimRight(s);
            |t| <= |s| && t == s[..|t|] && (t == "" || !IsTrimmed(t[|t| - 1]))
  {
    if s != "" && IsTrimmed(s[|s| - 1]) {
      TrimRightEnds(s[..|s| - 1]);
    }
  }

  lemma TrimTrims(s: string)
    ensures IsTrim(Trim(s)) && Trim(Trim(s)) == Trim(s)
  {
    TrimLeftStarts(s);
    TrimRightEnds(TrimLeft(s));
  }

  /** Nothing but spaces, tabs, newlines, carriage returns, NULs and vertical tabs. */
  predicate IsBlank(s: string) {
    forall c :: c in s ==> c in [' ', '\t', '\n', '\r', '\0', '\U{0B}']
  }

  lemma {:induction false} TrimLeftStrips(s: string)
    ensures exists front: string :: IsBlank(front) && s == front + TrimLeft(s)
  {
    if s == "" || !IsTrimmed(s[0]) {
      assert IsBlank("") && s == "" + TrimLeft(s);
    } else {
      TrimLeftStrips(s[1..]);
      var front :| IsBlank(front) && s[1..] == front + TrimLeft(s[1..]);
      assert IsBlank([s[0]] + front) && s == ([s[0]] + front) + TrimLeft(s);
    }
  }

  lemma {:induction false} TrimRightStrips(s: string)
    ensures exists back: string :: IsBlank(back) && s == TrimRight(s) + back
  {
    if s == "" || !IsTrimmed(s[|s| - 1]) {
      assert IsBlank("") && s == TrimRight(s) + "";
    } else {
      TrimRightStrips(s[..|s| - 1]);
      var back :| IsBlank(back) && s[..|s| - 1] == TrimRight(s[..|s| - 1]) + back;
      assert IsBlank(back + [s[|s| - 1]]) && s == TrimRight(s) + (back + [s[|s| - 1]]);
    }
  }

  /** Trimming takes blanks off both ends, all of them. */
  lemma TrimStrips(s: string)
    ensures exists front: string, back: string :: IsBlank(front) && IsBlank(back) && s == front + Trim(s) + back
    ensures Trim(s) != "" ==> !IsBlank([Trim(s)[0]]) && !IsBlank([Trim(s)[|Trim(s)| - 1]])
  {
    TrimLeftStrips(s);
    TrimRightStrips(TrimLeft(s));
    TrimTrims(s);
    var front :| IsBlank(front) && s == front + TrimLeft(s);
    var back :| IsBlank(back) && TrimLeft(s) == Trim(s) + back;
    assert s == front + Trim(s) + back;
    assert Trim(s) != "" ==> Trim(s)[0] in [Trim(s)[0]] && Trim(s)[|Trim(s)| - 1] in [Trim(s)[|Trim(s)| - 1]];
  }

  /** Nothing is left of a text exactly when it is blank. */
  lemma TrimOfBlank(s: string)
    ensures Trim(s) == "" <==> IsBlank(s)
  {
    TrimStrips(s);
    var front: string, back: string :| IsBlank(front) && IsBlank(back) && s == front + Trim(s) + back;
    if Trim(s) != "" {
      assert Trim(s)[0] in s && Trim(s)[0] in [Trim(s)[0]];
    }
  }

  function LowerChar(c: char): char {
    if 'A' <= c <= 'Z' then (c as int + 32) as char else c
  }

  function Lower(s: string): (t: string)
    ensures |t| == |s|
    ensures forall i :: 0 <= i < |s| ==> t[i] == LowerChar(s[i])
  {
    if s == "" then "" else [LowerChar(s[0])] + Lower(s[1..])
  }

  /** Only the ASCII capitals change, each to the small letter 32 code units on. */
  lemma LowerLetters(s: string, i: nat)
    requires i < |s|
    ensures 'A' <= s[i] <= 'Z' ==> Lower(s)[i] as int == s[i] as int + 32
    ensures !('A' <= s[i] <= 'Z') ==> Lower(s)[i] == s[i]
  {
  }

  predicate StartsWith(s: string, prefix: string) {
    |prefix| <= |s| && s[..|prefix|] == prefix
  }
}
