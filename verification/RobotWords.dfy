/**
 * The vocabulary of the robots reader (SafeOperationEndpoint.php): which tokens a stored value holds, and which of
 * them make a flag true or false.
 */
module RobotWords {
  import opened Prelude
  import opened Text
  import opened Robots

  // ---------- Splitting ----------

  predicate EndsWord(c: char) {
    c in [' ', '\t', '\n', '\r', '\U{0B}', '\U{0C}', ',']
  }

  lemma {:induction false} SplitFrom(word: string, a: string, c: char, b: string)
    requires EndsWord(c)
    ensures WordsFrom(word, a + [c] + b) == WordsFrom(word, a) + Words(b)
    decreases |a|
  {
    var s := a + [c] + b;
    if a == "" {
      assert s[0] == c && s[1..] == b;
    } else {
      assert s[0] == a[0] && s[1..] == a[1..] + [c] + b;
      var closed := if word == "" then [] else [word];
      if IsSeparator(a[0]) {
        SplitFrom("", a[1..], c, b);
        ConcatAssociates(closed, WordsFrom("", a[1..]), Words(b));
      } else {
        SplitFrom(word + [a[0]], a[1..], c, b);
      }
    }
  }

  lemma {:induction false} WordKept(word: string, s: string)
    requires word + s != "" && forall c :: c in s ==> !EndsWord(c)
    ensures WordsFrom(word, s) == [word + s]
    decreases |s|
  {
    if s == "" {
      assert word + s == word;
    } else {
      assert s[0] in s && (word + [s[0]]) + s[1..] == word + s;
      WordKept(word + [s[0]], s[1..]);
    }
  }

  /** A text falls into words at every space character and comma, and nowhere else. */
  lemma WordsSplit(a: string, c: char, b: string)
    ensures Words("") == []
    ensures EndsWord(c) ==> Words(a + [c] + b) == Words(a) + Words(b)
    ensures a != "" && (forall x :: x in a ==> !EndsWord(x)) ==> Words(a) == [a]
  {
    if EndsWord(c) {
      SplitFrom("", a, c, b);
    }
    if a != "" && forall x :: x in a ==> !EndsWord(x) {
      WordKept("", a);
      assert "" + a == a;
    }
  }

  // ---------- Tokens ----------

  /** At least one character, and only lower-case letters, digits, underscores and hyphens. */
  predicate IsToken(s: string) {
    |s| > 0 && forall c :: c in s ==> 'a' <= c <= 'z' || '0' <= c <= '9' || c in ['_', '-']
  }

  lemma PlainIsToken(s: string)
    ensures IsPlainWord(s) <==> IsToken(s)
  {
    if IsToken(s) {
      forall i | 0 <= i < |s| ensures IsWordChar(s[i]) {
        assert s[i] in s;
      }
    }
  }

  /** The pieces a value holds: the words of a scalar, the scalar entries of a list. */
  predicate Holds(value: MetaValue, piece: string) {
    match value
    case Scalar(text) => piece in Words(text)
    case List(entries) => Some(piece) in entries
    case Opaque => false
  }

  lemma {:induction false} ScalarEntries(entries: seq<Option<string>>, piece: string)
    ensures piece in Scalars(entries) <==> Some(piece) in entries
  {
    if entries != [] {
      ScalarEntries(entries[..|entries| - 1], piece);
      assert entries == entries[..|entries| - 1] + [entries[|entries| - 1]];
    }
  }

  lemma RawPieces(value: MetaValue, piece: string)
    ensures piece in RawTokens(value) <==> Holds(value, piece)
  {
    if value.List? {
      ScalarEntries(value.entries, piece);
    }
  }

  /** The tokens read are the pieces, trimmed and in lower case, that are tokens. */
  lemma TokensRead(value: MetaValue, token: string)
    ensures token in NormalizeRobotTokens(value)
       <==> IsToken(token) && exists piece :: Holds(value, piece) && Lower(Trim(piece)) == token
  {
    var raw := RawTokens(value);
    var cleaned := Mapped(raw, Cleaned);
    PlainIsToken(token);
    if token in cleaned {
      var n :| 0 <= n < |cleaned| && cleaned[n] == token;
      RawPieces(value, raw[n]);
      assert Lower(Trim(raw[n])) == token;
    }
    if piece :| Holds(value, piece) && Lower(Trim(piece)) == token {
      RawPieces(value, piece);
      var n :| 0 <= n < |raw| && raw[n] == piece;
      assert cleaned[n] == token;
    }
  }

  // ---------- Flags ----------

  predicate IsYes(token: string) {
    token in ["1", "true", "yes", "on"]
  }

  predicate IsNo(token: string) {
    token in ["0", "2", "false", "no", "off"]
  }

  lemma BareWords(token: string)
    ensures BareWord(token) == Some(true) <==> IsYes(token)
    ensures BareWord(token) == Some(false) <==> IsNo(token)
  {
  }

  lemma NotDirectives(token: string)
    requires IsYes(token) || IsNo(token)
    ensures token != "noindex" && token != "index" && token != "nofollow" && token != "follow"
  {
    assert |token| <= 5 && token[0] in ['0', '1', '2', 't', 'y', 'o', 'f', 'n'];
    assert "index"[0] == 'i' && |"noindex"| == 7 && |"nofollow"| == 8 && |"follow"| == 6;
  }

  lemma FlagOfTokens(tokens: seq<string>, d: Directive)
    requires |tokens| == 1 && (IsYes(tokens[0]) || IsNo(tokens[0]))
             ==> tokens[0] != d.enabled && tokens[0] != d.disabled
    ensures ReadFlag(tokens, d, BareWord) == Some(true)
       <==> d.enabled in tokens || (|tokens| == 1 && IsYes(tokens[0]))
    ensures ReadFlag(tokens, d, BareWord) == Some(false)
       <==> d.enabled !in tokens && (d.disabled in tokens || (|tokens| == 1 && IsNo(tokens[0])))
  {
    if |tokens| == 1 {
      BareWords(tokens[0]);
    }
  }

  /** A page is noindex when the list says so or is a lone yes; it is index when the list says that or is a lone no. */
  lemma NoindexRead(value: MetaValue)
    ensures var tokens := NormalizeRobotTokens(value);
            && (ParseRobotFlag(value, NOINDEX) == Some(true)
                <==> "noindex" in tokens || (|tokens| == 1 && IsYes(tokens[0])))
            && (ParseRobotFlag(value, NOINDEX) == Some(false)
                <==> "noindex" !in tokens && ("index" in tokens || (|tokens| == 1 && IsNo(tokens[0]))))
  {
    var tokens := NormalizeRobotTokens(value);
    if |tokens| == 1 && (IsYes(tokens[0]) || IsNo(tokens[0])) {
      NotDirectives(tokens[0]);
    }
    FlagOfTokens(tokens, NOINDEX);
  }

  /** The same for following links. */
  lemma NofollowRead(value: MetaValue)
    ensures var tokens := NormalizeRobotTokens(value);
            && (ParseRobotFlag(value, NOFOLLOW) == Some(true)
                <==> "nofollow" in tokens || (|tokens| == 1 && IsYes(tokens[0])))
            && (ParseRobotFlag(value, NOFOLLOW) == Some(false)
                <==> "nofollow" !in tokens && ("follow" in tokens || (|tokens| == 1 && IsNo(tokens[0]))))
  {
    var tokens := NormalizeRobotTokens(value);
    if |tokens| == 1 && (IsYes(tokens[0]) || IsNo(tokens[0])) {
      NotDirectives(tokens[0]);
    }
    FlagOfTokens(tokens, NOFOLLOW);
  }
}
