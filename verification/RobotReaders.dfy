/**
 * The robots reader of the sync collector (ContentCollector.php) beside that of the apply endpoint
 * (SafeOperationEndpoint.php): when the two read the same flags from one stored value.
 */
module RobotReaders {
  import opened Prelude
  import opened Text
  import opened Robots

  // ---------- The collector's reader ----------

  predicate IsFilled(token: string) {
    token != ""
  }

  /** The cleaned tokens, empty ones dropped. */
  function Cleanings(raw: seq<string>): seq<string> {
    Filtered(Mapped(raw, Cleaned), IsFilled)
  }

  /** The collector lowers and trims a whole scalar before it splits, and keeps every token. */
  function CollectorTokens(value: MetaValue): seq<string> {
    match value
    case Scalar(text) => Words(Lower(Trim(text)))
    case List(entries) => Cleanings(Scalars(entries))
    case Opaque => []
  }

  function CollectorFlag(value: MetaValue, d: Directive): Option<bool> {
    ReadFlag(CollectorTokens(value), d, BareWord)
  }

  lemma PlainOfCleanings(raw: seq<string>)
    ensures PlainTokens(raw) == Filtered(Cleanings(raw), IsPlainWord)
  {
    FilteredTwice(Mapped(raw, Cleaned), IsFilled, IsPlainWord);
  }

  lemma CleaningsConcat(a: seq<string>, b: seq<string>)
    ensures Cleanings(a + b) == Cleanings(a) + Cleanings(b)
  {
    MappedConcat(a, b, Cleaned);
    FilteredConcat(Mapped(a, Cleaned), Mapped(b, Cleaned), IsFilled);
  }

  lemma CleaningsOfOne(token: string)
    ensures Cleanings([token]) == if Cleaned(token) == "" then [] else [Cleaned(token)]
  {
    assert Mapped([token], Cleaned) == [] + [Cleaned(token)];
    FilteredAppend([], Cleaned(token), IsFilled);
  }

  // ---------- Cleaning after splitting is enough ----------

  lemma {:induction false} TrimLeftOfLower(s: string)
    ensures TrimLeft(Lower(s)) == Lower(TrimLeft(s))
  {
    if s != "" && IsTrimmed(s[0]) {
      TrimLeftOfLower(s[1..]);
    }
  }

  lemma {:induction false} TrimRightOfLower(s: string)
    ensures TrimRight(Lower(s)) == Lower(TrimRight(s))
  {
    if s != "" && IsTrimmed(s[|s| - 1]) {
      assert Lower(s)[..|s| - 1] == Lower(s[..|s| - 1]);
      TrimRightOfLower(s[..|s| - 1]);
    }
  }

  lemma LowerTwice(s: string)
    ensures Lower(Lower(s)) == Lower(s)
  {
    var lower := Lower(s);
    forall i | 0 <= i < |s| ensures Lower(lower)[i] == lower[i] {
      assert lower[i] == LowerChar(s[i]);
    }
  }

  lemma TrimOfLower(s: string)
    ensures Trim(Lower(s)) == Lower(Trim(s))
  {
    TrimLeftOfLower(s);
    TrimRightOfLower(TrimLeft(s));
  }

  lemma CleanedOfLower(token: string)
    ensures Cleaned(Lower(token)) == Cleaned(token)
  {
    TrimOfLower(token);
    LowerTwice(Trim(token));
  }

  lemma CleanedOnce(token: string)
    ensures Cleaned(Cleaned(token)) == Cleaned(token)
  {
    CleanedOfLower(Trim(token));
    TrimTrims(token);
  }

  lemma CleaningsTwice(raw: seq<string>)
    ensures Cleanings(Cleanings(raw)) == Cleanings(raw)
  {
    var tokens := Cleanings(raw);
    forall i | 0 <= i < |tokens| ensures Cleaned(tokens[i]) == tokens[i] {
      assert tokens[i] in Mapped(raw, Cleaned);
      var j :| 0 <= j < |raw| && Mapped(raw, Cleaned)[j] == tokens[i];
      CleanedOnce(raw[j]);
    }
    assert Mapped(tokens, Cleaned) == tokens;
    FilteredKeepsAll(tokens, IsFilled);
  }

  lemma CleaningsOfLower(tokens: seq<string>)
    ensures Cleanings(Mapped(tokens, Lower)) == Cleanings(tokens)
  {
    forall i | 0 <= i < |tokens| ensures Cleaned(Lower(tokens[i])) == Cleaned(tokens[i]) {
      CleanedOfLower(tokens[i]);
    }
    assert Mapped(Mapped(tokens, Lower), Cleaned) == Mapped(tokens, Cleaned);
  }

  lemma {:induction false} TrimLeftSnoc(s: string, c: char)
    requires IsTrimmed(c)
    ensures TrimLeft(s + [c]) == if TrimLeft(s) == "" then "" else TrimLeft(s) + [c]
  {
    if s == "" {
      assert s + [c] == [c] && [c][1..] == "";
    } else if IsTrimmed(s[0]) {
      assert (s + [c])[1..] == s[1..] + [c];
      TrimLeftSnoc(s[1..], c);
    }
  }

  lemma CleanedSnoc(token: string, c: char)
    requires IsTrimmed(c)
    ensures Cleaned(token + [c]) == Cleaned(token)
  {
    TrimLeftSnoc(token, c);
    var left := TrimLeft(token);
    assert (left + [c])[..|left|] == left;
  }

  /** Two words that are the same when cleaned, in front of the same words. */
  lemma CleanedAlike(word: string, other: string, more: seq<string>)
    requires word != "" && Cleaned(word) == Cleaned(other)
    ensures Cleanings([word]) == Cleanings(if other == "" then [] else [other])
    ensures Cleanings([word] + more) == Cleanings((if other == "" then [] else [other]) + more)
  {
    CleaningsOfOne(word);
    CleaningsOfOne(other);
    CleaningsConcat([word], more);
    CleaningsConcat(if other == "" then [] else [other], more);
  }

  /** One more NUL before a text changes none of its cleaned words. */
  lemma {:induction false} NulBefore(word: string, s: string, nul: char)
    requires nul == '\0'
    ensures Cleanings(WordsFrom([nul] + word, s)) == Cleanings(WordsFrom(word, s))
    decreases |s|
  {
    assert ([nul] + word)[1..] == word;
    if s == "" {
      CleanedAlike([nul] + word, word, []);
    } else if IsSeparator(s[0]) {
      CleanedAlike([nul] + word, word, Words(s[1..]));
    } else {
      assert ([nul] + word) + [s[0]] == [nul] + (word + [s[0]]);
      NulBefore(word + [s[0]], s[1..], nul);
    }
  }

  /** Nor does one behind it. */
  lemma {:induction false} NulBehind(word: string, s: string, nul: char)
    requires nul == '\0'
    ensures Cleanings(WordsFrom(word, s + [nul])) == Cleanings(WordsFrom(word, s))
    decreases |s|
  {
    if s == "" {
      assert s + [nul] == [nul] && [nul][1..] == "";
      CleanedSnoc(word, nul);
      CleaningsOfOne(word + [nul]);
      CleaningsOfOne(word);
    } else {
      assert (s + [nul])[1..] == s[1..] + [nul];
      if IsSeparator(s[0]) {
        NulBehind("", s[1..], nul);
        var closed := if word == "" then [] else [word];
        CleaningsConcat(closed, Words(s[1..] + [nul]));
        CleaningsConcat(closed, Words(s[1..]));
      } else {
        NulBehind(word + [s[0]], s[1..], nul);
      }
    }
  }

  lemma {:induction false} WordsBeforeSeparator(word: string, s: string, c: char)
    requires IsSeparator(c)
    ensures WordsFrom(word, s + [c]) == WordsFrom(word, s)
    decreases |s|
  {
    if s == "" {
      assert s + [c] == [c];
      assert [c][1..] == "";
    } else {
      assert (s + [c])[1..] == s[1..] + [c];
      if IsSeparator(s[0]) {
        WordsBeforeSeparator("", s[1..], c);
      } else {
        WordsBeforeSeparator(word + [s[0]], s[1..], c);
      }
    }
  }

  lemma TrimmedFront(s: string)
    requires s != "" && IsTrimmed(s[0])
    ensures Cleanings(Words(s)) == Cleanings(Words(s[1..]))
  {
    if IsSeparator(s[0]) {
      assert Words(s) == [] + Words(s[1..]) == Words(s[1..]);
    } else {
      var nul := [s[0]];
      assert "" + nul == nul == nul + "";
      assert Words(s) == WordsFrom(nul + "", s[1..]);
      NulBefore("", s[1..], s[0]);
    }
  }

  lemma {:induction false} TrimmedLeftWords(s: string)
    ensures Cleanings(Words(TrimLeft(s))) == Cleanings(Words(s))
  {
    if s != "" && IsTrimmed(s[0]) {
      TrimmedLeftWords(s[1..]);
      TrimmedFront(s);
    }
  }

  lemma TrimmedBack(before: string, last: char)
    requires IsTrimmed(last)
    ensures Cleanings(Words(before + [last])) == Cleanings(Words(before))
  {
    if IsSeparator(last) {
      WordsBeforeSeparator("", before, last);
    } else {
      NulBehind("", before, last);
    }
  }

  lemma {:induction false} TrimmedRightWords(s: string)
    ensures Cleanings(Words(TrimRight(s))) == Cleanings(Words(s))
  {
    if s != "" && IsTrimmed(s[|s| - 1]) {
      var before, last := s[..|s| - 1], s[|s| - 1];
      TrimmedRightWords(before);
      TrimmedBack(before, last);
      assert s == before + [last];
    }
  }

  lemma LowerTail(s: string)
    requires s != ""
    ensures Lower(s) != "" && Lower(s)[1..] == Lower(s[1..]) && Lower(s)[0] == LowerChar(s[0])
    ensures IsSeparator(LowerChar(s[0])) == IsSeparator(s[0])
  {
  }

  lemma LowerSnoc(s: string, c: char)
    ensures Lower(s + [c]) == Lower(s) + [LowerChar(c)]
  {
  }

  lemma {:induction false} WordsOfLower(word: string, s: string)
    ensures WordsFrom(Lower(word), Lower(s)) == Mapped(WordsFrom(word, s), Lower)
    decreases |s|
  {
    var closed, closedLower := if word == "" then [] else [word], if word == "" then [] else [Lower(word)];
    assert Mapped(closed, Lower) == closedLower;
    assert Lower("") == "";
    if s != "" {
      LowerTail(s);
      if IsSeparator(s[0]) {
        WordsOfLower("", s[1..]);
        MappedConcat(closed, WordsFrom("", s[1..]), Lower);
      } else {
        WordsOfLower(word + [s[0]], s[1..]);
        LowerSnoc(word, s[0]);
      }
    }
  }

  /** Cleaned, the tokens of the two readers are the same. */
  lemma CollectorCleans(value: MetaValue)
    ensures Cleanings(CollectorTokens(value)) == Cleanings(RawTokens(value))
  {
    match value
    case Scalar(text) =>
      WordsOfLower("", Trim(text));
      CleaningsOfLower(Words(Trim(text)));
      TrimmedRightWords(TrimLeft(text));
      TrimmedLeftWords(text);
    case List(entries) => CleaningsTwice(Scalars(entries));
    case Opaque =>
  }

  // ---------- When the two readers agree ----------

  lemma BareWordsArePlain(token: string)
    requires BareWord(token).Some?
    ensures IsPlainWord(token)
  {
  }

  /** The word that decides the flag is among the cleaned tokens, but not among the tokens as they are. */
  predicate HidesWord(tokens: seq<string>, cleaned: seq<string>, d: Directive) {
    d.enabled !in tokens
    && (d.enabled in cleaned || (d.disabled in cleaned && d.disabled !in tokens))
  }

  lemma FlagsAgree(collected: seq<string>, kept: seq<string>, d: Directive, bare: Bare)
    requires NotBare(d, bare)
    requires d.enabled in collected ==> d.enabled in kept
    requires d.disabled in collected ==> d.disabled in kept
    requires LoneBareWord(collected, bare) ==> kept == collected
    ensures ReadFlag(collected, d, bare) == ReadFlag(kept, d, bare)
       <==> (LoneBareWord(kept, bare) ==> LoneBareWord(collected, bare)) && !HidesWord(collected, kept, d)
  {
    if LoneBareWord(kept, bare) {
      BareHidesFlag(kept, d, bare);
    }
  }

  lemma PlainTokenStays(tokens: seq<string>, token: string)
    requires token in tokens && IsPlainWord(token)
    ensures token in Cleanings(tokens)
  {
    var i :| 0 <= i < |tokens| && tokens[i] == token;
    CleanedKeepsPlain(token);
    assert Mapped(tokens, Cleaned)[i] == token;
  }

  lemma LoneTokenKept(token: string)
    requires IsPlainWord(token)
    ensures Unique(Filtered(Cleanings([token]), IsPlainWord)) == [token]
  {
    CleanedKeepsPlain(token);
    CleaningsOfOne(token);
    FilteredKeepsAll([token], IsPlainWord);
    UniqueKeepsDistinct([token]);
  }

  lemma LoneBareWordKept(tokens: seq<string>, bare: Bare)
    requires LoneBareWord(tokens, bare) ==> IsPlainWord(tokens[0])
    ensures LoneBareWord(tokens, bare) ==> Unique(Filtered(Cleanings(tokens), IsPlainWord)) == tokens
  {
    if LoneBareWord(tokens, bare) {
      LoneTokenKept(tokens[0]);
      assert tokens == [tokens[0]];
    }
  }

  lemma ReaderAgrees(collected: seq<string>, kept: seq<string>, d: Directive, bare: Bare)
    requires kept == Unique(Filtered(Cleanings(collected), IsPlainWord))
    requires NotBare(d, bare) && IsPlainWord(d.enabled) && IsPlainWord(d.disabled)
    requires LoneBareWord(collected, bare) ==> IsPlainWord(collected[0])
    ensures ReadFlag(collected, d, bare) == ReadFlag(kept, d, bare)
       <==> (LoneBareWord(kept, bare) ==> LoneBareWord(collected, bare))
            && !HidesWord(collected, Cleanings(collected), d)
  {
    if d.enabled in collected {
      PlainTokenStays(collected, d.enabled);
    }
    if d.disabled in collected {
      PlainTokenStays(collected, d.disabled);
    }
    LoneBareWordKept(collected, bare);
    FlagsAgree(collected, kept, d, bare);
  }

  /** The collector and the endpoint read the same flags from a stored value exactly when a bare boolean word
      that is all the endpoint keeps is all the collector has, too, and no directive word shows only once
      NUL characters around it are trimmed. */
  lemma ReadersAgree(value: MetaValue)
    ensures var tokens := CollectorTokens(value);
            (CollectorFlag(value, NOINDEX) == ParseRobotFlag(value, NOINDEX)
             && CollectorFlag(value, NOFOLLOW) == ParseRobotFlag(value, NOFOLLOW))
            <==> (LoneBareWord(NormalizeRobotTokens(value), BareWord) ==> LoneBareWord(tokens, BareWord))
                 && !HidesWord(tokens, Cleanings(tokens), NOINDEX) && !HidesWord(tokens, Cleanings(tokens), NOFOLLOW)
  {
    CollectorCleans(value);
    PlainOfCleanings(RawTokens(value));
    RobotsDirectives();
    if LoneBareWord(CollectorTokens(value), BareWord) {
      BareWordsArePlain(CollectorTokens(value)[0]);
    }
    ReaderAgrees(CollectorTokens(value), NormalizeRobotTokens(value), NOINDEX, BareWord);
    ReaderAgrees(CollectorTokens(value), NormalizeRobotTokens(value), NOFOLLOW, BareWord);
  }

  /** Both see the same tokens in every value that holds distinct plain words. */
  lemma DistinctPlainWordsAgree(value: MetaValue)
    requires Distinct(CollectorTokens(value)) && AllPlain(CollectorTokens(value))
    ensures NormalizeRobotTokens(value) == CollectorTokens(value)
  {
    CollectorCleans(value);
    PlainOfCleanings(RawTokens(value));
    PlainOfCleanings(CollectorTokens(value));
    PlainTokensKeepPlain(CollectorTokens(value));
    UniqueKeepsDistinct(CollectorTokens(value));
  }

  // ---------- Values the readers differ on ----------

  predicate IsOneWord(s: string) {
    forall i :: 0 <= i < |s| ==> !IsSeparator(s[i])
  }

  lemma {:induction false} WordsOfOne(word: string, s: string)
    requires IsOneWord(s)
    ensures WordsFrom(word, s) == if word + s == "" then [] else [word + s]
    decreases |s|
  {
    if s == "" {
      assert word + s == word;
    } else {
      WordsOfOne(word + [s[0]], s[1..]);
      assert (word + [s[0]]) + s[1..] == word + s;
    }
  }

  lemma {:induction false} WordsAtComma(word: string, s: string, rest: string)
    requires IsOneWord(s) && word + s != ""
    ensures WordsFrom(word, s + ("," + rest)) == [word + s] + Words(rest)
    decreases |s|
  {
    var whole := s + ("," + rest);
    if s == "" {
      assert word + s == word && whole[0] == ',' && whole[1..] == rest;
    } else {
      assert whole[0] == s[0] && whole[1..] == s[1..] + ("," + rest);
      WordsAtComma(word + [s[0]], s[1..], rest);
      assert (word + [s[0]]) + s[1..] == word + s;
    }
  }

  lemma TwoWords(first: string, second: string)
    requires IsOneWord(first) && IsOneWord(second) && first != "" && second != ""
    ensures Words(first + ("," + second)) == [first, second]
  {
    WordsAtComma("", first, second);
    WordsOfOne("", second);
    assert "" + first == first && "" + second == second;
  }

  lemma RepeatedToken(token: string)
    requires IsPlainWord(token)
    ensures Unique(PlainTokens([token, token])) == [token]
  {
    CleanedKeepsPlain(token);
    PlainTokensKeepPlain([token, token]);
    assert [token, token][..1] == [token] && [token][..0] == [];
    UniqueKeepsDistinct([token]);
  }

  lemma LowerConcat(a: string, b: string)
    ensures Lower(a + b) == Lower(a) + Lower(b)
  {
  }

  /** A word that is its own lower case, starts with no white space and holds no separator. */
  predicate IsSteady(word: string) {
    word != "" && IsOneWord(word) && Lower(word) == word && !IsTrimmed(word[0])
  }

  lemma CollectorSplits(first: string, second: string, text: string)
    requires IsSteady(first) && IsSteady(second) && !IsTrimmed(second[|second| - 1])
    requires text == first + ("," + second)
    ensures CollectorTokens(Scalar(text)) == [first, second] && Words(text) == [first, second]
  {
    assert text[0] == first[0] && text[|text| - 1] == second[|second| - 1];
    TrimKeeps(text);
    LowerConcat(",", second);
    LowerConcat(first, "," + second);
    assert Lower(",") == ",";
    TwoWords(first, second);
  }

  lemma WordCharIsSteady(c: char)
    requires IsWordChar(c)
    ensures !IsSeparator(c) && !IsTrimmed(c)
  {
  }

  lemma PlainIsSteady(word: string)
    requires IsPlainWord(word)
    ensures IsSteady(word) && !IsTrimmed(word[|word| - 1])
  {
    forall i | 0 <= i < |word| ensures !IsSeparator(word[i]) && !IsTrimmed(word[i]) {
      WordCharIsSteady(word[i]);
    }
    LowerKeepsPlain(word);
  }

  lemma NulIsSteady(word: string, nul: string)
    requires IsPlainWord(word) && nul == "\0"
    ensures IsSteady(word + nul) && Cleaned(word + nul) == word && !IsPlainWord(word + nul)
  {
    PlainIsSteady(word);
    LowerConcat(word, nul);
    CleanedSnoc(word, '\0');
    CleanedKeepsPlain(word);
    assert (word + nul)[|word|] == '\0' && !IsWordChar('\0');
  }

  lemma EndpointCleans(raw: seq<string>, first: string, second: string)
    requires |raw| == 2 && Cleaned(raw[0]) == first && Cleaned(raw[1]) == second
    requires IsPlainWord(first) && IsPlainWord(second)
    ensures first in Unique(PlainTokens(raw))
  {
    assert Mapped(raw, Cleaned) == [first, second];
    FilteredKeepsAll([first, second], IsPlainWord);
  }

  lemma ReadsNothing(tokens: seq<string>, first: string, second: string, d: Directive, bare: Bare)
    requires tokens == [first, second] && d.enabled != first && d.enabled != second
    requires d.disabled != first && d.disabled != second
    ensures ReadFlag(tokens, d, bare) == None
  {
  }

  lemma ReadsYes(tokens: seq<string>, d: Directive, bare: Bare)
    requires d.enabled in tokens
    ensures ReadFlag(tokens, d, bare) == Some(true)
  {
  }

  lemma ReadsBare(tokens: seq<string>, token: string, d: Directive, bare: Bare)
    requires tokens == [token] && bare(token) == Some(true) && token != d.enabled
    ensures ReadFlag(tokens, d, bare) == Some(true)
  {
  }

  lemma RepeatedDiffers(token: string, d: Directive, text: string)
    requires IsPlainWord(token) && BareWord(token) == Some(true) && token != d.enabled && token != d.disabled
    requires text == token + ("," + token)
    ensures CollectorFlag(Scalar(text), d) == None && ParseRobotFlag(Scalar(text), d) == Some(true)
  {
    PlainIsSteady(token);
    CollectorSplits(token, token, text);
    RepeatedToken(token);
    ReadsNothing(CollectorTokens(Scalar(text)), token, token, d, BareWord);
    ReadsBare(NormalizeRobotTokens(Scalar(text)), token, d, BareWord);
  }

  /** A bare word said twice: the collector keeps both and reads nothing, the endpoint keeps one and reads yes. */
  lemma RepeatedBareWordDiffers(value: MetaValue)
    requires value == Scalar("1,1")
    ensures CollectorFlag(value, NOINDEX) == None && ParseRobotFlag(value, NOINDEX) == Some(true)
  {
    assert value.text == "1" + ("," + "1");
    RepeatedDiffers("1", NOINDEX, value.text);
  }

  lemma NulHides(d: Directive, other: string, word: string, text: string)
    requires IsPlainWord(d.enabled) && IsPlainWord(d.disabled) && IsPlainWord(other)
    requires other != d.enabled && other != d.disabled && word == d.enabled + "\0" && text == word + ("," + other)
    ensures CollectorFlag(Scalar(text), d) == None && ParseRobotFlag(Scalar(text), d) == Some(true)
  {
    NulIsSteady(d.enabled, "\0");
    PlainIsSteady(other);
    CollectorSplits(word, other, text);
    CleanedKeepsPlain(other);
    EndpointCleans([word, other], d.enabled, other);
    ReadsNothing(CollectorTokens(Scalar(text)), word, other, d, BareWord);
    ReadsYes(NormalizeRobotTokens(Scalar(text)), d, BareWord);
  }

  /** A NUL behind a directive word: the endpoint trims it off, the collector does not and misses the word. */
  lemma NulHidesWord(value: MetaValue)
    requires value == Scalar("noindex\0,follow")
    ensures CollectorFlag(value, NOINDEX) == None && ParseRobotFlag(value, NOINDEX) == Some(true)
  {
    var word := NOINDEX.enabled + "\0";
    assert value.text == word + ("," + "follow");
    RobotsDirectives();
    NulHides(NOINDEX, NOFOLLOW.disabled, word, value.text);
  }
}
