/**
 * Robots directives as the two SEO plugins store them.
 *
 * Rank Math packs every directive of a post into one token list; a flag is read back from the tokens
 * that happen to be there. The module models the reader and the writer of the apply endpoint
 * (SafeOperationEndpoint.php).
 */
module Robots {
  import opened Prelude
  import opened Text

  /** A value read by get_post_meta: a scalar in its string form, a list, or anything else. A list
      entry that is not a scalar is `None`. */
  datatype MetaValue = Scalar(text: string) | List(entries: seq<Option<string>>) | Opaque

  /** The two tokens that say yes and no to one robots flag. */
  datatype Directive = Directive(enabled: string, disabled: string)

  const NOINDEX := Directive("noindex", "index")

  const NOFOLLOW := Directive("nofollow", "follow")

  /** The words that mean yes or no for whichever flag is asked, when they stand alone. */
  function BareWord(token: string): Option<bool> {
    if token in ["1", "true", "yes", "on"] then Some(true)
    else if token in ["0", "2", "false", "no", "off"] then Some(false)
    else None
  }

  /** A vocabulary of bare words; the endpoint and the collector both use `BareWord`. */
  type Bare = string -> Option<bool>

  predicate LoneBareWord(tokens: seq<string>, bare: Bare) {
    |tokens| == 1 && bare(tokens[0]).Some?
  }

  // ---------- Tokens ----------

  predicate IsSeparator(c: char) {
    IsSpace(c) || c == ','
  }

  /** The non-empty pieces of a split at runs of separators; `word` is the piece being read. */
  function WordsFrom(word: string, s: string): seq<string>
    decreases |s|
  {
    var closed := if word == "" then [] else [word];
    if s == "" then closed
    else if IsSeparator(s[0]) then closed + WordsFrom("", s[1..])
    else WordsFrom(word + [s[0]], s[1..])
  }

  function Words(s: string): seq<string> {
    WordsFrom("", s)
  }

  function Scalars(entries: seq<Option<string>>): seq<string> {
    if entries == [] then []
    else
      var last := entries[|entries| - 1];
      Scalars(entries[..|entries| - 1]) + if last.Some? then [last.value] else []
  }

  /** What normalizeRobotTokens iterates over. Empty pieces are left out: its loop drops them. */
  function RawTokens(value: MetaValue): seq<string> {
    match value
    case Scalar(text) => Words(text)
    case List(entries) => Scalars(entries)
    case Opaque => []
  }

  predicate IsWordChar(c: char) {
    'a' <= c <= 'z' || '0' <= c <= '9' || c == '_' || c == '-'
  }

  predicate IsPlainWord(token: string) {
    token != "" && forall i :: 0 <= i < |token| ==> IsWordChar(token[i])
  }

  function Cleaned(token: string): string {
    Lower(Trim(token))
  }

  /** The cleaned tokens that are plain words. */
  function PlainTokens(raw: seq<string>): seq<string> {
    Filtered(Mapped(raw, Cleaned), IsPlainWord)
  }

  function NormalizeRobotTokens(value: MetaValue): seq<string> {
    Unique(PlainTokens(RawTokens(value)))
  }

  lemma PlainTokensStep(raw: seq<string>, n: nat)
    requires n < |raw|
    ensures PlainTokens(raw[..n + 1])
         == PlainTokens(raw[..n]) + if IsPlainWord(Cleaned(raw[n])) then [Cleaned(raw[n])] else []
  {
    assert raw[..n + 1] == raw[..n] + [raw[n]];
    MappedConcat(raw[..n], [raw[n]], Cleaned);
    assert Mapped([raw[n]], Cleaned) == [Cleaned(raw[n])];
    FilteredAppend(Mapped(raw[..n], Cleaned), Cleaned(raw[n]), IsPlainWord);
  }

  /** The token loop of the endpoint. */
  method CollectRobotTokens(value: MetaValue) returns (tokens: seq<string>)
    ensures tokens == NormalizeRobotTokens(value)
  {
    var raw := RawTokens(value);
    tokens := [];
    var n := 0;
    while n < |raw|
      invariant 0 <= n <= |raw|
      invariant tokens == PlainTokens(raw[..n])
    {
      PlainTokensStep(raw, n);
      var token := Cleaned(raw[n]);
      if IsPlainWord(token) {
        tokens := tokens + [token];
      }
      n := n + 1;
    }
    assert raw[..n] == raw;
    tokens := Unique(tokens);
  }

  // ---------- Reading a flag ----------

  function ReadFlag(tokens: seq<string>, d: Directive, bare: Bare): Option<bool> {
    if d.enabled in tokens then Some(true)
    else if LoneBareWord(tokens, bare) then bare(tokens[0])
    else if d.disabled in tokens then Some(false)
    else None
  }

  function ParseRobotFlag(value: MetaValue, d: Directive): Option<bool> {
    ReadFlag(NormalizeRobotTokens(value), d, BareWord)
  }

  // ---------- Writing a directive ----------

  function Without(tokens: seq<string>, d: Directive): (rest: seq<string>)
    ensures forall t :: t in rest <==> t in tokens && t != d.enabled && t != d.disabled
    ensures Distinct(tokens) ==> Distinct(rest)
  {
    if tokens == [] then []
    else
      var rest, last := Without(tokens[..|tokens| - 1], d), tokens[|tokens| - 1];
      assert tokens == tokens[..|tokens| - 1] + [last];
      assert (rest + [last])[..|rest|] == rest;
      if last != d.enabled && last != d.disabled then rest + [last] else rest
  }

  function DirectiveWord(d: Directive, value: Option<bool>): seq<string> {
    match value
    case Some(true) => [d.enabled]
    case Some(false) => [d.disabled]
    case None => []
  }

  function SetRobotDirective(tokens: seq<string>, d: Directive, value: Option<bool>): seq<string> {
    Unique(Without(tokens, d) + DirectiveWord(d, value))
  }

  /** The robots part of writeRankMathRobots: each directive is set only when the item names it. */
  datatype Field<+T> = Keep | Put(value: Option<T>)

  function SetIfNamed(tokens: seq<string>, d: Directive, field: Field<bool>): seq<string> {
    if field.Put? then SetRobotDirective(tokens, d, field.value) else tokens
  }

  function SetDirectives(tokens: seq<string>, noindex: Field<bool>, nofollow: Field<bool>): seq<string> {
    SetIfNamed(SetIfNamed(tokens, NOINDEX, noindex), NOFOLLOW, nofollow)
  }

  /** The tokens no directive write touches. */
  function Unrelated(tokens: seq<string>, d: Directive, other: Directive): (rest: seq<string>)
    ensures forall t :: t in rest
              <==> t in tokens && t != d.enabled && t != d.disabled && t != other.enabled && t != other.disabled
  {
    Without(Without(tokens, d), other)
  }

  // ---------- Stored tokens read back ----------

  lemma {:induction false} LowerKeepsPlain(token: string)
    requires forall i :: 0 <= i < |token| ==> IsWordChar(token[i])
    ensures Lower(token) == token
  {
  }

  lemma CleanedKeepsPlain(token: string)
    requires IsPlainWord(token)
    ensures Cleaned(token) == token
  {
    TrimKeeps(token);
    LowerKeepsPlain(token);
  }

  predicate AllPlain(tokens: seq<string>) {
    forall t :: t in tokens ==> IsPlainWord(t)
  }

  lemma PlainTokensKeepPlain(raw: seq<string>)
    requires AllPlain(raw)
    ensures PlainTokens(raw) == raw
  {
    forall i | 0 <= i < |raw| ensures Cleaned(raw[i]) == raw[i] {
      assert raw[i] in raw;
      CleanedKeepsPlain(raw[i]);
    }
    assert Mapped(raw, Cleaned) == raw;
    FilteredKeepsAll(raw, IsPlainWord);
  }

  /** The list value update_post_meta stores for a token list. */
  function Stored(tokens: seq<string>): seq<Option<string>> {
    if tokens == [] then [] else Stored(tokens[..|tokens| - 1]) + [Some(tokens[|tokens| - 1])]
  }

  lemma {:induction false} ScalarsOfStored(tokens: seq<string>)
    ensures Scalars(Stored(tokens)) == tokens
  {
    if tokens != [] {
      ScalarsOfStored(tokens[..|tokens| - 1]);
    }
  }

  /** What the endpoint reads from any stored value: distinct plain words. */
  lemma NormalizedTokens(value: MetaValue)
    ensures Distinct(NormalizeRobotTokens(value)) && AllPlain(NormalizeRobotTokens(value))
  {
  }

  /** Distinct plain words survive being stored and read again, in order. */
  lemma StoredTokensReadBack(tokens: seq<string>)
    requires Distinct(tokens) && AllPlain(tokens)
    ensures NormalizeRobotTokens(List(Stored(tokens))) == tokens
  {
    ScalarsOfStored(tokens);
    PlainTokensKeepPlain(tokens);
    UniqueKeepsDistinct(tokens);
  }

  // ---------- One directive write ----------

  /** Writing one directive keeps every other token in order and appends at most its own word. */
  lemma SetDirectiveAppends(tokens: seq<string>, d: Directive, value: Option<bool>)
    requires Distinct(tokens)
    ensures SetRobotDirective(tokens, d, value) == Without(tokens, d) + DirectiveWord(d, value)
    ensures Distinct(SetRobotDirective(tokens, d, value))
  {
    var rest, word := Without(tokens, d), DirectiveWord(d, value);
    if value.None? {
      assert rest + word == rest;
    } else {
      assert (rest + word)[..|rest|] == rest;
    }
    UniqueKeepsDistinct(rest + word);
  }

  /** What makes a pair of directives readable from one list. */
  predicate Independent(d: Directive, other: Directive) {
    && d.enabled != d.disabled
    && d.enabled != other.enabled && d.enabled != other.disabled
    && d.disabled != other.enabled && d.disabled != other.disabled
  }

  predicate NotBare(d: Directive, bare: Bare) {
    bare(d.enabled).None? && bare(d.disabled).None?
  }

  lemma RobotsDirectives()
    ensures Independent(NOINDEX, NOFOLLOW) && Independent(NOFOLLOW, NOINDEX)
    ensures NotBare(NOINDEX, BareWord) && NotBare(NOFOLLOW, BareWord)
    ensures IsPlainWord(NOINDEX.enabled) && IsPlainWord(NOINDEX.disabled)
    ensures IsPlainWord(NOFOLLOW.enabled) && IsPlainWord(NOFOLLOW.disabled)
  {
  }

  /** A written flag reads back exactly, unless clearing it leaves one bare boolean word behind. */
  lemma WrittenFlagReadsBack(tokens: seq<string>, d: Directive, value: Option<bool>, bare: Bare)
    requires Distinct(tokens) && d.enabled != d.disabled && NotBare(d, bare)
    ensures ReadFlag(SetRobotDirective(tokens, d, value), d, bare) == value
            <==> !(value.None? && LoneBareWord(Without(tokens, d), bare))
  {
    SetDirectiveAppends(tokens, d, value);
    BareAfterWrite(tokens, d, value, bare);
  }

  lemma BareAfterWrite(tokens: seq<string>, d: Directive, value: Option<bool>, bare: Bare)
    requires Distinct(tokens) && NotBare(d, bare)
    ensures LoneBareWord(SetRobotDirective(tokens, d, value), bare)
            <==> value.None? && LoneBareWord(Without(tokens, d), bare)
  {
    SetDirectiveAppends(tokens, d, value);
    if value.Some? && Without(tokens, d) == [] {
      assert SetRobotDirective(tokens, d, value) == DirectiveWord(d, value);
    }
  }

  lemma BareHidesFlag(tokens: seq<string>, d: Directive, bare: Bare)
    requires NotBare(d, bare) && LoneBareWord(tokens, bare)
    ensures ReadFlag(tokens, d, bare) == bare(tokens[0]) && d.enabled !in tokens && d.disabled !in tokens
  {
  }

  lemma LoneTokenStays(tokens: seq<string>, d: Directive, bare: Bare)
    requires NotBare(d, bare) && LoneBareWord(tokens, bare)
    ensures Without(tokens, d) == tokens
  {
    assert tokens[..0] == [];
  }

  lemma OtherWordsStay(tokens: seq<string>, d: Directive, value: Option<bool>, other: Directive)
    requires Distinct(tokens) && Independent(d, other)
    ensures other.enabled in SetRobotDirective(tokens, d, value) <==> other.enabled in tokens
    ensures other.disabled in SetRobotDirective(tokens, d, value) <==> other.disabled in tokens
  {
    SetDirectiveAppends(tokens, d, value);
  }

  /** The other flag keeps its reading exactly when the write neither adds a token to one lone bare
      boolean word nor leaves such a word alone. */
  lemma OtherFlagUnchanged(tokens: seq<string>, d: Directive, value: Option<bool>, other: Directive, bare: Bare)
    requires Distinct(tokens) && Independent(d, other) && NotBare(d, bare) && NotBare(other, bare)
    ensures ReadFlag(SetRobotDirective(tokens, d, value), other, bare) == ReadFlag(tokens, other, bare)
            <==> (LoneBareWord(tokens, bare) <==> value.None? && LoneBareWord(Without(tokens, d), bare))
  {
    var after := SetRobotDirective(tokens, d, value);
    BareAfterWrite(tokens, d, value, bare);
    OtherWordsStay(tokens, d, value, other);
    if LoneBareWord(tokens, bare) {
      BareHidesFlag(tokens, other, bare);
      LoneTokenStays(tokens, d, bare);
    }
    if LoneBareWord(after, bare) {
      BareHidesFlag(after, other, bare);
      ClearedTokens(tokens, d);
    }
  }

  lemma ClearedTokens(tokens: seq<string>, d: Directive)
    requires Distinct(tokens)
    ensures SetRobotDirective(tokens, d, None) == Without(tokens, d)
  {
    SetDirectiveAppends(tokens, d, None);
    assert Without(tokens, d) + [] == Without(tokens, d);
  }

  // ---------- Both directives: what a rollback writes ----------

  lemma WithoutAppend(tokens: seq<string>, token: string, d: Directive)
    ensures Without(tokens + [token], d)
         == Without(tokens, d) + if token == d.enabled || token == d.disabled then [] else [token]
  {
    assert (tokens + [token])[..|tokens|] == tokens;
  }

  lemma WithoutWord(tokens: seq<string>, d: Directive, value: Option<bool>, cut: Directive)
    requires d == cut || Independent(d, cut)
    ensures Without(tokens + DirectiveWord(d, value), cut)
         == Without(tokens, cut) + if d == cut then [] else DirectiveWord(d, value)
  {
    match value
    case None => assert tokens + [] == tokens;
    case Some(true) => WithoutAppend(tokens, d.enabled, cut);
    case Some(false) => WithoutAppend(tokens, d.disabled, cut);
  }

  lemma {:induction false} WithoutNothing(tokens: seq<string>, d: Directive)
    requires d.enabled !in tokens && d.disabled !in tokens
    ensures Without(tokens, d) == tokens
  {
    if tokens != [] {
      WithoutNothing(tokens[..|tokens| - 1], d);
    }
  }

  lemma {:induction false} WithoutCommutes(tokens: seq<string>, d: Directive, other: Directive)
    ensures Without(Without(tokens, d), other) == Without(Without(tokens, other), d)
  {
    if tokens != [] {
      var before, last := tokens[..|tokens| - 1], tokens[|tokens| - 1];
      WithoutCommutes(before, d, other);
      WithoutAppend(Without(before, d), last, other);
      WithoutAppend(Without(before, other), last, d);
    }
  }

  lemma UnrelatedAfterAppend(tokens: seq<string>, d: Directive, other: Directive, value: Option<bool>)
    requires Independent(d, other)
    ensures Without(Without(tokens, d) + DirectiveWord(d, value), d) == Without(tokens, d)
  {
    WithoutWord(Without(tokens, d), d, value, d);
    WithoutNothing(Without(tokens, d), d);
    assert Without(tokens, d) + [] == Without(tokens, d);
  }

  /** No directive write adds, drops or moves a token outside the four directive words. */
  lemma WriteKeepsUnrelated(tokens: seq<string>, d: Directive, other: Directive, value: Option<bool>)
    requires Distinct(tokens) && Independent(d, other)
    ensures Unrelated(SetRobotDirective(tokens, d, value), d, other) == Unrelated(tokens, d, other)
    ensures Unrelated(SetRobotDirective(tokens, d, value), other, d) == Unrelated(tokens, other, d)
  {
    SetDirectiveAppends(tokens, d, value);
    UnrelatedAfterAppend(tokens, d, other, value);
    WithoutCommutes(tokens, d, other);
    WithoutCommutes(SetRobotDirective(tokens, d, value), d, other);
  }

  function SetBoth(tokens: seq<string>, d: Directive, value: Option<bool>, other: Directive, otherValue: Option<bool>)
    : seq<string>
  {
    SetRobotDirective(SetRobotDirective(tokens, d, value), other, otherValue)
  }

  lemma SetBothAppends(tokens: seq<string>, d: Directive, value: Option<bool>,
                       other: Directive, otherValue: Option<bool>)
    requires Distinct(tokens) && Independent(d, other)
    ensures SetBoth(tokens, d, value, other, otherValue)
         == Unrelated(tokens, d, other) + DirectiveWord(d, value) + DirectiveWord(other, otherValue)
    ensures Distinct(SetBoth(tokens, d, value, other, otherValue))
  {
    SetDirectiveAppends(tokens, d, value);
    SetDirectiveAppends(SetRobotDirective(tokens, d, value), other, otherValue);
    WithoutWord(Without(tokens, d), d, value, other);
  }

  lemma AppendedFlags(rest: seq<string>, after: seq<string>, d: Directive, value: Option<bool>,
                      other: Directive, otherValue: Option<bool>, bare: Bare)
    requires Independent(d, other) && Independent(other, d) && NotBare(d, bare) && NotBare(other, bare)
    requires d.enabled !in rest && d.disabled !in rest && other.enabled !in rest && other.disabled !in rest
    requires after == rest + DirectiveWord(d, value) + DirectiveWord(other, otherValue)
    ensures (ReadFlag(after, d, bare) == value && ReadFlag(after, other, bare) == otherValue)
       <==> !(value.None? && otherValue.None? && LoneBareWord(rest, bare))
  {
    var word, otherWord := DirectiveWord(d, value), DirectiveWord(other, otherValue);
    assert forall t :: t in after <==> t in rest || t in word || t in otherWord;
    if value.None? && otherValue.None? {
      assert after == rest;
    }
  }

  /** Both flags of a list whose directives were written are the values written exactly unless both were
      cleared and one bare word is all that is left. */
  lemma BothFlagsReadBack(tokens: seq<string>, d: Directive, value: Option<bool>,
                          other: Directive, otherValue: Option<bool>, bare: Bare)
    requires Distinct(tokens) && Independent(d, other) && Independent(other, d)
    requires NotBare(d, bare) && NotBare(other, bare)
    ensures var after := SetBoth(tokens, d, value, other, otherValue);
            (ReadFlag(after, d, bare) == value && ReadFlag(after, other, bare) == otherValue)
            <==> !(value.None? && otherValue.None? && LoneBareWord(Unrelated(tokens, d, other), bare))
  {
    SetBothAppends(tokens, d, value, other, otherValue);
    AppendedFlags(Unrelated(tokens, d, other), SetBoth(tokens, d, value, other, otherValue),
                  d, value, other, otherValue, bare);
  }

  /** Writing back both readings of an earlier list restores both, whatever directives were written
      in between; bare boolean words need no exception. */
  lemma FlagsRestored(earlier: seq<string>, tokens: seq<string>, d: Directive, other: Directive, bare: Bare)
    requires Distinct(earlier) && Distinct(tokens)
    requires Unrelated(earlier, d, other) == Unrelated(tokens, d, other)
    requires Independent(d, other) && Independent(other, d) && NotBare(d, bare) && NotBare(other, bare)
    ensures var restored := SetBoth(tokens, d, ReadFlag(earlier, d, bare), other, ReadFlag(earlier, other, bare));
            ReadFlag(restored, d, bare) == ReadFlag(earlier, d, bare)
            && ReadFlag(restored, other, bare) == ReadFlag(earlier, other, bare)
  {
    var value, otherValue := ReadFlag(earlier, d, bare), ReadFlag(earlier, other, bare);
    if value.None? && otherValue.None? {
      WithoutNothing(earlier, d);
      WithoutNothing(earlier, other);
      assert Unrelated(earlier, d, other) == earlier;
    }
    BothFlagsReadBack(tokens, d, value, other, otherValue, bare);
  }
}
