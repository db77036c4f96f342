/**
 * The post-meta store behind the apply endpoint (SafeOperationEndpoint.php): how the SEO fields of one
 * post are read and written under the key layout of Yoast and under that of Rank Math.
 */
module SeoMeta {
  import opened Prelude
  import opened Text
  import opened Robots

  /** The library functions the endpoint calls: wp_strip_all_tags, FILTER_VALIDATE_URL, the check for
      an http or https scheme, and esc_url_raw. */
  datatype Env = Env(
    strip: string -> string,
    validUrl: string -> bool,
    httpScheme: string -> bool,
    escapeUrl: string -> string)

  datatype Plugin = Yoast | RankMath

  /** The meta keys of Yoast (one per field) and of Rank Math (one list for both robots flags). */
  datatype MetaKey =
    | YoastTitle | YoastDescription | YoastCanonical | YoastNoindex | YoastNofollow
    | RankMathTitle | RankMathDescription | RankMathCanonical | RankMathRobots

  /** Post meta by post id and key. A missing entry reads as the empty string. */
  type Meta = map<(nat, MetaKey), MetaValue>

  datatype SeoValues = SeoValues(
    plugin: Plugin,
    seoTitle: Option<string>,
    metaDescription: Option<string>,
    canonicalUrl: Option<string>,
    noindex: Option<bool>,
    nofollow: Option<bool>)

  /** The fields an item names; naming a field with null asks for its deletion. */
  datatype SeoPatch = SeoPatch(
    seoTitle: Field<string>,
    metaDescription: Field<string>,
    canonicalUrl: Field<string>,
    noindex: Field<bool>,
    nofollow: Field<bool>)

  const TITLE_CAP := 512
  const DESCRIPTION_CAP := 1024
  const URL_CAP := 2048

  // ---------- Reading ----------

  function ReadMeta(meta: Meta, post: nat, key: MetaKey): MetaValue {
    if (post, key) in meta then meta[(post, key)] else Scalar("")
  }

  /** Every run of white space becomes one space. */
  function CollapseSpaces(s: string): string {
    if s == "" then ""
    else if !IsSpace(s[0]) then [s[0]] + CollapseSpaces(s[1..])
    else if |s| > 1 && IsSpace(s[1]) then CollapseSpaces(s[1..])
    else " " + CollapseSpaces(s[1..])
  }

  function CleanText(env: Env, s: string): string {
    Trim(CollapseSpaces(env.strip(s)))
  }

  function Take(s: string, cap: nat): (t: string)
    ensures |t| <= cap && |t| <= |s| && (|s| <= cap ==> t == s)
  {
    if |s| <= cap then s else s[..cap]
  }

  function SanitizeStoredText(env: Env, value: MetaValue, cap: nat): (text: Option<string>)
    ensures text.Some? ==> |text.value| <= cap
  {
    if !value.Scalar? || CleanText(env, value.text) == "" then None
    else Some(Take(CleanText(env, value.text), cap))
  }

  function SanitizeStoredUrl(env: Env, value: MetaValue): Option<string> {
    if !value.Scalar? then None
    else
      var url := Trim(value.text);
      if url == "" || !env.validUrl(url) then None else Some(Take(url, URL_CAP))
  }

  function TitleKey(plugin: Plugin): MetaKey {
    if plugin.Yoast? then YoastTitle else RankMathTitle
  }

  function DescriptionKey(plugin: Plugin): MetaKey {
    if plugin.Yoast? then YoastDescription else RankMathDescription
  }

  function CanonicalKey(plugin: Plugin): MetaKey {
    if plugin.Yoast? then YoastCanonical else RankMathCanonical
  }

  function NoindexKey(plugin: Plugin): MetaKey {
    if plugin.Yoast? then YoastNoindex else RankMathRobots
  }

  function NofollowKey(plugin: Plugin): MetaKey {
    if plugin.Yoast? then YoastNofollow else RankMathRobots
  }

  function ReadTitle(env: Env, meta: Meta, post: nat, plugin: Plugin): Option<string> {
    SanitizeStoredText(env, ReadMeta(meta, post, TitleKey(plugin)), TITLE_CAP)
  }

  function ReadDescription(env: Env, meta: Meta, post: nat, plugin: Plugin): Option<string> {
    SanitizeStoredText(env, ReadMeta(meta, post, DescriptionKey(plugin)), DESCRIPTION_CAP)
  }

  function ReadCanonical(env: Env, meta: Meta, post: nat, plugin: Plugin): Option<string> {
    SanitizeStoredUrl(env, ReadMeta(meta, post, CanonicalKey(plugin)))
  }

  function ReadNoindex(meta: Meta, post: nat, plugin: Plugin): Option<bool> {
    ParseRobotFlag(ReadMeta(meta, post, NoindexKey(plugin)), NOINDEX)
  }

  function ReadNofollow(meta: Meta, post: nat, plugin: Plugin): Option<bool> {
    ParseRobotFlag(ReadMeta(meta, post, NofollowKey(plugin)), NOFOLLOW)
  }

  function ReadSeoValues(env: Env, meta: Meta, post: nat, plugin: Plugin): SeoValues {
    SeoValues(
      plugin,
      ReadTitle(env, meta, post, plugin),
      ReadDescription(env, meta, post, plugin),
      ReadCanonical(env, meta, post, plugin),
      ReadNoindex(meta, post, plugin),
      ReadNofollow(meta, post, plugin))
  }

  predicate HasStoredValue(meta: Meta, post: nat, key: MetaKey) {
    match ReadMeta(meta, post, key)
    case Scalar(text) => Trim(text) != ""
    case List(entries) => exists i :: 0 <= i < |entries| && entries[i].Some? && Trim(entries[i].value) != ""
    case Opaque => false
  }

  /** The plugin an item is meant for: the one it names, else the first one with a stored value. */
  function ResolveSeoPlugin(meta: Meta, post: nat, requested: Option<Plugin>): Option<Plugin> {
    if requested.Some? then requested
    else if HasStoredValue(meta, post, YoastTitle) || HasStoredValue(meta, post, YoastDescription)
            || HasStoredValue(meta, post, YoastCanonical) || HasStoredValue(meta, post, YoastNoindex)
            || HasStoredValue(meta, post, YoastNofollow) then Some(Yoast)
    else if HasStoredValue(meta, post, RankMathTitle) || HasStoredValue(meta, post, RankMathDescription)
            || HasStoredValue(meta, post, RankMathCanonical) || HasStoredValue(meta, post, RankMathRobots)
    then Some(RankMath)
    else None
  }

  // ---------- Writing ----------

  function WritePostMeta(meta: Meta, post: nat, key: MetaKey, value: Option<MetaValue>): Meta {
    if value.None? then meta - {(post, key)} else meta[(post, key) := value.value]
  }

  function TextMeta(value: Option<string>): Option<MetaValue> {
    if value.None? then None else Some(Scalar(value.value))
  }

  function YoastFlagMeta(value: Option<bool>): Option<MetaValue> {
    if value.None? then None else Some(Scalar(if value.value then "1" else "0"))
  }

  function WriteField(meta: Meta, post: nat, key: MetaKey, field: Field<string>): Meta {
    if field.Keep? then meta else WritePostMeta(meta, post, key, TextMeta(field.value))
  }

  function WriteYoastFlag(meta: Meta, post: nat, key: MetaKey, field: Field<bool>): Meta {
    if field.Keep? then meta else WritePostMeta(meta, post, key, YoastFlagMeta(field.value))
  }

  function RobotsMeta(tokens: seq<string>): Option<MetaValue> {
    if tokens == [] then None else Some(List(Stored(tokens)))
  }

  function WriteRankMathRobots(meta: Meta, post: nat, patch: SeoPatch): Meta {
    if patch.noindex.Keep? && patch.nofollow.Keep? then meta
    else
      var tokens := NormalizeRobotTokens(ReadMeta(meta, post, RankMathRobots));
      WritePostMeta(meta, post, RankMathRobots, RobotsMeta(SetDirectives(tokens, patch.noindex, patch.nofollow)))
  }

  function WriteSeoValues(meta: Meta, post: nat, plugin: Plugin, patch: SeoPatch): Meta {
    match plugin
    case RankMath =>
      var titled := WriteField(meta, post, RankMathTitle, patch.seoTitle);
      var described := WriteField(titled, post, RankMathDescription, patch.metaDescription);
      var linked := WriteField(described, post, RankMathCanonical, patch.canonicalUrl);
      WriteRankMathRobots(linked, post, patch)
    case Yoast =>
      var titled := WriteField(meta, post, YoastTitle, patch.seoTitle);
      var described := WriteField(titled, post, YoastDescription, patch.metaDescription);
      var linked := WriteField(described, post, YoastCanonical, patch.canonicalUrl);
      WriteYoastFlag(WriteYoastFlag(linked, post, YoastNoindex, patch.noindex), post, YoastNofollow, patch.nofollow)
  }

  // ---------- One key at a time ----------

  function TextAfter(before: MetaValue, field: Field<string>): MetaValue {
    match field
    case Keep => before
    case Put(None) => Scalar("")
    case Put(Some(text)) => Scalar(text)
  }

  function FlagAfter(before: MetaValue, field: Field<bool>): MetaValue {
    match field
    case Keep => before
    case Put(None) => Scalar("")
    case Put(Some(flag)) => Scalar(if flag then "1" else "0")
  }

  lemma ReadAfterField(meta: Meta, post: nat, key: MetaKey, field: Field<string>, readPost: nat, readKey: MetaKey)
    ensures ReadMeta(WriteField(meta, post, key, field), readPost, readKey)
         == if readPost == post && readKey == key then TextAfter(ReadMeta(meta, post, key), field)
            else ReadMeta(meta, readPost, readKey)
  {
  }

  lemma ReadAfterYoastFlag(meta: Meta, post: nat, key: MetaKey, field: Field<bool>, readPost: nat, readKey: MetaKey)
    ensures ReadMeta(WriteYoastFlag(meta, post, key, field), readPost, readKey)
         == if readPost == post && readKey == key then FlagAfter(ReadMeta(meta, post, key), field)
            else ReadMeta(meta, readPost, readKey)
  {
  }

  lemma ReadAfterPostMeta(meta: Meta, post: nat, key: MetaKey, value: Option<MetaValue>, readPost: nat,
                          readKey: MetaKey)
    ensures ReadMeta(WritePostMeta(meta, post, key, value), readPost, readKey)
         == if readPost == post && readKey == key then (if value.Some? then value.value else Scalar(""))
            else ReadMeta(meta, readPost, readKey)
  {
  }

  lemma ReadAfterRobots(meta: Meta, post: nat, patch: SeoPatch, readPost: nat, readKey: MetaKey)
    requires readPost != post || readKey != RankMathRobots
    ensures ReadMeta(WriteRankMathRobots(meta, post, patch), readPost, readKey) == ReadMeta(meta, readPost, readKey)
  {
    if !(patch.noindex.Keep? && patch.nofollow.Keep?) {
      var tokens := NormalizeRobotTokens(ReadMeta(meta, post, RankMathRobots));
      var value := RobotsMeta(SetDirectives(tokens, patch.noindex, patch.nofollow));
      ReadAfterPostMeta(meta, post, RankMathRobots, value, readPost, readKey);
    }
  }

  /** What a key other than the shared robots list holds once its plugin was written. */
  function KeyAfterWrite(before: MetaValue, key: MetaKey, patch: SeoPatch): MetaValue {
    match key
    case YoastTitle => TextAfter(before, patch.seoTitle)
    case YoastDescription => TextAfter(before, patch.metaDescription)
    case YoastCanonical => TextAfter(before, patch.canonicalUrl)
    case YoastNoindex => FlagAfter(before, patch.noindex)
    case YoastNofollow => FlagAfter(before, patch.nofollow)
    case RankMathTitle => TextAfter(before, patch.seoTitle)
    case RankMathDescription => TextAfter(before, patch.metaDescription)
    case RankMathCanonical => TextAfter(before, patch.canonicalUrl)
    case RankMathRobots => before
  }

  lemma YoastKeys(meta: Meta, post: nat, patch: SeoPatch, readPost: nat, key: MetaKey)
    ensures ReadMeta(WriteSeoValues(meta, post, Yoast, patch), readPost, key)
         == if readPost == post && PluginKey(key, Yoast) then KeyAfterWrite(ReadMeta(meta, post, key), key, patch)
            else ReadMeta(meta, readPost, key)
  {
    var titled := WriteField(meta, post, YoastTitle, patch.seoTitle);
    var described := WriteField(titled, post, YoastDescription, patch.metaDescription);
    var linked := WriteField(described, post, YoastCanonical, patch.canonicalUrl);
    var indexed := WriteYoastFlag(linked, post, YoastNoindex, patch.noindex);
    ReadAfterField(meta, post, YoastTitle, patch.seoTitle, readPost, key);
    ReadAfterField(titled, post, YoastDescription, patch.metaDescription, readPost, key);
    ReadAfterField(described, post, YoastCanonical, patch.canonicalUrl, readPost, key);
    ReadAfterYoastFlag(linked, post, YoastNoindex, patch.noindex, readPost, key);
    ReadAfterYoastFlag(indexed, post, YoastNofollow, patch.nofollow, readPost, key);
  }

  lemma RankMathKeys(meta: Meta, post: nat, patch: SeoPatch, readPost: nat, key: MetaKey)
    requires key != RankMathRobots || readPost != post
    ensures ReadMeta(WriteSeoValues(meta, post, RankMath, patch), readPost, key)
         == if readPost == post && PluginKey(key, RankMath) then KeyAfterWrite(ReadMeta(meta, post, key), key, patch)
            else ReadMeta(meta, readPost, key)
  {
    var titled := WriteField(meta, post, RankMathTitle, patch.seoTitle);
    var described := WriteField(titled, post, RankMathDescription, patch.metaDescription);
    var linked := WriteField(described, post, RankMathCanonical, patch.canonicalUrl);
    ReadAfterField(meta, post, RankMathTitle, patch.seoTitle, readPost, key);
    ReadAfterField(titled, post, RankMathDescription, patch.metaDescription, readPost, key);
    ReadAfterField(described, post, RankMathCanonical, patch.canonicalUrl, readPost, key);
    ReadAfterRobots(linked, post, patch, readPost, key);
  }

  // ---------- What a write leaves alone ----------

  predicate PluginKey(key: MetaKey, plugin: Plugin) {
    plugin.RankMath? <==> (key.RankMathTitle? || key.RankMathDescription? || key.RankMathCanonical?
                           || key.RankMathRobots?)
  }

  /** Everything but the keys of one plugin on one post is as before. */
  ghost predicate LeftAlone(meta: Meta, after: Meta, post: nat, plugin: Plugin) {
    forall readPost: nat, key :: readPost != post || !PluginKey(key, plugin)
      ==> ReadMeta(after, readPost, key) == ReadMeta(meta, readPost, key)
  }

  /** The keys of one plugin on one post hold what the patch says; the shared robots list apart. */
  ghost predicate Wrote(meta: Meta, after: Meta, post: nat, plugin: Plugin, patch: SeoPatch) {
    forall key :: PluginKey(key, plugin) && key != RankMathRobots
      ==> ReadMeta(after, post, key) == KeyAfterWrite(ReadMeta(meta, post, key), key, patch)
  }

  lemma WriteTouchesOnePair(meta: Meta, post: nat, plugin: Plugin, patch: SeoPatch)
    ensures LeftAlone(meta, WriteSeoValues(meta, post, plugin, patch), post, plugin)
  {
    var after := WriteSeoValues(meta, post, plugin, patch);
    forall readPost: nat, key | readPost != post || !PluginKey(key, plugin)
      ensures ReadMeta(after, readPost, key) == ReadMeta(meta, readPost, key)
    {
      if plugin.Yoast? {
        YoastKeys(meta, post, patch, readPost, key);
      } else {
        RankMathKeys(meta, post, patch, readPost, key);
      }
    }
  }

  lemma WriteWrites(meta: Meta, post: nat, plugin: Plugin, patch: SeoPatch)
    ensures Wrote(meta, WriteSeoValues(meta, post, plugin, patch), post, plugin, patch)
  {
    var after := WriteSeoValues(meta, post, plugin, patch);
    forall key | PluginKey(key, plugin) && key != RankMathRobots
      ensures ReadMeta(after, post, key) == KeyAfterWrite(ReadMeta(meta, post, key), key, patch)
    {
      if plugin.Yoast? {
        YoastKeys(meta, post, patch, post, key);
      } else {
        RankMathKeys(meta, post, patch, post, key);
      }
    }
  }

  function StoredTokens(meta: Meta, post: nat): seq<string> {
    NormalizeRobotTokens(ReadMeta(meta, post, RankMathRobots))
  }

  /** The Rank Math tokens of a post that say nothing about the two flags, for example "noarchive". */
  function OtherTokens(meta: Meta, post: nat): seq<string> {
    Unrelated(StoredTokens(meta, post), NOINDEX, NOFOLLOW)
  }

  /** A pair no write touched reads as before. */
  lemma OtherPairsUnchanged(env: Env, meta: Meta, after: Meta, post: nat, plugin: Plugin,
                            readPost: nat, readPlugin: Plugin)
    requires LeftAlone(meta, after, post, plugin)
    requires readPost != post || readPlugin != plugin
    ensures ReadSeoValues(env, after, readPost, readPlugin) == ReadSeoValues(env, meta, readPost, readPlugin)
  {
    assert PluginKey(TitleKey(readPlugin), readPlugin) && PluginKey(DescriptionKey(readPlugin), readPlugin);
    assert PluginKey(CanonicalKey(readPlugin), readPlugin);
    assert PluginKey(NoindexKey(readPlugin), readPlugin) && PluginKey(NofollowKey(readPlugin), readPlugin);
  }

  // ---------- What a write makes readable ----------

  /** How a written text reads back. */
  function TextReading(env: Env, value: Option<string>, cap: nat): Option<string> {
    if value.None? then None else SanitizeStoredText(env, Scalar(value.value), cap)
  }

  function UrlReading(env: Env, value: Option<string>): Option<string> {
    if value.None? then None else SanitizeStoredUrl(env, Scalar(value.value))
  }

  lemma EmptyReadsAsNothing(env: Env)
    ensures Trim("") == "" && SanitizeStoredUrl(env, Scalar("")) == None
    ensures NormalizeRobotTokens(Scalar("")) == []
  {
  }

  lemma TextAfterReads(env: Env, before: MetaValue, field: Field<string>, cap: nat)
    requires CleanText(env, "") == ""
    ensures SanitizeStoredText(env, TextAfter(before, field), cap)
         == if field.Put? then TextReading(env, field.value, cap) else SanitizeStoredText(env, before, cap)
  {
  }

  lemma UrlAfterReads(env: Env, before: MetaValue, field: Field<string>)
    ensures SanitizeStoredUrl(env, TextAfter(before, field))
         == if field.Put? then UrlReading(env, field.value) else SanitizeStoredUrl(env, before)
  {
    EmptyReadsAsNothing(env);
  }

  /** A written title reads back as its sanitized self, and an unnamed one keeps its reading. */
  lemma TitleAfterWrite(env: Env, meta: Meta, after: Meta, post: nat, plugin: Plugin, patch: SeoPatch)
    requires Wrote(meta, after, post, plugin, patch) && CleanText(env, "") == ""
    ensures ReadTitle(env, after, post, plugin)
         == if patch.seoTitle.Put? then TextReading(env, patch.seoTitle.value, TITLE_CAP)
            else ReadTitle(env, meta, post, plugin)
  {
    assert PluginKey(TitleKey(plugin), plugin);
    TextAfterReads(env, ReadMeta(meta, post, TitleKey(plugin)), patch.seoTitle, TITLE_CAP);
  }

  lemma DescriptionAfterWrite(env: Env, meta: Meta, after: Meta, post: nat, plugin: Plugin, patch: SeoPatch)
    requires Wrote(meta, after, post, plugin, patch) && CleanText(env, "") == ""
    ensures ReadDescription(env, after, post, plugin)
         == if patch.metaDescription.Put? then TextReading(env, patch.metaDescription.value, DESCRIPTION_CAP)
            else ReadDescription(env, meta, post, plugin)
  {
    assert PluginKey(DescriptionKey(plugin), plugin);
    TextAfterReads(env, ReadMeta(meta, post, DescriptionKey(plugin)), patch.metaDescription, DESCRIPTION_CAP);
  }

  lemma CanonicalAfterWrite(env: Env, meta: Meta, after: Meta, post: nat, plugin: Plugin, patch: SeoPatch)
    requires Wrote(meta, after, post, plugin, patch)
    ensures ReadCanonical(env, after, post, plugin)
         == if patch.canonicalUrl.Put? then UrlReading(env, patch.canonicalUrl.value)
            else ReadCanonical(env, meta, post, plugin)
  {
    assert PluginKey(CanonicalKey(plugin), plugin);
    UrlAfterReads(env, ReadMeta(meta, post, CanonicalKey(plugin)), patch.canonicalUrl);
  }

  lemma WordsOfOne(c: char)
    requires !IsSeparator(c)
    ensures Words([c]) == [[c]]
  {
    assert [c][1..] == "" && "" + [c] == [c];
    assert WordsFrom([c], "") == [[c]];
  }

  lemma OneCharToken(c: char)
    requires IsWordChar(c)
    ensures NormalizeRobotTokens(Scalar([c])) == [[c]]
  {
    WordsOfOne(c);
    PlainTokensKeepPlain([[c]]);
    assert Distinct([[c]]);
    UniqueKeepsDistinct([[c]]);
  }

  lemma BareWordReads(token: string, d: Directive)
    requires BareWord(token).Some? && (d == NOINDEX || d == NOFOLLOW)
    ensures ReadFlag([token], d, BareWord) == BareWord(token)
  {
    RobotsDirectives();
    BareHidesFlag([token], d, BareWord);
  }

  lemma DigitReads(digit: char, d: Directive)
    requires IsWordChar(digit) && BareWord([digit]).Some? && (d == NOINDEX || d == NOFOLLOW)
    ensures ParseRobotFlag(Scalar([digit]), d) == BareWord([digit])
  {
    OneCharToken(digit);
    BareWordReads([digit], d);
  }

  lemma Digits()
    ensures BareWord("1") == Some(true) && BareWord("0") == Some(false)
    ensures NormalizeRobotTokens(Scalar("")) == []
  {
  }

  /** Yoast keeps one key per flag: what is written there is what is read. */
  lemma YoastFlagReadsBack(before: MetaValue, field: Field<bool>, d: Directive)
    requires d == NOINDEX || d == NOFOLLOW
    ensures ParseRobotFlag(FlagAfter(before, field), d)
         == if field.Put? then field.value else ParseRobotFlag(before, d)
  {
    Digits();
    match field
    case Keep =>
    case Put(None) => assert ReadFlag([], d, BareWord) == None;
    case Put(Some(flag)) =>
      if flag {
        DigitReads('1', d);
      } else {
        DigitReads('0', d);
      }
  }

  lemma YoastFlagWritten(meta: Meta, after: Meta, post: nat, patch: SeoPatch)
    requires Wrote(meta, after, post, Yoast, patch)
    ensures ReadMeta(after, post, YoastNoindex) == FlagAfter(ReadMeta(meta, post, YoastNoindex), patch.noindex)
    ensures ReadMeta(after, post, YoastNofollow) == FlagAfter(ReadMeta(meta, post, YoastNofollow), patch.nofollow)
  {
    assert PluginKey(YoastNoindex, Yoast) && PluginKey(YoastNofollow, Yoast);
  }

  lemma YoastNoindexAfterWrite(meta: Meta, after: Meta, post: nat, patch: SeoPatch)
    requires Wrote(meta, after, post, Yoast, patch)
    ensures ReadNoindex(after, post, Yoast)
         == if patch.noindex.Put? then patch.noindex.value else ReadNoindex(meta, post, Yoast)
  {
    YoastFlagWritten(meta, after, post, patch);
    YoastFlagReadsBack(ReadMeta(meta, post, YoastNoindex), patch.noindex, NOINDEX);
  }

  lemma YoastNofollowAfterWrite(meta: Meta, after: Meta, post: nat, patch: SeoPatch)
    requires Wrote(meta, after, post, Yoast, patch)
    ensures ReadNofollow(after, post, Yoast)
         == if patch.nofollow.Put? then patch.nofollow.value else ReadNofollow(meta, post, Yoast)
  {
    YoastFlagWritten(meta, after, post, patch);
    YoastFlagReadsBack(ReadMeta(meta, post, YoastNofollow), patch.nofollow, NOFOLLOW);
  }

  lemma SetIfNamedTokens(tokens: seq<string>, d: Directive, field: Field<bool>)
    requires Distinct(tokens) && AllPlain(tokens) && IsPlainWord(d.enabled) && IsPlainWord(d.disabled)
    ensures Distinct(SetIfNamed(tokens, d, field)) && AllPlain(SetIfNamed(tokens, d, field))
  {
    if field.Put? {
      SetDirectiveAppends(tokens, d, field.value);
      forall t | t in SetRobotDirective(tokens, d, field.value) ensures IsPlainWord(t) {
        assert t in tokens || t == d.enabled || t == d.disabled;
      }
    }
  }

  /** The tokens read after a Rank Math write are the tokens the write computed. */
  lemma TokensAfterWrite(meta: Meta, post: nat, patch: SeoPatch)
    ensures StoredTokens(WriteRankMathRobots(meta, post, patch), post)
         == SetDirectives(StoredTokens(meta, post), patch.noindex, patch.nofollow)
  {
    var tokens := StoredTokens(meta, post);
    if !(patch.noindex.Keep? && patch.nofollow.Keep?) {
      var written := SetDirectives(tokens, patch.noindex, patch.nofollow);
      NormalizedTokens(ReadMeta(meta, post, RankMathRobots));
      RobotsDirectives();
      SetIfNamedTokens(tokens, NOINDEX, patch.noindex);
      SetIfNamedTokens(SetIfNamed(tokens, NOINDEX, patch.noindex), NOFOLLOW, patch.nofollow);
      WrittenTokens(meta, post, written);
    }
  }

  lemma WrittenTokens(meta: Meta, post: nat, written: seq<string>)
    requires Distinct(written) && AllPlain(written)
    ensures StoredTokens(WritePostMeta(meta, post, RankMathRobots, RobotsMeta(written)), post) == written
  {
    ReadAfterPostMeta(meta, post, RankMathRobots, RobotsMeta(written), post, RankMathRobots);
    if written == [] {
      Digits();
    } else {
      StoredTokensReadBack(written);
    }
  }

  lemma RankMathTokensAfterWrite(meta: Meta, post: nat, patch: SeoPatch)
    ensures StoredTokens(WriteSeoValues(meta, post, RankMath, patch), post)
         == SetDirectives(StoredTokens(meta, post), patch.noindex, patch.nofollow)
  {
    var titled := WriteField(meta, post, RankMathTitle, patch.seoTitle);
    var described := WriteField(titled, post, RankMathDescription, patch.metaDescription);
    var linked := WriteField(described, post, RankMathCanonical, patch.canonicalUrl);
    ReadAfterField(meta, post, RankMathTitle, patch.seoTitle, post, RankMathRobots);
    ReadAfterField(titled, post, RankMathDescription, patch.metaDescription, post, RankMathRobots);
    ReadAfterField(described, post, RankMathCanonical, patch.canonicalUrl, post, RankMathRobots);
    TokensAfterWrite(linked, post, patch);
  }

  lemma NamedWriteKeepsUnrelated(tokens: seq<string>, d: Directive, other: Directive, field: Field<bool>)
    requires Distinct(tokens) && Independent(d, other)
    ensures Unrelated(SetIfNamed(tokens, d, field), d, other) == Unrelated(tokens, d, other)
    ensures Unrelated(SetIfNamed(tokens, d, field), other, d) == Unrelated(tokens, other, d)
  {
    if field.Put? {
      WriteKeepsUnrelated(tokens, d, other, field.value);
    }
  }

  /** No write for either plugin changes the tokens of any post that are not robots directives. */
  lemma OtherTokensUnchanged(meta: Meta, post: nat, plugin: Plugin, patch: SeoPatch, readPost: nat)
    ensures OtherTokens(WriteSeoValues(meta, post, plugin, patch), readPost) == OtherTokens(meta, readPost)
  {
    WriteTouchesOnePair(meta, post, plugin, patch);
    if readPost == post && plugin.RankMath? {
      var tokens := StoredTokens(meta, post);
      var indexed := SetIfNamed(tokens, NOINDEX, patch.noindex);
      NormalizedTokens(ReadMeta(meta, post, RankMathRobots));
      RobotsDirectives();
      RankMathTokensAfterWrite(meta, post, patch);
      SetIfNamedTokens(tokens, NOINDEX, patch.noindex);
      NamedWriteKeepsUnrelated(tokens, NOINDEX, NOFOLLOW, patch.noindex);
      NamedWriteKeepsUnrelated(indexed, NOFOLLOW, NOINDEX, patch.nofollow);
    }
  }
}
