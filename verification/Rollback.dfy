/**
 * Rolling a batch back. Every completed item carries the values read before it was written; sending
 * those values back through the endpoint, last item first, must undo the batch.
 */
module Rollback {
  import opened Prelude
  import opened Text
  import opened Robots
  import opened SeoMeta
  import opened Cleaning
  import opened SafeOperations

  // ---------- The values a rollback can put back ----------

  /** A URL the endpoint accepts as a canonical. */
  predicate AcceptedUrl(env: Env, url: string) {
    url != "" && |url| <= URL_CAP && env.validUrl(url) && env.httpScheme(url)
  }

  /** A text that is its own cleaned form. A read text is, unless the cap cut it short or tags are left in it. */
  predicate SettledText(env: Env, text: Option<string>) {
    text.Some? ==> text.value != "" && CleanText(env, text.value) == text.value
  }

  /** A canonical the endpoint accepts, or none. */
  predicate AcceptedCanonical(env: Env, url: Option<string>) {
    url.Some? ==> AcceptedUrl(env, Trim(url.value))
  }

  /** An accepted canonical that reads the same after esc_url_raw. */
  predicate SettledUrl(env: Env, url: Option<string>) {
    url.Some? ==>
      AcceptedUrl(env, Trim(url.value)) && SanitizeStoredUrl(env, Scalar(env.escapeUrl(Trim(url.value)))) == url
  }

  predicate Restorable(env: Env, values: SeoValues) {
    && SettledText(env, values.seoTitle) && SettledText(env, values.metaDescription)
    && SettledUrl(env, values.canonicalUrl)
  }

  // ---------- The rollback request ----------

  function TextJson(text: Option<string>): Option<Json> {
    Some(if text.None? then Null else Json.Text(text.value))
  }

  function FlagJson(flag: Option<bool>): Option<Json> {
    Some(if flag.None? then Null else Bool(flag.value))
  }

  /** The captured values as an afterValue object. */
  function AfterValueOf(values: SeoValues): AfterValue {
    AfterValue(
      [],
      Some(Json.Text(if values.plugin.Yoast? then "yoast" else "rank_math")),
      TextJson(values.seoTitle),
      TextJson(values.metaDescription),
      TextJson(values.canonicalUrl),
      FlagJson(values.noindex),
      FlagJson(values.nofollow))
  }

  function RollbackItem(result: ItemResult): ItemInput
    requires result.Completed?
  {
    Item(Some(Json.Text(result.itemId)), Some(Json.Text(result.externalId)), Some(AfterValueOf(result.before)))
  }

  /** One item for each completed result, last result first. */
  function RollbackItems(results: seq<ItemResult>): seq<ItemInput> {
    if results == [] then []
    else RollbackItems(results[1..]) + if results[0].Completed? then [RollbackItem(results[0])] else []
  }

  // ---------- One field ----------

  lemma ReadTextIsNotEmpty(env: Env, stored: MetaValue, cap: nat)
    requires cap > 0
    ensures SanitizeStoredText(env, stored, cap).Some? ==> SanitizeStoredText(env, stored, cap).value != ""
  {
  }

  /** A read text is never refused when it is sent back. */
  lemma ReadTextIsAccepted(env: Env, stored: MetaValue, field: FieldName, cap: nat)
    requires OnlyDeletes(env)
    ensures var text := SanitizeStoredText(env, stored, cap);
            NormalizeText(env, TextJson(text), field, cap)
            == Fine(Put(if text.None? || CleanText(env, text.value) == "" then None
                        else Some(CleanText(env, text.value))))
  {
    var text := SanitizeStoredText(env, stored, cap);
    if text.Some? {
      CleanShrinks(env, text.value);
    }
  }

  /** Sending a read text back stores and reads the same text exactly when it is settled. */
  lemma TextRestores(env: Env, stored: MetaValue, field: FieldName, cap: nat)
    requires OnlyDeletes(env) && cap > 0
    ensures var text := SanitizeStoredText(env, stored, cap);
            var sent := NormalizeText(env, TextJson(text), field, cap);
            (sent.Fine? && sent.value.Put? && TextReading(env, sent.value.value, cap) == text)
            <==> SettledText(env, text)
  {
    var text := SanitizeStoredText(env, stored, cap);
    ReadTextIsNotEmpty(env, stored, cap);
    ReadTextIsAccepted(env, stored, field, cap);
    if text.Some? {
      CleanShrinks(env, text.value);
      CleanShrinks(env, CleanText(env, text.value));
      CleanedTwice(env, text.value);
    }
  }

  /** Escaping the URL gives a text without white space around it that the cap does not cut. */
  predicate EscapesTidily(env: Env, url: string) {
    var escaped := env.escapeUrl(url);
    escaped != "" && Trim(escaped) == escaped && |escaped| <= URL_CAP
  }

  /** Sending a read canonical back is accepted exactly when it is an acceptable URL, and stores and reads the
      same canonical exactly when it is settled: for one that escapes tidily, when escaping leaves it alone. */
  lemma UrlRestores(env: Env, url: Option<string>)
    requires url.Some? ==> Trim(url.value) != ""
    ensures var sent := NormalizeUrl(env, TextJson(url));
            var restored := sent.Fine? && sent.value.Put? && UrlReading(env, sent.value.value) == url;
            && (sent.Fine? <==> AcceptedCanonical(env, url)) && (restored <==> SettledUrl(env, url))
            && (url.Some? && EscapesTidily(env, Trim(url.value)) ==>
                  (restored <==> AcceptedUrl(env, Trim(url.value)) && env.escapeUrl(Trim(url.value)) == url.value))
  {
    if url.Some? {
      TrimTrims(url.value);
    }
  }

  lemma ReadUrlIsNotEmpty(env: Env, stored: MetaValue)
    ensures var url := SanitizeStoredUrl(env, stored);
            url.Some? ==> url.value != "" && Trim(url.value) != ""
  {
    if SanitizeStoredUrl(env, stored).Some? {
      var whole := Trim(stored.text);
      TrimTrims(stored.text);
      assert Take(whole, URL_CAP)[0] == whole[0];
      TrimmedStarts(Take(whole, URL_CAP));
    }
  }

  lemma {:induction false} TrimRightKeepsFront(s: string)
    requires s != "" && !IsTrimmed(s[0])
    ensures TrimRight(s) != ""
  {
    if IsTrimmed(s[|s| - 1]) {
      TrimRightKeepsFront(s[..|s| - 1]);
    }
  }

  lemma TrimmedStarts(s: string)
    requires s != "" && !IsTrimmed(s[0])
    ensures Trim(s) != ""
  {
    TrimRightKeepsFront(s);
  }

  /** The patch a rollback item asks for. */
  function RestoringPatch(env: Env, values: SeoValues): Checked<SeoPatch> {
    var title := NormalizeText(env, TextJson(values.seoTitle), SeoTitleField, TITLE_CAP);
    if title.Bad? then Bad(title.error)
    else
      var description := NormalizeText(env, TextJson(values.metaDescription), MetaDescriptionField, DESCRIPTION_CAP);
      if description.Bad? then Bad(description.error)
      else
        var canonical := NormalizeUrl(env, TextJson(values.canonicalUrl));
        if canonical.Bad? then Bad(canonical.error)
        else Fine(SeoPatch(title.value, description.value, canonical.value, Put(values.noindex), Put(values.nofollow)))
  }

  lemma RollbackNormalizes(env: Env, values: SeoValues)
    ensures NormalizeAfterValue(env, AfterValueOf(values))
         == match RestoringPatch(env, values)
            case Fine(patch) => Fine((Some(values.plugin), patch))
            case Bad(error) => Bad(error)
  {
    assert NormalizePlugin(AfterValueOf(values).seoPlugin) == Fine(Some(values.plugin));
  }

  // ---------- One item ----------

  /** A completed result names its post: the rollback item will be accepted as far as its ids go. */
  predicate NamesPost(site: Site, result: ItemResult, post: nat, plugin: Plugin) {
    && result.Completed?
    && ReadBoundedString(Some(Json.Text(result.itemId)), ID_CAP) == Some(result.itemId)
    && ReadBoundedString(Some(Json.Text(result.externalId)), ID_CAP) == Some(result.externalId)
    && post in site.postTypes
    && ParsePostExternalId(result.externalId) == Some((site.postTypes[post], post))
    && result.before.plugin == plugin
  }

  lemma BoundedStringReadsBack(json: Option<Json>, cap: nat)
    ensures var text := ReadBoundedString(json, cap);
            text.Some? ==> ReadBoundedString(Some(Json.Text(text.value)), cap) == text
  {
    if json.Some? && ScalarText(json.value).Some? {
      TrimTrims(ScalarText(json.value).value);
    }
  }

  lemma AcceptedNamesPost(site: Site, meta: Meta, item: ItemInput)
    requires Decide(site, meta, item).Accept?
    ensures var d := Decide(site, meta, item);
            NamesPost(site, Applying(site, meta, item).0, d.post, d.plugin)
  {
    BoundedStringReadsBack(item.itemId, ID_CAP);
    BoundedStringReadsBack(item.externalId, ID_CAP);
  }

  lemma RollbackDecision(site: Site, now: Meta, result: ItemResult, post: nat, plugin: Plugin)
    requires NamesPost(site, result, post, plugin)
    ensures Decide(site, now, RollbackItem(result))
         == match RestoringPatch(site.env, result.before)
            case Fine(patch) => Accept(result.itemId, result.externalId, post, plugin, patch)
            case Bad(error) => Refuse(Failed(Some(result.itemId), Some(result.externalId), error))
  {
    RollbackNormalizes(site.env, result.before);
  }

  /** Both flags come back, whatever was written to the post between `earlier` and `now`. */
  lemma FlagsRestore(earlier: Meta, now: Meta, post: nat, plugin: Plugin, patch: SeoPatch)
    requires OtherTokens(now, post) == OtherTokens(earlier, post)
    requires patch.noindex == Put(ReadNoindex(earlier, post, plugin))
    requires patch.nofollow == Put(ReadNofollow(earlier, post, plugin))
    ensures var after := WriteSeoValues(now, post, plugin, patch);
            ReadNoindex(after, post, plugin) == ReadNoindex(earlier, post, plugin)
            && ReadNofollow(after, post, plugin) == ReadNofollow(earlier, post, plugin)
  {
    var after := WriteSeoValues(now, post, plugin, patch);
    if plugin.Yoast? {
      WriteWrites(now, post, plugin, patch);
      YoastNoindexAfterWrite(now, after, post, patch);
      YoastNofollowAfterWrite(now, after, post, patch);
    } else {
      RankMathTokensAfterWrite(now, post, patch);
      NormalizedTokens(ReadMeta(earlier, post, RankMathRobots));
      NormalizedTokens(ReadMeta(now, post, RankMathRobots));
      RobotsDirectives();
      FlagsRestored(StoredTokens(earlier, post), StoredTokens(now, post), NOINDEX, NOFOLLOW, BareWord);
    }
  }

  lemma SentFieldsRestore(env: Env, earlier: Meta, post: nat, plugin: Plugin, patch: SeoPatch)
    requires OnlyDeletes(env)
    requires RestoringPatch(env, ReadSeoValues(env, earlier, post, plugin)) == Fine(patch)
    ensures patch.seoTitle.Put? && patch.metaDescription.Put? && patch.canonicalUrl.Put?
    ensures TextReading(env, patch.seoTitle.value, TITLE_CAP) == ReadTitle(env, earlier, post, plugin)
            <==> SettledText(env, ReadTitle(env, earlier, post, plugin))
    ensures TextReading(env, patch.metaDescription.value, DESCRIPTION_CAP)
            == ReadDescription(env, earlier, post, plugin)
            <==> SettledText(env, ReadDescription(env, earlier, post, plugin))
    ensures UrlReading(env, patch.canonicalUrl.value) == ReadCanonical(env, earlier, post, plugin)
            <==> SettledUrl(env, ReadCanonical(env, earlier, post, plugin))
  {
    TextRestores(env, ReadMeta(earlier, post, TitleKey(plugin)), SeoTitleField, TITLE_CAP);
    TextRestores(env, ReadMeta(earlier, post, DescriptionKey(plugin)), MetaDescriptionField, DESCRIPTION_CAP);
    ReadUrlIsNotEmpty(env, ReadMeta(earlier, post, CanonicalKey(plugin)));
    UrlRestores(env, ReadCanonical(env, earlier, post, plugin));
  }

  lemma TextsRestore(env: Env, earlier: Meta, now: Meta, after: Meta, post: nat, plugin: Plugin, patch: SeoPatch)
    requires OnlyDeletes(env) && Wrote(now, after, post, plugin, patch)
    requires RestoringPatch(env, ReadSeoValues(env, earlier, post, plugin)) == Fine(patch)
    ensures (ReadTitle(env, after, post, plugin) == ReadTitle(env, earlier, post, plugin)
             && ReadDescription(env, after, post, plugin) == ReadDescription(env, earlier, post, plugin)
             && ReadCanonical(env, after, post, plugin) == ReadCanonical(env, earlier, post, plugin))
            <==> Restorable(env, ReadSeoValues(env, earlier, post, plugin))
  {
    SentFieldsRestore(env, earlier, post, plugin, patch);
    TitleAfterWrite(env, now, after, post, plugin, patch);
    DescriptionAfterWrite(env, now, after, post, plugin, patch);
    CanonicalAfterWrite(env, now, after, post, plugin, patch);
  }

  lemma RefusedIsNotRestorable(env: Env, earlier: Meta, post: nat, plugin: Plugin)
    requires OnlyDeletes(env)
    requires RestoringPatch(env, ReadSeoValues(env, earlier, post, plugin)).Bad?
    ensures !Restorable(env, ReadSeoValues(env, earlier, post, plugin))
  {
    TextRestores(env, ReadMeta(earlier, post, TitleKey(plugin)), SeoTitleField, TITLE_CAP);
    TextRestores(env, ReadMeta(earlier, post, DescriptionKey(plugin)), MetaDescriptionField, DESCRIPTION_CAP);
    ReadUrlIsNotEmpty(env, ReadMeta(earlier, post, CanonicalKey(plugin)));
    UrlRestores(env, ReadCanonical(env, earlier, post, plugin));
  }

  /** Sending back the values read in `earlier` is accepted and makes them readable again exactly when
      they are restorable, whatever was written to the post in between. */
  lemma RestoresExactly(site: Site, earlier: Meta, now: Meta, result: ItemResult, post: nat, plugin: Plugin)
    requires OnlyDeletes(site.env) && NamesPost(site, result, post, plugin)
    requires result.before == ReadSeoValues(site.env, earlier, post, plugin)
    requires OtherTokens(now, post) == OtherTokens(earlier, post)
    ensures var undone := Applying(site, now, RollbackItem(result));
            (undone.0.Completed? && ReadSeoValues(site.env, undone.1, post, plugin) == result.before)
            <==> Restorable(site.env, result.before)
  {
    var env := site.env;
    RollbackDecision(site, now, result, post, plugin);
    match RestoringPatch(env, result.before)
    case Bad(_) =>
      RefusedIsNotRestorable(env, earlier, post, plugin);
    case Fine(patch) =>
      PatchRestores(env, earlier, now, post, plugin, patch);
  }

  lemma PatchRestores(env: Env, earlier: Meta, now: Meta, post: nat, plugin: Plugin, patch: SeoPatch)
    requires OnlyDeletes(env) && RestoringPatch(env, ReadSeoValues(env, earlier, post, plugin)) == Fine(patch)
    requires OtherTokens(now, post) == OtherTokens(earlier, post)
    ensures ReadSeoValues(env, WriteSeoValues(now, post, plugin, patch), post, plugin)
            == ReadSeoValues(env, earlier, post, plugin)
            <==> Restorable(env, ReadSeoValues(env, earlier, post, plugin))
  {
    WriteWrites(now, post, plugin, patch);
    TextsRestore(env, earlier, now, WriteSeoValues(now, post, plugin, patch), post, plugin, patch);
    FlagsRestore(earlier, now, post, plugin, patch);
  }

  // ---------- One item and one pair of post and plugin ----------

  /** Cleaning what is sent once more changes nothing. */
  predicate CleansOnce(env: Env, json: Option<Json>) {
    json.Some? && ScalarText(json.value).Some? ==>
      var cleaned := CleanText(env, ScalarText(json.value).value); CleanText(env, cleaned) == cleaned
  }

  /** Escaping what is sent gives an acceptable URL that escaping leaves alone. */
  predicate EscapesOnce(env: Env, json: Option<Json>) {
    json.Some? && ScalarText(json.value).Some? && AcceptedUrl(env, Trim(ScalarText(json.value).value)) ==>
      var escaped := env.escapeUrl(Trim(ScalarText(json.value).value));
      AcceptedUrl(env, escaped) && Trim(escaped) == escaped && env.escapeUrl(escaped) == escaped
  }

  lemma SentTextIsSettled(env: Env, json: Option<Json>, field: FieldName, cap: nat)
    requires CleansOnce(env, json) && cap > 0
    ensures var sent := NormalizeText(env, json, field, cap);
            sent.Fine? && sent.value.Put? ==> SettledText(env, TextReading(env, sent.value.value, cap))
  {
    var sent := NormalizeText(env, json, field, cap);
    if sent.Fine? && sent.value.Put? && sent.value.value.Some? {
      assert sent.value.value.value == CleanText(env, ScalarText(json.value).value);
    }
  }

  lemma SentUrlIsSettled(env: Env, json: Option<Json>)
    requires EscapesOnce(env, json)
    ensures var sent := NormalizeUrl(env, json);
            sent.Fine? && sent.value.Put? ==> SettledUrl(env, UrlReading(env, sent.value.value))
  {
  }

  /** Cleaning and escaping the values an item sends once more changes nothing. */
  predicate SettlesAtOnce(env: Env, value: AfterValue) {
    CleansOnce(env, value.seoTitle) && CleansOnce(env, value.metaDescription) && EscapesOnce(env, value.canonicalUrl)
  }

  /** What the patch names will read back as restorable values. */
  predicate SettledPatch(env: Env, patch: SeoPatch) {
    && (patch.seoTitle.Put? ==> SettledText(env, TextReading(env, patch.seoTitle.value, TITLE_CAP)))
    && (patch.metaDescription.Put? ==> SettledText(env, TextReading(env, patch.metaDescription.value, DESCRIPTION_CAP)))
    && (patch.canonicalUrl.Put? ==> SettledUrl(env, UrlReading(env, patch.canonicalUrl.value)))
  }

  lemma SentPatchIsSettled(env: Env, value: AfterValue)
    requires SettlesAtOnce(env, value) && NormalizeAfterValue(env, value).Fine?
    ensures SettledPatch(env, NormalizeAfterValue(env, value).value.1)
  {
    var patch := NormalizeAfterValue(env, value).value.1;
    SentTextIsSettled(env, value.seoTitle, SeoTitleField, TITLE_CAP);
    SentTextIsSettled(env, value.metaDescription, MetaDescriptionField, DESCRIPTION_CAP);
    SentUrlIsSettled(env, value.canonicalUrl);
    assert Fine(patch.seoTitle) == NormalizeText(env, value.seoTitle, SeoTitleField, TITLE_CAP);
    assert Fine(patch.canonicalUrl) == NormalizeUrl(env, value.canonicalUrl);
  }

  lemma SettledPatchIsRestorable(env: Env, meta: Meta, after: Meta, post: nat, plugin: Plugin, patch: SeoPatch)
    requires Wrote(meta, after, post, plugin, patch)
    requires CleanText(env, "") == "" && SettledPatch(env, patch)
    requires Restorable(env, ReadSeoValues(env, meta, post, plugin))
    ensures Restorable(env, ReadSeoValues(env, after, post, plugin))
  {
    TitleAfterWrite(env, meta, after, post, plugin, patch);
    DescriptionAfterWrite(env, meta, after, post, plugin, patch);
    CanonicalAfterWrite(env, meta, after, post, plugin, patch);
  }

  lemma WrittenPairIsRestorable(env: Env, meta: Meta, post: nat, plugin: Plugin, value: AfterValue)
    requires CleanText(env, "") == "" && Restorable(env, ReadSeoValues(env, meta, post, plugin))
    requires SettlesAtOnce(env, value) && NormalizeAfterValue(env, value).Fine?
    ensures var after := WriteSeoValues(meta, post, plugin, NormalizeAfterValue(env, value).value.1);
            Restorable(env, ReadSeoValues(env, after, post, plugin))
  {
    var patch := NormalizeAfterValue(env, value).value.1;
    SentPatchIsSettled(env, value);
    WriteWrites(meta, post, plugin, patch);
    SettledPatchIsRestorable(env, meta, WriteSeoValues(meta, post, plugin, patch), post, plugin, patch);
  }

  /** A completed result for this post and plugin. */
  predicate Targets(result: ItemResult, post: nat, plugin: Plugin) {
    result.Completed? && result.before.plugin == plugin
    && ParsePostExternalId(result.externalId).Some? && ParsePostExternalId(result.externalId).value.1 == post
  }

  /** An item that does not complete for a pair leaves its reading alone. */
  lemma UntargetedItem(site: Site, meta: Meta, item: ItemInput, post: nat, plugin: Plugin)
    requires !Targets(Applying(site, meta, item).0, post, plugin)
    ensures ReadSeoValues(site.env, Applying(site, meta, item).1, post, plugin)
         == ReadSeoValues(site.env, meta, post, plugin)
  {
    var d := Decide(site, meta, item);
    if d.Accept? {
      AcceptedNamesPost(site, meta, item);
      WriteTouchesOnePair(meta, d.post, d.plugin, d.patch);
      OtherPairsUnchanged(site.env, meta, Applying(site, meta, item).1, d.post, d.plugin, post, plugin);
    }
  }

  lemma ItemKeepsOtherTokens(site: Site, meta: Meta, item: ItemInput, post: nat)
    ensures OtherTokens(Applying(site, meta, item).1, post) == OtherTokens(meta, post)
  {
    var d := Decide(site, meta, item);
    if d.Accept? {
      OtherTokensUnchanged(meta, d.post, d.plugin, d.patch, post);
    }
  }

  /** What an item writes can be put back later when cleaning and escaping it once more changes nothing. */
  lemma ItemKeepsRestorable(site: Site, meta: Meta, item: ItemInput, post: nat, plugin: Plugin)
    requires CleanText(site.env, "") == "" && Restorable(site.env, ReadSeoValues(site.env, meta, post, plugin))
    requires !item.NotAnObject? && item.afterValue.Some? ==> SettlesAtOnce(site.env, item.afterValue.value)
    ensures Restorable(site.env, ReadSeoValues(site.env, Applying(site, meta, item).1, post, plugin))
  {
    var d := Decide(site, meta, item);
    if d.Accept? && post == d.post && plugin == d.plugin {
      AcceptedPatch(site, meta, item);
      WrittenPairIsRestorable(site.env, meta, post, plugin, item.afterValue.value);
    } else {
      NotAcceptedFor(site, meta, item, post, plugin);
      UntargetedItem(site, meta, item, post, plugin);
    }
  }

  lemma AcceptedPatch(site: Site, meta: Meta, item: ItemInput)
    requires Decide(site, meta, item).Accept?
    ensures var d := Decide(site, meta, item);
            && !item.NotAnObject? && item.afterValue.Some? && NormalizeAfterValue(site.env, item.afterValue.value).Fine?
            && d.patch == NormalizeAfterValue(site.env, item.afterValue.value).value.1
            && Applying(site, meta, item).1 == WriteSeoValues(meta, d.post, d.plugin, d.patch)
  {
  }

  lemma NotAcceptedFor(site: Site, meta: Meta, item: ItemInput, post: nat, plugin: Plugin)
    requires var d := Decide(site, meta, item); !(d.Accept? && post == d.post && plugin == d.plugin)
    ensures !Targets(Applying(site, meta, item).0, post, plugin)
  {
    if Decide(site, meta, item).Accept? {
      AcceptedNamesPost(site, meta, item);
    }
  }

  /** The rollback item of a completed result, applied to any store with the same unrelated tokens,
      completes and restores the pair exactly when what was read is restorable. */
  lemma RollbackItemRestores(site: Site, meta: Meta, item: ItemInput, now: Meta, post: nat, plugin: Plugin)
    requires OnlyDeletes(site.env)
    requires Targets(Applying(site, meta, item).0, post, plugin)
    requires OtherTokens(now, post) == OtherTokens(meta, post)
    ensures var undone := Applying(site, now, RollbackItem(Applying(site, meta, item).0));
            var before := ReadSeoValues(site.env, meta, post, plugin);
            (undone.0.Completed? && ReadSeoValues(site.env, undone.1, post, plugin) == before)
            <==> Restorable(site.env, before)
  {
    AcceptedNamesPost(site, meta, item);
    RestoresExactly(site, meta, now, Applying(site, meta, item).0, post, plugin);
  }

  lemma RestoringPatchIsFine(env: Env, earlier: Meta, post: nat, plugin: Plugin)
    requires OnlyDeletes(env)
    ensures RestoringPatch(env, ReadSeoValues(env, earlier, post, plugin)).Fine?
       <==> AcceptedCanonical(env, ReadCanonical(env, earlier, post, plugin))
  {
    ReadTextIsAccepted(env, ReadMeta(earlier, post, TitleKey(plugin)), SeoTitleField, TITLE_CAP);
    ReadTextIsAccepted(env, ReadMeta(earlier, post, DescriptionKey(plugin)), MetaDescriptionField, DESCRIPTION_CAP);
    ReadUrlIsNotEmpty(env, ReadMeta(earlier, post, CanonicalKey(plugin)));
    UrlRestores(env, ReadCanonical(env, earlier, post, plugin));
  }

  /** The rollback item of a completed result completes exactly when the captured canonical is acceptable. */
  lemma RollbackItemCompletes(site: Site, meta: Meta, item: ItemInput, now: Meta)
    requires OnlyDeletes(site.env) && Applying(site, meta, item).0.Completed?
    ensures var result := Applying(site, meta, item).0;
            Applying(site, now, RollbackItem(result)).0.Completed?
            <==> AcceptedCanonical(site.env, result.before.canonicalUrl)
  {
    var result, d := Applying(site, meta, item).0, Decide(site, meta, item);
    AcceptedNamesPost(site, meta, item);
    RollbackDecision(site, now, result, d.post, d.plugin);
    RestoringPatchIsFine(site.env, meta, d.post, d.plugin);
  }

  /** The rollback item of a completed result for another pair leaves this pair's reading alone. */
  lemma RollbackItemLeavesOthers(site: Site, meta: Meta, item: ItemInput, now: Meta, post: nat, plugin: Plugin)
    requires Applying(site, meta, item).0.Completed?
    requires !Targets(Applying(site, meta, item).0, post, plugin)
    ensures ReadSeoValues(site.env, Applying(site, now, RollbackItem(Applying(site, meta, item).0)).1, post, plugin)
         == ReadSeoValues(site.env, now, post, plugin)
  {
    var result, d := Applying(site, meta, item).0, Decide(site, meta, item);
    AcceptedNamesPost(site, meta, item);
    RollbackDecision(site, now, result, d.post, d.plugin);
    UntargetedItem(site, now, RollbackItem(result), post, plugin);
  }

  // ---------- Whole batches ----------

  lemma {:induction false} ApplyingConcat(site: Site, meta: Meta, a: seq<ItemInput>, b: seq<ItemInput>)
    ensures var first := ApplyingAll(site, meta, a);
            var second := ApplyingAll(site, first.1, b);
            ApplyingAll(site, meta, a + b) == (first.0 + second.0, second.1)
    decreases |a|
  {
    if a == [] {
      assert a + b == b && ([] + ApplyingAll(site, meta, b).0) == ApplyingAll(site, meta, b).0;
    } else {
      var first := Applying(site, meta, a[0]);
      assert (a + b)[1..] == a[1..] + b && (a + b)[0] == a[0];
      ApplyingConcat(site, first.1, a[1..], b);
      var rest := ApplyingAll(site, first.1, a[1..]);
      var second := ApplyingAll(site, rest.1, b);
      assert [first.0] + (rest.0 + second.0) == ([first.0] + rest.0) + second.0;
    }
  }

  lemma ApplyingOne(site: Site, meta: Meta, item: ItemInput)
    ensures ApplyingAll(site, meta, [item]) == ([Applying(site, meta, item).0], Applying(site, meta, item).1)
  {
    var result := Applying(site, meta, item);
    assert [item][1..] == [] && ApplyingAll(site, result.1, []) == ([], result.1);
    assert [result.0] + [] == [result.0];
  }

  /** Rolling back one result more means one item more, after all the others. */
  lemma RollbackCons(site: Site, meta: Meta, result: ItemResult, results: seq<ItemResult>)
    ensures var later := ApplyingAll(site, meta, RollbackItems(results));
            ApplyingAll(site, meta, RollbackItems([result] + results))
            == if result.Failed? then later
               else var last := Applying(site, later.1, RollbackItem(result)); (later.0 + [last.0], last.1)
  {
    assert ([result] + results)[1..] == results;
    var later := ApplyingAll(site, meta, RollbackItems(results));
    if result.Completed? {
      ApplyingConcat(site, meta, RollbackItems(results), [RollbackItem(result)]);
      ApplyingOne(site, later.1, RollbackItem(result));
    } else {
      assert RollbackItems(results) + [] == RollbackItems(results);
    }
  }

  predicate AllCompleted(results: seq<ItemResult>) {
    forall r :: r in results ==> r.Completed?
  }

  predicate Targeted(results: seq<ItemResult>, post: nat, plugin: Plugin) {
    exists r :: r in results && Targets(r, post, plugin)
  }

  /** The store after a batch and then its rollback, with the results of the rollback. */
  function RolledBack(site: Site, meta: Meta, items: seq<ItemInput>): (seq<ItemResult>, Meta) {
    var run := ApplyingAll(site, meta, items);
    ApplyingAll(site, run.1, RollbackItems(run.0))
  }

  /** Peeling the first item off a batch: its rollback item comes after those of all the others. */
  lemma RolledBackStep(site: Site, meta: Meta, items: seq<ItemInput>)
    requires items != []
    ensures var first := Applying(site, meta, items[0]);
            var later := RolledBack(site, first.1, items[1..]);
            ApplyingAll(site, meta, items).0 == [first.0] + ApplyingAll(site, first.1, items[1..]).0
            && RolledBack(site, meta, items)
            == if first.0.Failed? then later
               else var last := Applying(site, later.1, RollbackItem(first.0)); (later.0 + [last.0], last.1)
  {
    var first := Applying(site, meta, items[0]);
    var rest := ApplyingAll(site, first.1, items[1..]);
    assert ApplyingAll(site, meta, items) == ([first.0] + rest.0, rest.1);
    RollbackCons(site, rest.1, first.0, rest.0);
  }

  lemma {:induction false} BatchKeepsOtherTokens(site: Site, meta: Meta, items: seq<ItemInput>, post: nat)
    ensures OtherTokens(ApplyingAll(site, meta, items).1, post) == OtherTokens(meta, post)
    decreases |items|
  {
    if items != [] {
      ItemKeepsOtherTokens(site, meta, items[0], post);
      BatchKeepsOtherTokens(site, Applying(site, meta, items[0]).1, items[1..], post);
    }
  }

  /** No batch and no rollback ever touches a robots token other than the four directive words. */
  lemma RollbackKeepsOtherTokens(site: Site, meta: Meta, items: seq<ItemInput>, post: nat)
    ensures OtherTokens(RolledBack(site, meta, items).1, post) == OtherTokens(meta, post)
  {
    var run := ApplyingAll(site, meta, items);
    BatchKeepsOtherTokens(site, meta, items, post);
    BatchKeepsOtherTokens(site, run.1, RollbackItems(run.0), post);
  }

  /** A post and plugin that no completed result names reads as before: failed items write nothing. */
  lemma {:induction false} UntargetedUnchanged(site: Site, meta: Meta, items: seq<ItemInput>, post: nat, plugin: Plugin)
    requires !Targeted(ApplyingAll(site, meta, items).0, post, plugin)
    ensures ReadSeoValues(site.env, ApplyingAll(site, meta, items).1, post, plugin)
         == ReadSeoValues(site.env, meta, post, plugin)
    decreases |items|
  {
    if items != [] {
      var first := Applying(site, meta, items[0]);
      var rest := ApplyingAll(site, first.1, items[1..]);
      TargetedCons(first.0, rest.0, post, plugin);
      UntargetedItem(site, meta, items[0], post, plugin);
      UntargetedUnchanged(site, first.1, items[1..], post, plugin);
    }
  }

  lemma TargetedCons(result: ItemResult, results: seq<ItemResult>, post: nat, plugin: Plugin)
    ensures Targeted([result] + results, post, plugin)
            <==> Targets(result, post, plugin) || Targeted(results, post, plugin)
  {
    assert forall r :: r in [result] + results <==> r == result || r in results;
  }

  lemma AllCompletedSnoc(results: seq<ItemResult>, result: ItemResult)
    ensures AllCompleted(results + [result]) <==> AllCompleted(results) && result.Completed?
  {
    assert forall r :: r in results + [result] <==> r in results || r == result;
  }

  /** A pair reads as before the batch once the batch is rolled back, whatever happens to the others,
      provided its original values are restorable if it was written at all. */
  lemma {:induction false} PairRestored(site: Site, meta: Meta, items: seq<ItemInput>, post: nat, plugin: Plugin)
    requires OnlyDeletes(site.env)
    requires Targeted(ApplyingAll(site, meta, items).0, post, plugin)
             ==> Restorable(site.env, ReadSeoValues(site.env, meta, post, plugin))
    ensures ReadSeoValues(site.env, RolledBack(site, meta, items).1, post, plugin)
         == ReadSeoValues(site.env, meta, post, plugin)
    decreases |items|
  {
    if items != [] {
      var first := Applying(site, meta, items[0]);
      var later := RolledBack(site, first.1, items[1..]);
      RolledBackStep(site, meta, items);
      TargetedCons(first.0, ApplyingAll(site, first.1, items[1..]).0, post, plugin);
      if Targets(first.0, post, plugin) {
        ItemKeepsOtherTokens(site, meta, items[0], post);
        RollbackKeepsOtherTokens(site, first.1, items[1..], post);
        RollbackItemRestores(site, meta, items[0], later.1, post, plugin);
      } else {
        UntargetedItem(site, meta, items[0], post, plugin);
        PairRestored(site, first.1, items[1..], post, plugin);
        if first.0.Completed? {
          RollbackItemLeavesOthers(site, meta, items[0], later.1, post, plugin);
        }
      }
    }
  }

  /** A written pair whose original values are not restorable: the rollback reports a failure or the
      pair reads differently. */
  lemma {:induction false} PairLost(site: Site, meta: Meta, items: seq<ItemInput>, post: nat, plugin: Plugin)
    requires OnlyDeletes(site.env)
    requires Targeted(ApplyingAll(site, meta, items).0, post, plugin)
    requires !Restorable(site.env, ReadSeoValues(site.env, meta, post, plugin))
    ensures var undone := RolledBack(site, meta, items);
            !(AllCompleted(undone.0)
              && ReadSeoValues(site.env, undone.1, post, plugin) == ReadSeoValues(site.env, meta, post, plugin))
    decreases |items|
  {
    if items != [] {
      var first := Applying(site, meta, items[0]);
      var later := RolledBack(site, first.1, items[1..]);
      RolledBackStep(site, meta, items);
      TargetedCons(first.0, ApplyingAll(site, first.1, items[1..]).0, post, plugin);
      if first.0.Completed? {
        AllCompletedSnoc(later.0, Applying(site, later.1, RollbackItem(first.0)).0);
      }
      if Targets(first.0, post, plugin) {
        ItemKeepsOtherTokens(site, meta, items[0], post);
        RollbackKeepsOtherTokens(site, first.1, items[1..], post);
        RollbackItemRestores(site, meta, items[0], later.1, post, plugin);
      } else {
        UntargetedItem(site, meta, items[0], post, plugin);
        PairLost(site, first.1, items[1..], post, plugin);
        if first.0.Completed? {
          RollbackItemLeavesOthers(site, meta, items[0], later.1, post, plugin);
        }
      }
    }
  }

  /** Every pair the batch wrote had restorable values before the batch. */
  ghost predicate TargetsRestorable(site: Site, meta: Meta, results: seq<ItemResult>) {
    forall post: nat, plugin :: Targeted(results, post, plugin)
      ==> Restorable(site.env, ReadSeoValues(site.env, meta, post, plugin))
  }

  /** Every canonical the batch captured is none or acceptable to the endpoint. */
  predicate CapturesAccepted(env: Env, results: seq<ItemResult>) {
    forall r :: r in results && r.Completed? ==> AcceptedCanonical(env, r.before.canonicalUrl)
  }

  lemma CapturesCons(env: Env, result: ItemResult, results: seq<ItemResult>)
    ensures CapturesAccepted(env, [result] + results)
       <==> (result.Completed? ==> AcceptedCanonical(env, result.before.canonicalUrl)) && CapturesAccepted(env, results)
  {
    assert forall r :: r in [result] + results <==> r == result || r in results;
  }

  /** A rollback completes every item exactly when every captured canonical is acceptable: texts are never
      refused. */
  lemma {:induction false} RollbackCompletes(site: Site, meta: Meta, items: seq<ItemInput>)
    requires OnlyDeletes(site.env)
    ensures AllCompleted(RolledBack(site, meta, items).0)
       <==> CapturesAccepted(site.env, ApplyingAll(site, meta, items).0)
    decreases |items|
  {
    if items != [] {
      var first := Applying(site, meta, items[0]);
      var later := RolledBack(site, first.1, items[1..]);
      RolledBackStep(site, meta, items);
      RollbackCompletes(site, first.1, items[1..]);
      CapturesCons(site.env, first.0, ApplyingAll(site, first.1, items[1..]).0);
      if first.0.Completed? {
        RollbackItemCompletes(site, meta, items[0], later.1);
        AllCompletedSnoc(later.0, Applying(site, later.1, RollbackItem(first.0)).0);
      }
    }
  }

  /** Both stores read the same for every post and plugin. */
  ghost predicate SameReadings(env: Env, a: Meta, b: Meta) {
    forall post: nat, plugin :: ReadSeoValues(env, a, post, plugin) == ReadSeoValues(env, b, post, plugin)
  }

  /** The rollback theorem. After any batch, the same post any number of times, fields mixed, both
      plugins at once, sending the captured values back in reverse order completes every item and makes
      every post read as it did before the batch, exactly when every captured canonical is acceptable and
      every written pair was restorable before the batch. */
  lemma RollbackRestoresExactly(site: Site, meta: Meta, items: seq<ItemInput>)
    requires OnlyDeletes(site.env)
    ensures var undone, results := RolledBack(site, meta, items), ApplyingAll(site, meta, items).0;
            (AllCompleted(undone.0) && SameReadings(site.env, undone.1, meta))
            <==> CapturesAccepted(site.env, results) && TargetsRestorable(site, meta, results)
  {
    var undone, results := RolledBack(site, meta, items), ApplyingAll(site, meta, items).0;
    RollbackCompletes(site, meta, items);
    if TargetsRestorable(site, meta, results) {
      forall post: nat, plugin: Plugin
        ensures ReadSeoValues(site.env, undone.1, post, plugin) == ReadSeoValues(site.env, meta, post, plugin)
      {
        PairRestored(site, meta, items, post, plugin);
      }
    } else {
      var post: nat, plugin :| Targeted(results, post, plugin)
                               && !Restorable(site.env, ReadSeoValues(site.env, meta, post, plugin));
      PairLost(site, meta, items, post, plugin);
    }
  }

  // ---------- Batches whose canonicals stay acceptable ----------

  /** What esc_url_raw makes of the canonical an item sends, if it sends one, still reads back acceptable. */
  predicate SendsAccepted(env: Env, item: ItemInput) {
    !item.NotAnObject? && item.afterValue.Some? ==>
      var canonical := NormalizeUrl(env, item.afterValue.value.canonicalUrl);
      canonical.Fine? && canonical.value.Put? ==> AcceptedCanonical(env, UrlReading(env, canonical.value.value))
  }

  lemma AcceptedSends(site: Site, meta: Meta, item: ItemInput)
    requires Decide(site, meta, item).Accept? && SendsAccepted(site.env, item)
    ensures var canonical := Decide(site, meta, item).patch.canonicalUrl;
            canonical.Put? ==> AcceptedCanonical(site.env, UrlReading(site.env, canonical.value))
  {
    AcceptedPatch(site, meta, item);
    PatchCanonical(site.env, item.afterValue.value);
  }

  lemma PatchCanonical(env: Env, value: AfterValue)
    requires NormalizeAfterValue(env, value).Fine?
    ensures Fine(NormalizeAfterValue(env, value).value.1.canonicalUrl) == NormalizeUrl(env, value.canonicalUrl)
  {
  }

  lemma ItemKeepsAccepted(site: Site, meta: Meta, item: ItemInput, post: nat, plugin: Plugin)
    requires SendsAccepted(site.env, item) && AcceptedCanonical(site.env, ReadCanonical(site.env, meta, post, plugin))
    ensures AcceptedCanonical(site.env, ReadCanonical(site.env, Applying(site, meta, item).1, post, plugin))
  {
    var d := Decide(site, meta, item);
    if d.Accept? && post == d.post && plugin == d.plugin {
      AcceptedSends(site, meta, item);
      WriteWrites(meta, post, plugin, d.patch);
      CanonicalAfterWrite(site.env, meta, WriteSeoValues(meta, post, plugin, d.patch), post, plugin, d.patch);
    } else {
      NotAcceptedFor(site, meta, item, post, plugin);
      UntargetedItem(site, meta, item, post, plugin);
      assert ReadSeoValues(site.env, meta, post, plugin).canonicalUrl == ReadCanonical(site.env, meta, post, plugin);
    }
  }

  /** Every pair the batch wrote had an acceptable canonical, or none, before the batch. */
  ghost predicate TargetsAccepted(site: Site, meta: Meta, results: seq<ItemResult>) {
    forall post: nat, plugin :: Targeted(results, post, plugin)
      ==> AcceptedCanonical(site.env, ReadCanonical(site.env, meta, post, plugin))
  }

  lemma {:induction false} CapturesStayAccepted(site: Site, meta: Meta, items: seq<ItemInput>)
    requires forall item :: item in items ==> SendsAccepted(site.env, item)
    requires TargetsAccepted(site, meta, ApplyingAll(site, meta, items).0)
    ensures CapturesAccepted(site.env, ApplyingAll(site, meta, items).0)
    decreases |items|
  {
    if items != [] {
      var first := Applying(site, meta, items[0]);
      var rest := ApplyingAll(site, first.1, items[1..]).0;
      assert items[0] in items && forall item :: item in items[1..] ==> item in items;
      forall post: nat, plugin: Plugin | Targeted(rest, post, plugin)
        ensures AcceptedCanonical(site.env, ReadCanonical(site.env, first.1, post, plugin))
      {
        TargetedCons(first.0, rest, post, plugin);
        ItemKeepsAccepted(site, meta, items[0], post, plugin);
      }
      CapturesStayAccepted(site, first.1, items[1..]);
      CapturesCons(site.env, first.0, rest);
      FirstCapture(site, meta, items[0], rest);
    }
  }

  lemma FirstCapture(site: Site, meta: Meta, item: ItemInput, rest: seq<ItemResult>)
    requires TargetsAccepted(site, meta, [Applying(site, meta, item).0] + rest)
    ensures var result := Applying(site, meta, item).0;
            result.Completed? ==> AcceptedCanonical(site.env, result.before.canonicalUrl)
  {
    var result, d := Applying(site, meta, item).0, Decide(site, meta, item);
    if result.Completed? {
      AcceptedNamesPost(site, meta, item);
      TargetedCons(result, rest, d.post, d.plugin);
      assert Targeted([result] + rest, d.post, d.plugin);
    }
  }

  /** When escaping leaves every canonical the batch sends acceptable, the rollback completes and restores every
      reading exactly when every written pair was restorable before the batch. */
  lemma RollbackRestoresBatch(site: Site, meta: Meta, items: seq<ItemInput>)
    requires OnlyDeletes(site.env) && forall item :: item in items ==> SendsAccepted(site.env, item)
    ensures var undone := RolledBack(site, meta, items);
            (AllCompleted(undone.0) && SameReadings(site.env, undone.1, meta))
            <==> TargetsRestorable(site, meta, ApplyingAll(site, meta, items).0)
  {
    var results := ApplyingAll(site, meta, items).0;
    RollbackRestoresExactly(site, meta, items);
    if TargetsRestorable(site, meta, results) {
      forall post: nat, plugin: Plugin | Targeted(results, post, plugin)
        ensures AcceptedCanonical(site.env, ReadCanonical(site.env, meta, post, plugin))
      {
        assert Restorable(site.env, ReadSeoValues(site.env, meta, post, plugin));
      }
      CapturesStayAccepted(site, meta, items);
    }
  }

  // ---------- When stored values are restorable ----------

  lemma PrefixIsCollapsed(s: string, n: nat)
    requires IsCollapsed(s) && n <= |s|
    ensures IsCollapsed(s[..n])
  {
    forall i | 0 <= i < n && IsSpace(s[..n][i])
      ensures s[..n][i] == ' ' && (i + 1 < n ==> !IsSpace(s[..n][i + 1]))
    {
      assert s[..n][i] == s[i] && (i + 1 < n ==> s[..n][i + 1] == s[i + 1]);
    }
  }

  lemma CutIsClean(env: Env, stored: string, cap: nat)
    requires 0 < cap < |CleanText(env, stored)|
    requires env.strip(CleanText(env, stored)[..cap]) == CleanText(env, stored)[..cap]
    ensures var kept := CleanText(env, stored)[..cap];
            CleanText(env, kept) == kept <==> !IsTrimmed(kept[cap - 1])
  {
    var cleaned := CleanText(env, stored);
    var kept := cleaned[..cap];
    CleanIsCollapsed(env, stored);
    PrefixIsCollapsed(cleaned, cap);
    CollapsedStays(kept);
    if IsTrimmed(kept[cap - 1]) {
      TrimTrims(kept);
    } else {
      assert kept[0] == cleaned[0];
      TrimKeeps(kept);
    }
  }

  /** A stored text that one cleaning settles is restorable when its cleaned form fits the cap; a longer one, no tag
      being left in the part the cap keeps, exactly when that part does not end in a character that is trimmed. */
  lemma SettledWithinCap(env: Env, stored: string, cap: nat)
    requires cap > 0
    ensures |CleanText(env, stored)| <= cap && CleanText(env, CleanText(env, stored)) == CleanText(env, stored)
            ==> SettledText(env, SanitizeStoredText(env, Scalar(stored), cap))
    ensures |CleanText(env, stored)| > cap ==>
              var kept := CleanText(env, stored)[..cap];
              && (SettledText(env, SanitizeStoredText(env, Scalar(stored), cap)) <==> CleanText(env, kept) == kept)
              && (env.strip(kept) == kept ==> (CleanText(env, kept) == kept <==> !IsTrimmed(kept[cap - 1])))
  {
    if |CleanText(env, stored)| > cap && env.strip(CleanText(env, stored)[..cap]) == CleanText(env, stored)[..cap] {
      CutIsClean(env, stored, cap);
    }
  }

  /** A long text the cap cuts right after a space is never restored: the space is trimmed on the way back. */
  lemma CutAfterSpaceIsLost(env: Env, stored: string, cap: nat)
    requires cap > 0 && |CleanText(env, stored)| > cap && CleanText(env, stored)[cap - 1] == ' '
    ensures !SettledText(env, SanitizeStoredText(env, Scalar(stored), cap))
  {
    var kept := CleanText(env, stored)[..cap];
    TrimTrims(CollapseSpaces(env.strip(kept)));
    assert IsTrimmed(kept[cap - 1]);
  }
}
