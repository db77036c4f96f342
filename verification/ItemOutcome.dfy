/**
 * What becomes of one operation item (SafeOperationEndpoint.php, applyItem), told by the item itself: which items
 * complete, for which plugin, and what their texts read as afterwards.
 */
module ItemOutcome {
  import opened Prelude
  import opened Text
  import opened Robots
  import opened SeoMeta
  import opened SafeOperations
  import opened ExternalIds

  // ---------- What an item says ----------

  /** The value is this text, a number written so, true as "1", or false as the empty text. */
  predicate IsText(value: Json, text: string) {
    || value == Json.Text(text) || value == Number(text) || (value == Bool(true) && text == "1")
    || (value == Bool(false) && text == "")
  }

  ghost predicate SaysText(value: Option<Json>, text: string) {
    value.Some? && IsText(value.value, text)
  }

  lemma ScalarTextIs(value: Json, text: string)
    ensures ScalarText(value) == Some(text) <==> IsText(value, text)
  {
  }

  /** A text of 1 to 128 characters behind blanks. */
  ghost predicate SaysId(value: Option<Json>, id: string) {
    0 < |id| <= 128 && exists text :: SaysText(value, text) && Trim(text) == id
  }

  lemma IdRead(value: Option<Json>, id: string)
    ensures ReadBoundedString(value, ID_CAP) == Some(id) <==> SaysId(value, id)
  {
    if value.Some? && ScalarText(value.value).Some? {
      ScalarTextIs(value.value, ScalarText(value.value).value);
    }
    if SaysId(value, id) {
      var text :| SaysText(value, text) && Trim(text) == id;
      ScalarTextIs(value.value, text);
    }
  }

  /** The item names this post by the external id of its type and number. */
  ghost predicate NamesPost(site: Site, item: ItemInput, post: nat) {
    && item.Item? && post in site.postTypes
    && exists id :: SaysId(item.externalId, id) && IsExternalId(id, site.postTypes[post], post)
  }

  // ---------- What an item may hold ----------

  /** A text field: not named, null, or a scalar whose cleaned form fits the cap. */
  ghost predicate TextFits(env: Env, value: Option<Json>, cap: nat) {
    value.None? || value == Some(Null) || exists text :: SaysText(value, text) && |CleanText(env, text)| <= cap
  }

  /** A URL field: not named, null, blank, or a valid http(s) URL of at most 2048 characters. */
  ghost predicate UrlFits(env: Env, value: Option<Json>) {
    || value.None? || value == Some(Null)
    || exists text :: SaysText(value, text)
         && (Trim(text) == "" || (|Trim(text)| <= 2048 && env.validUrl(Trim(text)) && env.httpScheme(Trim(text))))
  }

  predicate FlagFits(value: Option<Json>) {
    value.None? || value == Some(Null) || value.value.Bool?
  }

  predicate PluginFits(value: Option<Json>) {
    value.None? || value == Some(Json.Text("yoast")) || value == Some(Json.Text("rank_math"))
  }

  predicate NamesAField(value: AfterValue) {
    value.seoTitle.Some? || value.metaDescription.Some? || value.canonicalUrl.Some? || value.noindex.Some?
    || value.nofollow.Some?
  }

  ghost predicate ValueFits(env: Env, value: AfterValue) {
    && value.unknown == [] && PluginFits(value.seoPlugin) && TextFits(env, value.seoTitle, 512)
    && TextFits(env, value.metaDescription, 1024) && UrlFits(env, value.canonicalUrl) && FlagFits(value.noindex)
    && FlagFits(value.nofollow) && NamesAField(value)
  }

  lemma TextAccepted(env: Env, value: Option<Json>, field: FieldName, cap: nat)
    ensures NormalizeText(env, value, field, cap).Fine? <==> TextFits(env, value, cap)
    ensures NormalizeText(env, value, field, cap) == Fine(Keep) <==> value.None?
  {
    if value.Some? && ScalarText(value.value).Some? {
      ScalarTextIs(value.value, ScalarText(value.value).value);
    }
    if text :| SaysText(value, text) {
      ScalarTextIs(value.value, text);
    }
  }

  lemma UrlAccepted(env: Env, value: Option<Json>)
    ensures NormalizeUrl(env, value).Fine? <==> UrlFits(env, value)
    ensures NormalizeUrl(env, value) == Fine(Keep) <==> value.None?
  {
    if value.Some? && ScalarText(value.value).Some? {
      ScalarTextIs(value.value, ScalarText(value.value).value);
    }
    forall text | SaysText(value, text) ensures ScalarText(value.value) == Some(text) {
      ScalarTextIs(value.value, text);
    }
  }

  lemma FlagAccepted(value: Option<Json>, field: FieldName)
    ensures NormalizeFlag(value, field).Fine? <==> FlagFits(value)
    ensures NormalizeFlag(value, field)
         == if value.None? then Fine(Keep)
            else if value == Some(Null) then Fine(Put(None))
            else if value.value.Bool? then Fine(Put(Some(value.value.b)))
            else Bad(InvalidField(field))
  {
  }

  lemma PluginAccepted(value: Option<Json>)
    ensures NormalizePlugin(value).Fine? <==> PluginFits(value)
    ensures NormalizePlugin(value).Fine? ==>
              NormalizePlugin(value).value == if value.None? then None
                                              else if value == Some(Json.Text("yoast")) then Some(Yoast)
                                              else Some(RankMath)
  {
  }

  lemma ValueAccepted(env: Env, value: AfterValue)
    ensures NormalizeAfterValue(env, value).Fine? <==> ValueFits(env, value)
  {
    PluginAccepted(value.seoPlugin);
    TextAccepted(env, value.seoTitle, SeoTitleField, TITLE_CAP);
    TextAccepted(env, value.metaDescription, MetaDescriptionField, DESCRIPTION_CAP);
    UrlAccepted(env, value.canonicalUrl);
    FlagAccepted(value.noindex, NoindexField);
    FlagAccepted(value.nofollow, NofollowField);
  }

  // ---------- The plugin an item is for ----------

  /** Something other than blanks is stored under the key. */
  predicate IsStored(meta: Meta, post: nat, key: MetaKey) {
    (post, key) in meta &&
    match meta[(post, key)]
    case Scalar(text) => !IsBlank(text)
    case List(entries) => exists i :: 0 <= i < |entries| && entries[i].Some? && !IsBlank(entries[i].value)
    case Opaque => false
  }

  lemma StoredExactly(meta: Meta, post: nat, key: MetaKey)
    ensures HasStoredValue(meta, post, key) <==> IsStored(meta, post, key)
  {
    match ReadMeta(meta, post, key)
    case Scalar(text) => TrimOfBlank(text);
    case List(entries) =>
      forall i | 0 <= i < |entries| && entries[i].Some?
        ensures Trim(entries[i].value) == "" <==> IsBlank(entries[i].value)
      {
        TrimOfBlank(entries[i].value);
      }
    case Opaque =>
  }

  predicate HasYoast(meta: Meta, post: nat) {
    IsStored(meta, post, YoastTitle) || IsStored(meta, post, YoastDescription) || IsStored(meta, post, YoastCanonical)
    || IsStored(meta, post, YoastNoindex) || IsStored(meta, post, YoastNofollow)
  }

  predicate HasRankMath(meta: Meta, post: nat) {
    IsStored(meta, post, RankMathTitle) || IsStored(meta, post, RankMathDescription)
    || IsStored(meta, post, RankMathCanonical) || IsStored(meta, post, RankMathRobots)
  }

  /** The plugin the item names, else the one with values on the post, Yoast before Rank Math. */
  predicate IsFor(meta: Meta, post: nat, value: AfterValue, plugin: Plugin) {
    if value.seoPlugin.Some? then value.seoPlugin.value == Json.Text(if plugin.Yoast? then "yoast" else "rank_math")
    else if HasYoast(meta, post) then plugin.Yoast?
    else HasRankMath(meta, post) && plugin.RankMath?
  }

  lemma StoredKeys(meta: Meta, post: nat)
    ensures HasYoast(meta, post)
       <==> HasStoredValue(meta, post, YoastTitle) || HasStoredValue(meta, post, YoastDescription)
            || HasStoredValue(meta, post, YoastCanonical) || HasStoredValue(meta, post, YoastNoindex)
            || HasStoredValue(meta, post, YoastNofollow)
    ensures HasRankMath(meta, post)
       <==> HasStoredValue(meta, post, RankMathTitle) || HasStoredValue(meta, post, RankMathDescription)
            || HasStoredValue(meta, post, RankMathCanonical) || HasStoredValue(meta, post, RankMathRobots)
  {
    forall key ensures HasStoredValue(meta, post, key) <==> IsStored(meta, post, key) {
      StoredExactly(meta, post, key);
    }
  }

  lemma ChosenPlugin(meta: Meta, post: nat, value: AfterValue, plugin: Plugin)
    requires PluginFits(value.seoPlugin)
    ensures ResolveSeoPlugin(meta, post, NormalizePlugin(value.seoPlugin).value) == Some(plugin)
       <==> IsFor(meta, post, value, plugin)
  {
    StoredKeys(meta, post);
    PluginNames(plugin);
    PluginAccepted(value.seoPlugin);
  }

  lemma PluginNames(plugin: Plugin)
    ensures "yoast" != "rank_math"
  {
    assert |"yoast"| != |"rank_math"|;
  }

  // ---------- Which items complete ----------

  lemma ReferenceNames(site: Site, item: ItemInput, post: nat)
    requires item.Item?
    ensures NamesPost(site, item, post)
       <==> var id := ReadBoundedString(item.externalId, ID_CAP);
            && id.Some? && post in site.postTypes
            && ParsePostExternalId(id.value) == Some((site.postTypes[post], post))
  {
    var read := ReadBoundedString(item.externalId, ID_CAP);
    if read.Some? {
      IdRead(item.externalId, read.value);
    }
    if post in site.postTypes {
      forall id | SaysId(item.externalId, id)
        ensures read == Some(id)
        ensures ParsePostExternalId(id) == Some((site.postTypes[post], post))
           <==> IsExternalId(id, site.postTypes[post], post)
      {
        IdRead(item.externalId, id);
        ParsesExactly(id, site.postTypes[post], post);
      }
    }
  }

  lemma HasItemId(item: ItemInput)
    requires item.Item?
    ensures ReadBoundedString(item.itemId, ID_CAP).Some? <==> exists id :: SaysId(item.itemId, id)
  {
    if ReadBoundedString(item.itemId, ID_CAP).Some? {
      IdRead(item.itemId, ReadBoundedString(item.itemId, ID_CAP).value);
    }
    if id :| SaysId(item.itemId, id) {
      IdRead(item.itemId, id);
    }
  }

  /** The item is about this post and plugin, and everything it holds can be applied. */
  ghost predicate CanApply(site: Site, meta: Meta, item: ItemInput, post: nat, plugin: Plugin) {
    && item.Item? && (exists id :: SaysId(item.itemId, id)) && NamesPost(site, item, post)
    && item.afterValue.Some? && ValueFits(site.env, item.afterValue.value)
    && IsFor(meta, post, item.afterValue.value, plugin)
  }

  lemma AcceptedPlugin(env: Env, value: AfterValue)
    requires NormalizeAfterValue(env, value).Fine?
    ensures PluginFits(value.seoPlugin)
    ensures NormalizeAfterValue(env, value).value.0 == NormalizePlugin(value.seoPlugin).value
  {
    PluginAccepted(value.seoPlugin);
  }

  /** What the checks find out one after the other. */
  predicate Passes(site: Site, meta: Meta, item: ItemInput, post: nat, plugin: Plugin) {
    && item.Item? && ReadBoundedString(item.itemId, ID_CAP).Some?
    && ReadBoundedString(item.externalId, ID_CAP).Some? && post in site.postTypes
    && ParsePostExternalId(ReadBoundedString(item.externalId, ID_CAP).value) == Some((site.postTypes[post], post))
    && item.afterValue.Some? && NormalizeAfterValue(site.env, item.afterValue.value).Fine?
    && ResolveSeoPlugin(meta, post, NormalizeAfterValue(site.env, item.afterValue.value).value.0) == Some(plugin)
  }

  lemma DecidedByChecks(site: Site, meta: Meta, item: ItemInput, post: nat, plugin: Plugin)
    ensures var d := Decide(site, meta, item);
            d.Accept? && d.post == post && d.plugin == plugin <==> Passes(site, meta, item, post, plugin)
  {
  }

  lemma AcceptsExactly(site: Site, meta: Meta, item: ItemInput, post: nat, plugin: Plugin)
    ensures var d := Decide(site, meta, item);
            d.Accept? && d.post == post && d.plugin == plugin <==> CanApply(site, meta, item, post, plugin)
  {
    DecidedByChecks(site, meta, item, post, plugin);
    PassesExactly(site, meta, item, post, plugin);
  }

  lemma PassesExactly(site: Site, meta: Meta, item: ItemInput, post: nat, plugin: Plugin)
    ensures Passes(site, meta, item, post, plugin) <==> CanApply(site, meta, item, post, plugin)
  {
    if item.Item? {
      HasItemId(item);
      ReferenceNames(site, item, post);
      if item.afterValue.Some? {
        ValueAccepted(site.env, item.afterValue.value);
        if NormalizeAfterValue(site.env, item.afterValue.value).Fine? {
          AcceptedPlugin(site.env, item.afterValue.value);
          ChosenPlugin(meta, post, item.afterValue.value, plugin);
        }
      }
    }
  }

  /** An item completes exactly when it says an item id, names a post, holds only fields that fit and at least one of
      them, and is for a plugin. */
  lemma CompletesExactly(site: Site, meta: Meta, item: ItemInput)
    ensures Applying(site, meta, item).0.Completed? <==> exists post, plugin :: CanApply(site, meta, item, post, plugin)
  {
    var d := Decide(site, meta, item);
    if d.Accept? {
      AcceptsExactly(site, meta, item, d.post, d.plugin);
    }
    if post, plugin :| CanApply(site, meta, item, post, plugin) {
      AcceptsExactly(site, meta, item, post, plugin);
    }
  }

  // ---------- What its fields read as afterwards ----------

  /** How a stored text is read: cleaned, at most so long, nothing when that leaves nothing. */
  function Reading(env: Env, stored: string, cap: nat): Option<string> {
    var clean := CleanText(env, stored);
    if clean == "" then None else Some(if |clean| <= cap then clean else clean[..cap])
  }

  function ReadingUrl(env: Env, stored: string): Option<string> {
    var url := Trim(stored);
    if url == "" || !env.validUrl(url) then None else Some(if |url| <= 2048 then url else url[..2048])
  }

  /** A text not named reads as before and a null one as nothing; any other was stored cleaned. */
  ghost predicate TextChanged(env: Env, value: Option<Json>, before: Option<string>, after: Option<string>, cap: nat) {
    if value.None? then after == before
    else if value == Some(Null) then after == None
    else exists text :: SaysText(value, text) && after == Reading(env, CleanText(env, text), cap)
  }

  /** The same for the canonical, which was stored escaped. */
  ghost predicate UrlChanged(env: Env, value: Option<Json>, before: Option<string>, after: Option<string>) {
    if value.None? then after == before
    else if value == Some(Null) then after == None
    else exists text :: SaysText(value, text)
           && after == if Trim(text) == "" then None else ReadingUrl(env, env.escapeUrl(Trim(text)))
  }

  predicate FlagChanged(value: Option<Json>, before: Option<bool>, after: Option<bool>) {
    if value.None? then after == before
    else after == if value.value.Bool? then Some(value.value.b) else None
  }

  lemma TextRead(env: Env, value: Option<Json>, field: FieldName, cap: nat, before: Option<string>)
    requires CleanText(env, "") == "" && cap > 0 && TextFits(env, value, cap)
    ensures var patch := NormalizeText(env, value, field, cap);
            && patch.Fine?
            && TextChanged(env, value, before,
                           if patch.value.Put? then TextReading(env, patch.value.value, cap) else before, cap)
  {
    TextAccepted(env, value, field, cap);
    if value.Some? && value != Some(Null) {
      var text :| SaysText(value, text) && |CleanText(env, text)| <= cap;
      NamedTextRead(env, value.value, text, field, cap);
    }
  }

  lemma NamedTextRead(env: Env, value: Json, text: string, field: FieldName, cap: nat)
    requires CleanText(env, "") == "" && IsText(value, text) && |CleanText(env, text)| <= cap
    ensures var patch := NormalizeText(env, Some(value), field, cap);
            && patch.Fine? && patch.value.Put?
            && TextReading(env, patch.value.value, cap) == Reading(env, CleanText(env, text), cap)
  {
    ScalarTextIs(value, text);
  }

  lemma UrlRead(env: Env, value: Option<Json>, before: Option<string>)
    requires UrlFits(env, value)
    ensures var patch := NormalizeUrl(env, value);
            patch.Fine? && UrlChanged(env, value, before,
                                      if patch.value.Put? then UrlReading(env, patch.value.value) else before)
  {
    UrlAccepted(env, value);
    if value.Some? && value != Some(Null) {
      var text :| SaysText(value, text);
      ScalarTextIs(value.value, text);
    }
  }

  lemma ValuePatch(env: Env, value: AfterValue)
    requires NormalizeAfterValue(env, value).Fine?
    ensures var patch := NormalizeAfterValue(env, value).value.1;
            && NormalizeText(env, value.seoTitle, SeoTitleField, TITLE_CAP) == Fine(patch.seoTitle)
            && NormalizeText(env, value.metaDescription, MetaDescriptionField, DESCRIPTION_CAP)
               == Fine(patch.metaDescription)
            && NormalizeUrl(env, value.canonicalUrl) == Fine(patch.canonicalUrl)
            && NormalizeFlag(value.noindex, NoindexField) == Fine(patch.noindex)
            && NormalizeFlag(value.nofollow, NofollowField) == Fine(patch.nofollow)
  {
  }

  /** The texts the value names read as it says, the others as before. */
  ghost predicate TextsChanged(env: Env, value: AfterValue, before: SeoValues, after: SeoValues) {
    && TextChanged(env, value.seoTitle, before.seoTitle, after.seoTitle, 512)
    && TextChanged(env, value.metaDescription, before.metaDescription, after.metaDescription, 1024)
    && UrlChanged(env, value.canonicalUrl, before.canonicalUrl, after.canonicalUrl)
  }

  predicate FlagsChanged(value: AfterValue, before: SeoValues, after: SeoValues) {
    FlagChanged(value.noindex, before.noindex, after.noindex)
    && FlagChanged(value.nofollow, before.nofollow, after.nofollow)
  }

  lemma WrittenTexts(env: Env, meta: Meta, post: nat, plugin: Plugin, value: AfterValue)
    requires CleanText(env, "") == "" && ValueFits(env, value) && NormalizeAfterValue(env, value).Fine?
    ensures var after := WriteSeoValues(meta, post, plugin, NormalizeAfterValue(env, value).value.1);
            TextsChanged(env, value, ReadSeoValues(env, meta, post, plugin), ReadSeoValues(env, after, post, plugin))
  {
    var patch := NormalizeAfterValue(env, value).value.1;
    var after := WriteSeoValues(meta, post, plugin, patch);
    ValuePatch(env, value);
    WriteWrites(meta, post, plugin, patch);
    TitleAfterWrite(env, meta, after, post, plugin, patch);
    DescriptionAfterWrite(env, meta, after, post, plugin, patch);
    CanonicalAfterWrite(env, meta, after, post, plugin, patch);
    TextRead(env, value.seoTitle, SeoTitleField, TITLE_CAP, ReadTitle(env, meta, post, plugin));
    TextRead(env, value.metaDescription, MetaDescriptionField, DESCRIPTION_CAP,
             ReadDescription(env, meta, post, plugin));
    UrlRead(env, value.canonicalUrl, ReadCanonical(env, meta, post, plugin));
  }

  lemma WrittenFlags(env: Env, meta: Meta, post: nat, value: AfterValue)
    requires NormalizeAfterValue(env, value).Fine?
    ensures var after := WriteSeoValues(meta, post, Yoast, NormalizeAfterValue(env, value).value.1);
            FlagsChanged(value, ReadSeoValues(env, meta, post, Yoast), ReadSeoValues(env, after, post, Yoast))
  {
    var patch := NormalizeAfterValue(env, value).value.1;
    var after := WriteSeoValues(meta, post, Yoast, patch);
    ValuePatch(env, value);
    FlagAccepted(value.noindex, NoindexField);
    FlagAccepted(value.nofollow, NofollowField);
    WriteWrites(meta, post, Yoast, patch);
    YoastNoindexAfterWrite(meta, after, post, patch);
    YoastNofollowAfterWrite(meta, after, post, patch);
  }

  lemma AppliedFor(site: Site, meta: Meta, item: ItemInput, post: nat, plugin: Plugin)
    requires CanApply(site, meta, item, post, plugin)
    ensures ValueFits(site.env, item.afterValue.value) && NormalizeAfterValue(site.env, item.afterValue.value).Fine?
    ensures var patch := NormalizeAfterValue(site.env, item.afterValue.value).value.1;
            var after := WriteSeoValues(meta, post, plugin, patch);
            && Applying(site, meta, item).0.Completed?
            && Applying(site, meta, item).0.before == ReadSeoValues(site.env, meta, post, plugin)
            && Applying(site, meta, item).0.after == ReadSeoValues(site.env, after, post, plugin)
  {
    AcceptsExactly(site, meta, item, post, plugin);
    ValueAccepted(site.env, item.afterValue.value);
    PatchDecided(site, meta, item);
  }

  lemma PatchDecided(site: Site, meta: Meta, item: ItemInput)
    requires Decide(site, meta, item).Accept?
    ensures item.Item? && item.afterValue.Some? && NormalizeAfterValue(site.env, item.afterValue.value).Fine?
    ensures Decide(site, meta, item).patch == NormalizeAfterValue(site.env, item.afterValue.value).value.1
  {
  }

  /** After an item the texts of its post read as it says, and those it does not name as before. */
  lemma TextsAsSent(site: Site, meta: Meta, item: ItemInput, post: nat, plugin: Plugin)
    requires CleanText(site.env, "") == "" && CanApply(site, meta, item, post, plugin)
    ensures var result := Applying(site, meta, item).0;
            result.Completed? && TextsChanged(site.env, item.afterValue.value, result.before, result.after)
  {
    AppliedFor(site, meta, item, post, plugin);
    WrittenTexts(site.env, meta, post, plugin, item.afterValue.value);
  }

  /** With Yoast so do the robots flags. */
  lemma YoastFlagsAsSent(site: Site, meta: Meta, item: ItemInput, post: nat)
    requires CanApply(site, meta, item, post, Yoast)
    ensures var result := Applying(site, meta, item).0;
            result.Completed? && FlagsChanged(item.afterValue.value, result.before, result.after)
  {
    AppliedFor(site, meta, item, post, Yoast);
    WrittenFlags(site.env, meta, post, item.afterValue.value);
  }
}
