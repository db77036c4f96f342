/**
 * The apply endpoint (SafeOperationEndpoint.php): validation of one operation item, the batch loop, and
 * the rollback that sends the captured previous values back through the same endpoint.
 */
module SafeOperations {
  import opened Prelude
  import opened Text
  import opened Robots
  import opened SeoMeta

  // ---------- Requests and results ----------

  /** A decoded JSON value; numbers are kept in their string form. */
  datatype Json = Null | Bool(b: bool) | Number(digits: string) | Text(text: string) | Compound

  /** The object under afterValue: its supported members, and the names of all others. */
  datatype AfterValue = AfterValue(
    unknown: seq<string>,
    seoPlugin: Option<Json>,
    seoTitle: Option<Json>,
    metaDescription: Option<Json>,
    canonicalUrl: Option<Json>,
    noindex: Option<Json>,
    nofollow: Option<Json>)

  datatype ItemInput =
    | NotAnObject
    | Item(itemId: Option<Json>, externalId: Option<Json>, afterValue: Option<AfterValue>)

  datatype FieldName = SeoTitleField | MetaDescriptionField | CanonicalUrlField | NoindexField | NofollowField

  datatype ItemError =
    | InvalidItem | ItemIdRequired | ExternalIdRequired | InvalidExternalId | PostNotFound | PostTypeMismatch
    | AfterValueRequired | UnsupportedField(names: seq<string>) | UnsupportedSeoPlugin
    | InvalidField(field: FieldName) | TooLong(field: FieldName) | NoSupportedFields | SeoPluginNotSelected

  datatype ItemResult =
    | Completed(itemId: string, externalId: string, before: SeoValues, after: SeoValues)
    | Failed(failedItemId: Option<string>, failedExternalId: Option<string>, error: ItemError)

  datatype Response = Rejected | Applied(results: seq<ItemResult>, appliedCount: nat, failedCount: nat)

  /** What stays fixed while a batch runs: the library functions and the type of every post. */
  datatype Site = Site(env: Env, postTypes: map<nat, string>)

  const ID_CAP := 128
  const MAX_ITEMS := 100
  const MAX_INT := 0x7fff_ffff_ffff_ffff

  // ---------- Validation ----------

  datatype Checked<+T> = Fine(value: T) | Bad(error: ItemError)

  function ScalarText(json: Json): Option<string> {
    match json
    case Bool(b) => Some(if b then "1" else "")
    case Number(digits) => Some(digits)
    case Text(text) => Some(text)
    case _ => None
  }

  function ReadBoundedString(json: Option<Json>, cap: nat): Option<string> {
    if json.None? || ScalarText(json.value).None? then None
    else
      var text := Trim(ScalarText(json.value).value);
      if text == "" || |text| > cap then None else Some(text)
  }

  predicate IsTypeChar(c: char) {
    'A' <= c <= 'Z' || 'a' <= c <= 'z' || '0' <= c <= '9' || c == '_' || c == '-'
  }

  predicate IsDigit(c: char) {
    '0' <= c <= '9'
  }

  function ColonIndex(s: string): nat {
    if s == "" || s[0] == ':' then 0 else 1 + ColonIndex(s[1..])
  }

  function DigitsValue(s: string): nat
    requires forall i :: 0 <= i < |s| ==> IsDigit(s[i])
  {
    if s == "" then 0
    else
      assert IsDigit(s[|s| - 1]);
      10 * DigitsValue(s[..|s| - 1]) + (s[|s| - 1] as int - '0' as int)
  }

  /** `post_type:id`, the id without leading zeros and cut off at the largest integer. */
  function ParsePostExternalId(s: string): Option<(string, nat)> {
    var colon := ColonIndex(s);
    if colon == 0 || colon + 1 >= |s| then None
    else
      var postType, digits := s[..colon], s[colon + 1..];
      if (forall i :: 0 <= i < |postType| ==> IsTypeChar(postType[i])) && digits[0] != '0'
         && (forall i :: 0 <= i < |digits| ==> IsDigit(digits[i]))
      then Some((postType, Min(DigitsValue(digits), MAX_INT)))
      else None
  }

  function NormalizeText(env: Env, json: Option<Json>, field: FieldName, cap: nat): Checked<Field<string>> {
    if json.None? then Fine(Keep)
    else if json.value.Null? then Fine(Put(None))
    else if json.value.Compound? then Bad(InvalidField(field))
    else
      var text := SanitizeStoredText(env, Scalar(ScalarText(json.value).value), cap + 1);
      if text.Some? && |text.value| > cap then Bad(TooLong(field)) else Fine(Put(text))
  }

  function NormalizeUrl(env: Env, json: Option<Json>): Checked<Field<string>> {
    if json.None? then Fine(Keep)
    else if json.value.Null? then Fine(Put(None))
    else if json.value.Compound? then Bad(InvalidField(CanonicalUrlField))
    else
      var url := Trim(ScalarText(json.value).value);
      if url == "" then Fine(Put(None))
      else if |url| > URL_CAP || !env.validUrl(url) || !env.httpScheme(url) then Bad(InvalidField(CanonicalUrlField))
      else Fine(Put(Some(env.escapeUrl(url))))
  }

  function NormalizeFlag(json: Option<Json>, field: FieldName): Checked<Field<bool>> {
    if json.None? then Fine(Keep)
    else if json.value.Null? then Fine(Put(None))
    else if json.value.Bool? then Fine(Put(Some(json.value.b)))
    else Bad(InvalidField(field))
  }

  function NormalizePlugin(json: Option<Json>): Checked<Option<Plugin>> {
    if json.None? then Fine(None)
    else if json.value == Text("yoast") then Fine(Some(Yoast))
    else if json.value == Text("rank_math") then Fine(Some(RankMath))
    else Bad(UnsupportedSeoPlugin)
  }

  function NormalizeAfterValue(env: Env, value: AfterValue): Checked<(Option<Plugin>, SeoPatch)> {
    if value.unknown != [] then Bad(UnsupportedField(value.unknown))
    else
      var plugin := NormalizePlugin(value.seoPlugin);
      if plugin.Bad? then Bad(plugin.error)
      else
        var title := NormalizeText(env, value.seoTitle, SeoTitleField, TITLE_CAP);
        if title.Bad? then Bad(title.error)
        else
          var description := NormalizeText(env, value.metaDescription, MetaDescriptionField, DESCRIPTION_CAP);
          if description.Bad? then Bad(description.error)
          else
            var canonical := NormalizeUrl(env, value.canonicalUrl);
            if canonical.Bad? then Bad(canonical.error)
            else
              var noindex := NormalizeFlag(value.noindex, NoindexField);
              if noindex.Bad? then Bad(noindex.error)
              else
                var nofollow := NormalizeFlag(value.nofollow, NofollowField);
                if nofollow.Bad? then Bad(nofollow.error)
                else
                  var patch := SeoPatch(title.value, description.value, canonical.value, noindex.value, nofollow.value);
                  if patch == SeoPatch(Keep, Keep, Keep, Keep, Keep) then Bad(NoSupportedFields)
                  else Fine((plugin.value, patch))
  }

  /** What the checks of applyItem decide before anything is written. */
  datatype Decision =
    | Refuse(result: ItemResult)
    | Accept(itemId: string, externalId: string, post: nat, plugin: Plugin, patch: SeoPatch)

  function Decide(site: Site, meta: Meta, item: ItemInput): (d: Decision)
    ensures d.Refuse? ==> d.result.Failed?
  {
    if item.NotAnObject? then Refuse(Failed(None, None, InvalidItem))
    else
      var itemId, externalId := ReadBoundedString(item.itemId, ID_CAP), ReadBoundedString(item.externalId, ID_CAP);
      if itemId.None? then Refuse(Failed(None, externalId, ItemIdRequired))
      else if externalId.None? then Refuse(Failed(itemId, None, ExternalIdRequired))
      else
        var reference := ParsePostExternalId(externalId.value);
        if reference.None? then Refuse(Failed(itemId, externalId, InvalidExternalId))
        else if reference.value.1 !in site.postTypes then Refuse(Failed(itemId, externalId, PostNotFound))
        else if site.postTypes[reference.value.1] != reference.value.0 then
          Refuse(Failed(itemId, externalId, PostTypeMismatch))
        else if item.afterValue.None? then Refuse(Failed(itemId, externalId, AfterValueRequired))
        else
          var normalized := NormalizeAfterValue(site.env, item.afterValue.value);
          if normalized.Bad? then Refuse(Failed(itemId, externalId, normalized.error))
          else
            var plugin := ResolveSeoPlugin(meta, reference.value.1, normalized.value.0);
            if plugin.None? then Refuse(Failed(itemId, externalId, SeoPluginNotSelected))
            else Accept(itemId.value, externalId.value, reference.value.1, plugin.value, normalized.value.1)
  }

  // ---------- Applying ----------

  function Applying(site: Site, meta: Meta, item: ItemInput): (ItemResult, Meta) {
    match Decide(site, meta, item)
    case Refuse(result) => (result, meta)
    case Accept(itemId, externalId, post, plugin, patch) =>
      var after := WriteSeoValues(meta, post, plugin, patch);
      (Completed(itemId, externalId, ReadSeoValues(site.env, meta, post, plugin),
                 ReadSeoValues(site.env, after, post, plugin)),
       after)
  }

  function ApplyingAll(site: Site, meta: Meta, items: seq<ItemInput>): (seq<ItemResult>, Meta)
    decreases |items|
  {
    if items == [] then ([], meta)
    else
      var first := Applying(site, meta, items[0]);
      var rest := ApplyingAll(site, first.1, items[1..]);
      ([first.0] + rest.0, rest.1)
  }

  function FailedCount(results: seq<ItemResult>): (n: nat)
    ensures n <= |results|
  {
    if results == [] then 0
    else (if results[0].Failed? then 1 else 0) + FailedCount(results[1..])
  }

  predicate IsFailed(result: ItemResult) {
    result.Failed?
  }

  /** It counts the results that failed. */
  lemma {:induction false} FailedAreCounted(results: seq<ItemResult>)
    ensures FailedCount(results) == Count(results, IsFailed)
  {
    if results != [] {
      FailedAreCounted(results[1..]);
      CountConcat([results[0]], results[1..], IsFailed);
      CountAppend([], results[0], IsFailed);
      assert [results[0]] + results[1..] == results && [] + [results[0]] == [results[0]];
    }
  }

  lemma NextItem(site: Site, meta: Meta, items: seq<ItemInput>, n: nat, first: (ItemResult, Meta))
    requires n < |items| && first == Applying(site, meta, items[n])
    ensures ApplyingAll(site, meta, items[n..]).0 == [first.0] + ApplyingAll(site, first.1, items[n + 1..]).0
    ensures ApplyingAll(site, meta, items[n..]).1 == ApplyingAll(site, first.1, items[n + 1..]).1
  {
    assert items[n..][0] == items[n] && items[n..][1..] == items[n + 1..];
  }

  class SafeOperationEndpoint {
    const site: Site
    var meta: Meta

    constructor (site: Site, meta: Meta)
      ensures this.site == site && this.meta == meta
    {
      this.site, this.meta := site, meta;
    }

    // ---------- Checking an item ----------

    method NormalizeNullableText(value: Json, field: FieldName, cap: nat) returns (checked: Checked<Field<string>>)
      ensures checked == NormalizeText(site.env, Some(value), field, cap)
    {
      if value.Null? {
        return Fine(Put(None));
      }
      if value.Compound? {
        return Bad(InvalidField(field));
      }
      var text := SanitizeStoredText(site.env, Scalar(ScalarText(value).value), cap + 1);
      if text == None {
        return Fine(Put(None));
      }
      if |text.value| > cap {
        return Bad(TooLong(field));
      }
      return Fine(Put(text));
    }

    method NormalizeNullableUrl(value: Json) returns (checked: Checked<Field<string>>)
      ensures checked == NormalizeUrl(site.env, Some(value))
    {
      if value.Null? {
        return Fine(Put(None));
      }
      if value.Compound? {
        return Bad(InvalidField(CanonicalUrlField));
      }
      var url := Trim(ScalarText(value).value);
      if url == "" {
        return Fine(Put(None));
      }
      if |url| > URL_CAP || !site.env.validUrl(url) {
        return Bad(InvalidField(CanonicalUrlField));
      }
      if !site.env.httpScheme(url) {
        return Bad(InvalidField(CanonicalUrlField));
      }
      return Fine(Put(Some(site.env.escapeUrl(url))));
    }

    method NormalizeNullableFlag(value: Json, field: FieldName) returns (checked: Checked<Field<bool>>)
      ensures checked == NormalizeFlag(Some(value), field)
    {
      if !value.Null? && !value.Bool? {
        return Bad(InvalidField(field));
      }
      return Fine(Put(if value.Null? then None else Some(value.b)));
    }

    /** The texts of an item, title first. */
    method CheckTexts(value: AfterValue) returns (title: Checked<Field<string>>, description: Checked<Field<string>>)
      ensures title == NormalizeText(site.env, value.seoTitle, SeoTitleField, TITLE_CAP)
      ensures title.Fine?
              ==> description == NormalizeText(site.env, value.metaDescription, MetaDescriptionField, DESCRIPTION_CAP)
    {
      title, description := Fine(Keep), Fine(Keep);
      if value.seoTitle.Some? {
        title := NormalizeNullableText(value.seoTitle.value, SeoTitleField, TITLE_CAP);
        if title.Bad? {
          return;
        }
      }
      if value.metaDescription.Some? {
        description := NormalizeNullableText(value.metaDescription.value, MetaDescriptionField, DESCRIPTION_CAP);
      }
    }

    /** The robots flags of an item, noindex first. */
    method CheckFlags(value: AfterValue) returns (noindex: Checked<Field<bool>>, nofollow: Checked<Field<bool>>)
      ensures noindex == NormalizeFlag(value.noindex, NoindexField)
      ensures noindex.Fine? ==> nofollow == NormalizeFlag(value.nofollow, NofollowField)
    {
      noindex, nofollow := Fine(Keep), Fine(Keep);
      if value.noindex.Some? {
        noindex := NormalizeNullableFlag(value.noindex.value, NoindexField);
        if noindex.Bad? {
          return;
        }
      }
      if value.nofollow.Some? {
        nofollow := NormalizeNullableFlag(value.nofollow.value, NofollowField);
      }
    }

    method CheckAfterValue(value: AfterValue) returns (checked: Checked<(Option<Plugin>, SeoPatch)>)
      ensures checked == NormalizeAfterValue(site.env, value)
    {
      if value.unknown != [] {
        return Bad(UnsupportedField(value.unknown));
      }
      var plugin: Option<Plugin> := None;
      if value.seoPlugin.Some? {
        if value.seoPlugin.value != Text("yoast") && value.seoPlugin.value != Text("rank_math") {
          return Bad(UnsupportedSeoPlugin);
        }
        plugin := Some(if value.seoPlugin.value == Text("yoast") then Yoast else RankMath);
      }
      var title, description := CheckTexts(value);
      if title.Bad? {
        return Bad(title.error);
      }
      if description.Bad? {
        return Bad(description.error);
      }
      var canonical: Checked<Field<string>> := Fine(Keep);
      if value.canonicalUrl.Some? {
        canonical := NormalizeNullableUrl(value.canonicalUrl.value);
        if canonical.Bad? {
          return Bad(canonical.error);
        }
      }
      var noindex, nofollow := CheckFlags(value);
      if noindex.Bad? {
        return Bad(noindex.error);
      }
      if nofollow.Bad? {
        return Bad(nofollow.error);
      }
      var patch := SeoPatch(title.value, description.value, canonical.value, noindex.value, nofollow.value);
      if patch.seoTitle.Keep? && patch.metaDescription.Keep? && patch.canonicalUrl.Keep? && patch.noindex.Keep?
         && patch.nofollow.Keep? {
        return Bad(NoSupportedFields);
      }
      return Fine((plugin, patch));
    }

    method HasStoredMetaValue(post: nat, key: MetaKey) returns (stored: bool)
      ensures stored == HasStoredValue(meta, post, key)
    {
      var value := ReadMeta(meta, post, key);
      match value {
        case List(entries) =>
          stored := false;
          for n := 0 to |entries|
            invariant stored <==> exists i :: 0 <= i < n && entries[i].Some? && Trim(entries[i].value) != ""
          {
            if entries[n].Some? && Trim(entries[n].value) != "" {
              stored := true;
            }
          }
        case Scalar(text) => stored := Trim(text) != "";
        case Opaque => stored := false;
      }
    }

    /** Some of these keys holds something. */
    method HasAny(post: nat, keys: seq<MetaKey>) returns (any: bool)
      ensures any <==> exists key :: key in keys && HasStoredValue(meta, post, key)
    {
      for n := 0 to |keys|
        invariant forall i :: 0 <= i < n ==> !HasStoredValue(meta, post, keys[i])
      {
        var stored := HasStoredMetaValue(post, keys[n]);
        if stored {
          return true;
        }
      }
      return false;
    }

    method ResolvePlugin(post: nat, requested: Option<Plugin>) returns (plugin: Option<Plugin>)
      ensures plugin == ResolveSeoPlugin(meta, post, requested)
    {
      if requested.Some? {
        return requested;
      }
      var yoast := HasAny(post, [YoastTitle, YoastDescription, YoastCanonical, YoastNoindex, YoastNofollow]);
      if yoast {
        return Some(Yoast);
      }
      var rankMath := HasAny(post, [RankMathTitle, RankMathDescription, RankMathCanonical]);
      if rankMath {
        return Some(RankMath);
      }
      var robots := HasStoredMetaValue(post, RankMathRobots);
      return if robots then Some(RankMath) else None;
    }

    method ReadValues(post: nat, plugin: Plugin) returns (values: SeoValues)
      ensures values == ReadSeoValues(site.env, meta, post, plugin)
    {
      if plugin.RankMath? {
        var robots := ReadMeta(meta, post, RankMathRobots);
        return SeoValues(
            RankMath,
            SanitizeStoredText(site.env, ReadMeta(meta, post, RankMathTitle), TITLE_CAP),
            SanitizeStoredText(site.env, ReadMeta(meta, post, RankMathDescription), DESCRIPTION_CAP),
            SanitizeStoredUrl(site.env, ReadMeta(meta, post, RankMathCanonical)),
            ParseRobotFlag(robots, NOINDEX),
            ParseRobotFlag(robots, NOFOLLOW));
      }
      return SeoValues(
          Yoast,
          SanitizeStoredText(site.env, ReadMeta(meta, post, YoastTitle), TITLE_CAP),
          SanitizeStoredText(site.env, ReadMeta(meta, post, YoastDescription), DESCRIPTION_CAP),
          SanitizeStoredUrl(site.env, ReadMeta(meta, post, YoastCanonical)),
          ParseRobotFlag(ReadMeta(meta, post, YoastNoindex), NOINDEX),
          ParseRobotFlag(ReadMeta(meta, post, YoastNofollow), NOFOLLOW));
    }

    // ---------- Writing ----------

    method WritePostMeta(post: nat, key: MetaKey, value: Option<MetaValue>)
      modifies this
      ensures meta == SeoMeta.WritePostMeta(old(meta), post, key, value)
    {
      if value.None? {
        meta := meta - {(post, key)};
      } else {
        meta := meta[(post, key) := value.value];
      }
    }

    method WriteField(post: nat, key: MetaKey, field: Field<string>)
      modifies this
      ensures meta == SeoMeta.WriteField(old(meta), post, key, field)
    {
      if field.Put? {
        WritePostMeta(post, key, TextMeta(field.value));
      }
    }

    method WriteYoastFlag(post: nat, key: MetaKey, field: Field<bool>)
      modifies this
      ensures meta == SeoMeta.WriteYoastFlag(old(meta), post, key, field)
    {
      if field.Put? {
        WritePostMeta(post, key, YoastFlagMeta(field.value));
      }
    }

    method WriteRankMathRobots(post: nat, patch: SeoPatch)
      requires patch.noindex.Put? || patch.nofollow.Put?
      modifies this
      ensures meta == SeoMeta.WriteRankMathRobots(old(meta), post, patch)
    {
      var tokens := CollectRobotTokens(ReadMeta(meta, post, RankMathRobots));
      if patch.noindex.Put? {
        tokens := SetRobotDirective(tokens, NOINDEX, patch.noindex.value);
      }
      if patch.nofollow.Put? {
        tokens := SetRobotDirective(tokens, NOFOLLOW, patch.nofollow.value);
      }
      WritePostMeta(post, RankMathRobots, RobotsMeta(tokens));
    }

    method WriteSeoValues(post: nat, plugin: Plugin, patch: SeoPatch)
      modifies this
      ensures meta == SeoMeta.WriteSeoValues(old(meta), post, plugin, patch)
    {
      WriteField(post, TitleKey(plugin), patch.seoTitle);
      WriteField(post, DescriptionKey(plugin), patch.metaDescription);
      WriteField(post, CanonicalKey(plugin), patch.canonicalUrl);
      if plugin.RankMath? {
        if patch.noindex.Put? || patch.nofollow.Put? {
          WriteRankMathRobots(post, patch);
        }
        return;
      }
      WriteYoastFlag(post, YoastNoindex, patch.noindex);
      WriteYoastFlag(post, YoastNofollow, patch.nofollow);
    }

    method ApplyItem(item: ItemInput) returns (result: ItemResult)
      modifies this
      ensures (result, meta) == Applying(site, old(meta), item)
    {
      if item.NotAnObject? {
        return Failed(None, None, InvalidItem);
      }
      var itemId := ReadBoundedString(item.itemId, ID_CAP);
      var externalId := ReadBoundedString(item.externalId, ID_CAP);
      if itemId == None {
        return Failed(None, externalId, ItemIdRequired);
      }
      if externalId == None {
        return Failed(itemId, None, ExternalIdRequired);
      }
      var reference := ParsePostExternalId(externalId.value);
      if reference == None {
        return Failed(itemId, externalId, InvalidExternalId);
      }
      var (postType, post) := reference.value;
      if post !in site.postTypes {
        return Failed(itemId, externalId, PostNotFound);
      }
      if site.postTypes[post] != postType {
        return Failed(itemId, externalId, PostTypeMismatch);
      }
      if item.afterValue == None {
        return Failed(itemId, externalId, AfterValueRequired);
      }
      var normalized := CheckAfterValue(item.afterValue.value);
      if normalized.Bad? {
        return Failed(itemId, externalId, normalized.error);
      }
      var (requested, patch) := normalized.value;
      var plugin := ResolvePlugin(post, requested);
      if plugin == None {
        return Failed(itemId, externalId, SeoPluginNotSelected);
      }
      var before := ReadValues(post, plugin.value);
      WriteSeoValues(post, plugin.value, patch);
      var after := ReadValues(post, plugin.value);
      result := Completed(itemId.value, externalId.value, before, after);
    }

    /** The authenticated part of the request: 1 to 100 items, applied in order. */
    method HandleApply(items: seq<ItemInput>) returns (response: Response)
      modifies this
      ensures |items| == 0 || |items| > 100 ==> response == Rejected && meta == old(meta)
      ensures 0 < |items| <= 100 ==>
                var run := ApplyingAll(site, old(meta), items);
                meta == run.1 && response == Applied(run.0, |run.0| - FailedCount(run.0), FailedCount(run.0))
    {
      if |items| == 0 || |items| > MAX_ITEMS {
        return Rejected;
      }
      ghost var run := ApplyingAll(site, meta, items);
      var results, n := [], 0;
      while n < |items|
        invariant 0 <= n <= |items|
        invariant run.0 == results + ApplyingAll(site, meta, items[n..]).0
        invariant run.1 == ApplyingAll(site, meta, items[n..]).1
      {
        ghost var found := meta;
        var result := ApplyItem(items[n]);
        NextItem(site, found, items, n, (result, meta));
        results := results + [result];
        n := n + 1;
      }
      assert items[n..] == [];
      assert results == run.0;
      var failed := FailedCount(results);
      response := Applied(results, |results| - failed, failed);
    }
  }
}
