/** A site at which a rollback cannot undo a batch: the failing side of the rollback theorem is not empty. */
module RollbackWitness {
  import opened Prelude
  import opened Text
  import opened Robots
  import opened SeoMeta
  import opened Cleaning
  import opened SafeOperations
  import opened Rollback

  // ---------- Library functions that satisfy what is asked of them ----------

  function Unchanged(s: string): string {
    s
  }

  predicate AnyUrl(s: string) {
    true
  }

  predicate IsHttp(s: string) {
    StartsWith(s, "http://") || StartsWith(s, "https://")
  }

  /** A site whose texts hold no tags and whose URLs need no escaping. */
  const PLAIN_ENV := Env(Unchanged, AnyUrl, IsHttp, Unchanged)

  /** The length of the tag a text starts with, if it is closed. */
  function TagLength(s: string): (n: nat)
    requires '>' in s
    ensures 0 < n <= |s|
  {
    if s[0] == '>' then 1 else 1 + TagLength(s[1..])
  }

  /** A stripping function: every closed tag is deleted. */
  function WithoutTags(s: string): string
    decreases |s|
  {
    if s == "" then ""
    else if s[0] == '<' && '>' in s then WithoutTags(s[TagLength(s)..])
    else [s[0]] + WithoutTags(s[1..])
  }

  lemma {:induction false} TagsAreDeleted(s: string)
    ensures |WithoutTags(s)| <= |s| && (|WithoutTags(s)| == |s| ==> WithoutTags(s) == s)
    decreases |s|
  {
    if s != "" {
      if s[0] == '<' && '>' in s {
        TagsAreDeleted(s[TagLength(s)..]);
      } else {
        TagsAreDeleted(s[1..]);
      }
    }
  }

  /** A function that deletes tags meets what the rollback theorem asks of wp_strip_all_tags. */
  lemma DeletingTagsOnlyDeletes(env: Env)
    requires env.strip == WithoutTags
    ensures OnlyDeletes(env)
  {
    forall s ensures |env.strip(s)| <= |s| && (|env.strip(s)| == |s| ==> env.strip(s) == s) {
      TagsAreDeleted(s);
    }
  }

  // ---------- A stored ftp canonical ----------

  const PLAIN_SITE := Site(PLAIN_ENV, map[7 := "p"])

  const FTP_META: Meta := map[(7, YoastCanonical) := Scalar("ftp://a")]

  /** Sets noindex on the Yoast values of post 7. */
  const NOINDEX_ITEM := Item(
    Some(Json.Text("i")),
    Some(Json.Text("p:7")),
    Some(AfterValue([], Some(Json.Text("yoast")), None, None, None, Some(Bool(true)), None)))

  lemma ExternalIdParses()
    ensures ParsePostExternalId("p:7") == Some(("p", 7))
  {
    var s := "p:7";
    assert s[1..][0] == ':' && ColonIndex(s[1..]) == 0 && ColonIndex(s) == 1;
    assert s[..1] == "p" && s[2..] == "7";
    assert DigitsValue("7"[..0]) == 0;
    assert DigitsValue("7") == 7;
  }

  lemma NoindexPatch()
    ensures NormalizeAfterValue(PLAIN_ENV, NOINDEX_ITEM.afterValue.value)
         == Fine((Some(Yoast), SeoPatch(Keep, Keep, Keep, Put(Some(true)), Keep)))
  {
  }

  lemma IdsAreRead()
    ensures ReadBoundedString(NOINDEX_ITEM.itemId, ID_CAP) == Some("i")
    ensures ReadBoundedString(NOINDEX_ITEM.externalId, ID_CAP) == Some("p:7")
  {
    TrimKeeps("i");
    TrimKeeps("p:7");
  }

  lemma ItemIsAccepted(meta: Meta)
    ensures Decide(PLAIN_SITE, meta, NOINDEX_ITEM)
         == Accept("i", "p:7", 7, Yoast, SeoPatch(Keep, Keep, Keep, Put(Some(true)), Keep))
  {
    IdsAreRead();
    ExternalIdParses();
    NoindexPatch();
  }

  lemma LostBatch(site: Site, meta: Meta, items: seq<ItemInput>, post: nat, plugin: Plugin)
    requires OnlyDeletes(site.env) && !Restorable(site.env, ReadSeoValues(site.env, meta, post, plugin))
    requires Targeted(ApplyingAll(site, meta, items).0, post, plugin)
    ensures var undone := RolledBack(site, meta, items);
            !(AllCompleted(undone.0) && SameReadings(site.env, undone.1, meta))
  {
    PairLost(site, meta, items, post, plugin);
  }

  lemma AcceptedTargets(site: Site, meta: Meta, item: ItemInput)
    requires Decide(site, meta, item).Accept?
    ensures var d := Decide(site, meta, item); Targets(Applying(site, meta, item).0, d.post, d.plugin)
  {
    AcceptedNamesPost(site, meta, item);
  }

  lemma OneTargets(results: seq<ItemResult>, result: ItemResult, post: nat, plugin: Plugin)
    requires results == [result] && Targets(result, post, plugin)
    ensures Targeted(results, post, plugin)
  {
    assert results[0] == result;
  }

  lemma LostUnlessRestorable(site: Site, meta: Meta, item: ItemInput, post: nat, plugin: Plugin)
    requires OnlyDeletes(site.env) && !Restorable(site.env, ReadSeoValues(site.env, meta, post, plugin))
    requires var d := Decide(site, meta, item); d.Accept? && d.post == post && d.plugin == plugin
    ensures var undone := RolledBack(site, meta, [item]);
            !(AllCompleted(undone.0) && SameReadings(site.env, undone.1, meta))
  {
    AcceptedTargets(site, meta, item);
    ApplyingOne(site, meta, item);
    OneTargets(ApplyingAll(site, meta, [item]).0, Applying(site, meta, item).0, post, plugin);
    LostBatch(site, meta, [item], post, plugin);
  }

  lemma CompletesIfAccepted(site: Site, meta: Meta, item: ItemInput, post: nat, plugin: Plugin)
    requires OnlyDeletes(site.env)
    requires var d := Decide(site, meta, item); d.Accept? && d.post == post && d.plugin == plugin
    ensures var results := ApplyingAll(site, meta, [item]).0;
            |results| == 1 && Targets(results[0], post, plugin)
    ensures AllCompleted(RolledBack(site, meta, [item]).0)
       <==> AcceptedCanonical(site.env, ReadCanonical(site.env, meta, post, plugin))
  {
    AcceptedTargets(site, meta, item);
    ApplyingOne(site, meta, item);
    RollbackCompletes(site, meta, [item]);
    assert ApplyingAll(site, meta, [item]).0[0] == Applying(site, meta, item).0;
  }

  /** The named input: one item that only sets a flag completes, but its rollback is refused: the endpoint does
      not accept the ftp canonical that it captured. */
  lemma FtpCanonicalIsLost(site: Site, meta: Meta, item: ItemInput)
    requires site == PLAIN_SITE && meta == FTP_META && item == NOINDEX_ITEM
    ensures OnlyDeletes(site.env) && ReadCanonical(site.env, meta, 7, Yoast) == Some("ftp://a")
    ensures var results := ApplyingAll(site, meta, [item]).0;
            |results| == 1 && Targets(results[0], 7, Yoast)
    ensures !AllCompleted(RolledBack(site, meta, [item]).0)
  {
    ItemIsAccepted(meta);
    FtpIsRead(meta);
    FtpIsNotAccepted("ftp://a");
    CompletesIfAccepted(site, meta, item, 7, Yoast);
  }

  lemma FtpIsNotAccepted(url: string)
    requires url == "ftp://a"
    ensures !AcceptedCanonical(PLAIN_ENV, Some(url))
  {
    TrimKeeps(url);
  }

  lemma FtpIsRead(meta: Meta)
    requires meta == FTP_META
    ensures ReadCanonical(PLAIN_ENV, meta, 7, Yoast) == Some("ftp://a")
  {
    TrimKeeps("ftp://a");
    assert ReadMeta(meta, 7, YoastCanonical) == Scalar("ftp://a");
  }

  // ---------- A title cut after a space ----------

  function Repeated(c: char, n: nat): string {
    seq(n, _ => c)
  }

  /** One character more than a title may have before a space, and a word behind it. */
  const CUT_TITLE := Repeated('a', TITLE_CAP - 1) + " b"

  const CUT_META: Meta := map[(7, YoastTitle) := Scalar(CUT_TITLE)]

  lemma CutTitleIsClean(title: string)
    requires title == CUT_TITLE
    ensures CleanText(PLAIN_ENV, title) == title
  {
    assert IsCollapsed(title);
    CollapsedStays(title);
    TrimKeeps(title);
  }

  lemma CutTitleIsNotRestorable(title: string)
    requires title == CUT_TITLE
    ensures !SettledText(PLAIN_ENV, SanitizeStoredText(PLAIN_ENV, Scalar(title), TITLE_CAP))
  {
    CutTitleIsClean(title);
    assert title[TITLE_CAP - 1] == ' ';
    CutAfterSpaceIsLost(PLAIN_ENV, title, TITLE_CAP);
  }

  /** A stored title whose cap falls right behind a space: an item that only sets a flag and its rollback both
      complete, but the title is not brought back. */
  lemma CutTitleIsLost(site: Site, meta: Meta, item: ItemInput)
    requires site == PLAIN_SITE && meta == CUT_META && item == NOINDEX_ITEM
    ensures var results := ApplyingAll(site, meta, [item]).0;
            |results| == 1 && Targets(results[0], 7, Yoast)
    ensures var undone := RolledBack(site, meta, [item]);
            AllCompleted(undone.0) && !SameReadings(site.env, undone.1, meta)
  {
    ItemIsAccepted(meta);
    assert ReadMeta(meta, 7, YoastTitle) == Scalar(CUT_TITLE);
    CutTitleIsNotRestorable(CUT_TITLE);
    LostUnlessRestorable(site, meta, item, 7, Yoast);
    NoCanonicalIsRead(meta);
    CompletesIfAccepted(site, meta, item, 7, Yoast);
  }

  lemma NoCanonicalIsRead(meta: Meta)
    requires meta == CUT_META
    ensures ReadCanonical(PLAIN_ENV, meta, 7, Yoast) == None
  {
    assert ReadMeta(meta, 7, YoastCanonical) == Scalar("");
  }
}
