/**
 * External ids between the two sides (ContentCollector.php writes them, SafeOperationEndpoint.php reads them): an id
 * is read as the post it was written for, and an item changes the meta of no other post.
 */
module ExternalIds {
  import opened Prelude
  import opened Text
  import Collector
  import opened Robots
  import opened SeoMeta
  import opened SafeOperations

  /** Letters, digits, underscores and hyphens, at least one. */
  predicate IsTypeName(s: string) {
    s != "" && forall c :: c in s ==> 'a' <= c <= 'z' || 'A' <= c <= 'Z' || '0' <= c <= '9' || c == '_' || c == '-'
  }

  // ---------- Decimal digits ----------

  lemma {:induction false} DecimalReadsBack(n: nat)
    ensures Collector.Decimal(n) != ""
    ensures forall i :: 0 <= i < |Collector.Decimal(n)| ==> IsDigit(Collector.Decimal(n)[i])
    ensures DigitsValue(Collector.Decimal(n)) == n
    ensures n > 0 ==> Collector.Decimal(n)[0] != '0'
  {
    if n >= 10 {
      DecimalReadsBack(n / 10);
      var s := Collector.Decimal(n);
      assert s[..|s| - 1] == Collector.Decimal(n / 10);
    } else {
      assert [Collector.Digit(n)][..0] == "";
    }
  }

  lemma {:induction false} DigitsAreDecimal(s: string)
    requires s != "" && s[0] != '0' && forall i :: 0 <= i < |s| ==> IsDigit(s[i])
    ensures DigitsValue(s) > 0 && Collector.Decimal(DigitsValue(s)) == s
  {
    var last := |s| - 1;
    assert IsDigit(s[0]) && IsDigit(s[last]);
    if last > 0 {
      DigitsAreDecimal(s[..last]);
      assert DigitsValue(s) % 10 == s[last] as int - '0' as int;
      assert s == s[..last] + [s[last]];
    } else {
      assert s[..0] == "" && s == [s[0]];
    }
  }

  // ---------- What is read as an external id ----------

  lemma {:induction false} ColonFound(name: string, rest: string)
    requires ':' !in name
    ensures ColonIndex(name + ":" + rest) == |name|
  {
    if name == "" {
      assert (name + ":" + rest)[0] == ':';
    } else {
      assert (name + ":" + rest)[1..] == name[1..] + ":" + rest;
      ColonFound(name[1..], rest);
    }
  }

  lemma {:induction false} ColonSplits(s: string)
    requires ColonIndex(s) < |s|
    ensures s[ColonIndex(s)] == ':' && s == s[..ColonIndex(s)] + ":" + s[ColonIndex(s) + 1..]
  {
    if s != "" && s[0] != ':' {
      ColonSplits(s[1..]);
    }
  }

  /** Numbers are cut off at the largest 64-bit integer. */
  function CutOff(n: nat): nat {
    if n <= 0x7fff_ffff_ffff_ffff then n else 0x7fff_ffff_ffff_ffff
  }

  /** A type name, a colon and a positive number without leading zeros. */
  ghost predicate IsExternalId(s: string, name: string, id: nat) {
    IsTypeName(name) && exists n: nat :: n > 0 && s == name + ":" + Collector.Decimal(n) && id == CutOff(n)
  }

  lemma WrittenIdParses(name: string, id: nat)
    requires IsTypeName(name) && id > 0
    ensures ParsePostExternalId(name + ":" + Collector.Decimal(id)) == Some((name, CutOff(id)))
  {
    var s, digits := name + ":" + Collector.Decimal(id), Collector.Decimal(id);
    ColonFound(name, digits);
    DecimalReadsBack(id);
    assert s[..|name|] == name && s[|name| + 1..] == digits;
    assert forall i :: 0 <= i < |name| ==> name[i] in name;
  }

  lemma ParsedIsWritten(s: string, name: string, id: nat)
    requires ParsePostExternalId(s) == Some((name, id))
    ensures IsExternalId(s, name, id)
  {
    ColonSplits(s);
    var digits := s[ColonIndex(s) + 1..];
    DigitsAreDecimal(digits);
    var n := DigitsValue(digits);
    assert s == name + ":" + Collector.Decimal(n) && id == CutOff(n);
  }

  /** A text is read as an external id exactly when it is one. */
  lemma ParsesExactly(s: string, name: string, id: nat)
    ensures ParsePostExternalId(s) == Some((name, id)) <==> IsExternalId(s, name, id)
  {
    if ParsePostExternalId(s) == Some((name, id)) {
      ParsedIsWritten(s, name, id);
    }
    if IsExternalId(s, name, id) {
      var n: nat :| n > 0 && s == name + ":" + Collector.Decimal(n) && id == CutOff(n);
      WrittenIdParses(name, n);
    }
  }

  // ---------- The post an item is about ----------

  lemma ExternalIdIsTrimmed(post: Collector.Post)
    requires IsTypeName(post.postType)
    ensures Trim(Collector.ExternalId(post)) == Collector.ExternalId(post) && Collector.ExternalId(post) != ""
  {
    var s := Collector.ExternalId(post);
    Collector.DecimalIsDigits(post.id);
    assert post.postType[0] in post.postType && s[0] == post.postType[0];
    assert s[|s| - 1] == Collector.Decimal(post.id)[|Collector.Decimal(post.id)| - 1];
    TrimKeeps(s);
  }

  /** The meta of all other posts is as it was. */
  ghost predicate OthersKept(meta: Meta, after: Meta, post: nat) {
    forall other: nat, key :: other != post ==>
      ((other, key) in after <==> (other, key) in meta)
      && ((other, key) in meta ==> after[(other, key)] == meta[(other, key)])
  }

  lemma FieldKeepsOthers(meta: Meta, post: nat, key: MetaKey, value: Option<MetaValue>)
    ensures OthersKept(meta, WritePostMeta(meta, post, key, value), post)
  {
  }

  lemma KeptThrough(a: Meta, b: Meta, c: Meta, post: nat)
    requires OthersKept(a, b, post) && OthersKept(b, c, post)
    ensures OthersKept(a, c, post)
  {
  }

  lemma TextKeepsOthers(meta: Meta, start: Meta, post: nat, key: MetaKey, field: Field<string>)
    requires OthersKept(meta, start, post)
    ensures OthersKept(meta, WriteField(start, post, key, field), post)
  {
    if field.Put? {
      FieldKeepsOthers(start, post, key, TextMeta(field.value));
      KeptThrough(meta, start, WriteField(start, post, key, field), post);
    }
  }

  lemma FlagKeepsOthers(meta: Meta, start: Meta, post: nat, key: MetaKey, field: Field<bool>)
    requires OthersKept(meta, start, post)
    ensures OthersKept(meta, WriteYoastFlag(start, post, key, field), post)
  {
    if field.Put? {
      FieldKeepsOthers(start, post, key, YoastFlagMeta(field.value));
      KeptThrough(meta, start, WriteYoastFlag(start, post, key, field), post);
    }
  }

  lemma TextsKeepOthers(meta: Meta, post: nat, title: MetaKey, description: MetaKey, canonical: MetaKey,
                        patch: SeoPatch)
    ensures var titled := WriteField(meta, post, title, patch.seoTitle);
            var described := WriteField(titled, post, description, patch.metaDescription);
            OthersKept(meta, WriteField(described, post, canonical, patch.canonicalUrl), post)
  {
    var titled := WriteField(meta, post, title, patch.seoTitle);
    var described := WriteField(titled, post, description, patch.metaDescription);
    TextKeepsOthers(meta, meta, post, title, patch.seoTitle);
    TextKeepsOthers(meta, titled, post, description, patch.metaDescription);
    TextKeepsOthers(meta, described, post, canonical, patch.canonicalUrl);
  }

  lemma RobotsKeepOthers(meta: Meta, start: Meta, post: nat, patch: SeoPatch)
    requires OthersKept(meta, start, post)
    ensures OthersKept(meta, WriteRankMathRobots(start, post, patch), post)
  {
    if !(patch.noindex.Keep? && patch.nofollow.Keep?) {
      var tokens := NormalizeRobotTokens(ReadMeta(start, post, RankMathRobots));
      var value := RobotsMeta(SetDirectives(tokens, patch.noindex, patch.nofollow));
      FieldKeepsOthers(start, post, RankMathRobots, value);
      KeptThrough(meta, start, WritePostMeta(start, post, RankMathRobots, value), post);
    }
  }

  lemma WriteKeepsOthers(meta: Meta, post: nat, plugin: Plugin, patch: SeoPatch)
    ensures OthersKept(meta, WriteSeoValues(meta, post, plugin, patch), post)
  {
    match plugin
    case RankMath =>
      TextsKeepOthers(meta, post, RankMathTitle, RankMathDescription, RankMathCanonical, patch);
      var titled := WriteField(meta, post, RankMathTitle, patch.seoTitle);
      var described := WriteField(titled, post, RankMathDescription, patch.metaDescription);
      RobotsKeepOthers(meta, WriteField(described, post, RankMathCanonical, patch.canonicalUrl), post, patch);
    case Yoast =>
      TextsKeepOthers(meta, post, YoastTitle, YoastDescription, YoastCanonical, patch);
      var titled := WriteField(meta, post, YoastTitle, patch.seoTitle);
      var described := WriteField(titled, post, YoastDescription, patch.metaDescription);
      var linked := WriteField(described, post, YoastCanonical, patch.canonicalUrl);
      FlagKeepsOthers(meta, linked, post, YoastNoindex, patch.noindex);
      FlagKeepsOthers(meta, WriteYoastFlag(linked, post, YoastNoindex, patch.noindex), post, YoastNofollow,
                      patch.nofollow);
  }

  /** An item that names the external id of a post changes the meta of that post only; when it completes, the post
      has the type it names, and the result is about the id it was sent. */
  lemma ItemStaysWithItsPost(site: Site, meta: Meta, item: ItemInput, post: Collector.Post)
    requires IsTypeName(post.postType) && 0 < post.id <= 0x7fff_ffff_ffff_ffff
    requires item.Item? && item.externalId == Some(Text(Collector.ExternalId(post)))
    ensures var (result, after) := Applying(site, meta, item);
            && OthersKept(meta, after, post.id) && (result.Failed? ==> after == meta)
            && (result.Completed? ==>
                  && result.externalId == Collector.ExternalId(post)
                  && post.id in site.postTypes && site.postTypes[post.id] == post.postType)
  {
    ExternalIdIsTrimmed(post);
    WrittenIdParses(post.postType, post.id);
    var decision := Decide(site, meta, item);
    if decision.Accept? {
      assert decision.post == post.id;
      WriteKeepsOthers(meta, decision.post, decision.plugin, decision.patch);
    }
  }
}
