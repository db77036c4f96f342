/**
 * The link graph with the URL normalisation of the plugin (LocalLinkGraph.php): what makes two posts share a key and
 * one link to another, told by hosts, ports and paths.
 */
module PluginGraph {
  import opened Prelude
  import opened Text
  import Collector
  import opened AuditModel
  import opened UrlPath
  import opened LinkGraph
  import opened LinkResolution
  import opened InDegree

  /** The same host in any case, with or without www, the same port and the same normalised path. */
  predicate SameAddress(a: UrlParts, b: UrlParts) {
    && a.host.Some? && b.host.Some? && HostKey(a) == HostKey(b)
    && a.port == b.port && NormalizedPath(PathOf(a)) == NormalizedPath(PathOf(b))
  }

  /** What a link target may be: a URL of its own, one that takes its scheme from the post, or a path with a query
      or fragment behind it. */
  datatype Denoted =
    | Absolute(parts: UrlParts)
    | SchemeRelative(parts: UrlParts)
    | Reference(path: string, suffix: string)

  predicate Denotes(target: string, denoted: Denoted, source: UrlParts, parse: Parser)
    requires source.host.Some? && SourcePath(source) != ""
  {
    match denoted
    case Absolute(parts) =>
      var link := Trim(target);
      && link != "" && !StartsWith(link, "#") && !StartsWith(link, "//") && parse(link) == Some(parts)
      && parts.scheme.Some? && parts.scheme.value != "" && PlainHost(parts)
    case SchemeRelative(parts) =>
      var link := Trim(target);
      && StartsWith(link, "//") && parse(SchemeOf(source) + ":" + link) == Some(parts)
      && PlainHost(parts)
    case Reference(path, suffix) => IsReference(target, path, suffix, source, parse)
  }

  /** Where a target leads from a post. */
  function AddressOf(denoted: Denoted, source: UrlParts): UrlParts
    requires SourcePath(source) != ""
  {
    match denoted
    case Absolute(parts) => parts
    case SchemeRelative(parts) => parts
    case Reference(path, _) => source.(path := Some(CodePath(path, source)))
  }

  /** The URL made of the scheme of the post and the target is parsed as it stands. */
  lemma SchemeRelativeKey(target: string, parts: UrlParts, sourceUrl: string, source: UrlParts, parse: Parser)
    requires IsSource(sourceUrl, source, parse) && StartsWith(Trim(target), "//")
    requires parse(SchemeOf(source) + ":" + Trim(target)) == Some(parts)
    ensures NormalizeTarget(target, sourceUrl, parse) == PartsKey(parts)
  {
    var link, scheme := Trim(target), SchemeOf(source);
    SourceTexts(source);
    var whole := scheme + ":" + link;
    assert link[0] == '/';
    assert whole[0] == scheme[0] && whole[|whole| - 1] == link[|link| - 1];
    TrimTrims(target);
    TrimKeeps(whole);
  }

  lemma TargetAddress(target: string, denoted: Denoted, sourceUrl: string, source: UrlParts, parse: Parser)
    requires IsSource(sourceUrl, source, parse) && Denotes(target, denoted, source, parse)
    ensures NormalizeTarget(target, sourceUrl, parse) == PartsKey(AddressOf(denoted, source))
  {
    match denoted
    case Absolute(_) => TrimTrims(target);
    case SchemeRelative(parts) => SchemeRelativeKey(target, parts, sourceUrl, source, parse);
    case Reference(path, suffix) => TargetKey(target, path, suffix, sourceUrl, source, parse);
  }

  lemma TargetMeets(target: string, denoted: Denoted, sourceUrl: string, source: UrlParts, parts: UrlParts,
                    parse: Parser)
    requires IsSource(sourceUrl, source, parse) && PlainHost(source) && PlainHost(parts)
    requires Denotes(target, denoted, source, parse)
    ensures NormalizeTarget(target, sourceUrl, parse) == PartsKey(parts)
       <==> SameAddress(AddressOf(denoted, source), parts)
  {
    TargetAddress(target, denoted, sourceUrl, source, parse);
    SameKey(AddressOf(denoted, source), parts);
  }

  lemma KeyIsNotEmpty(parts: UrlParts)
    requires HasHost(parts)
    ensures PartsKey(parts) != ""
  {
    NormalizedStartsWithSlash(PathOf(parts));
  }

  lemma LinksByKey(parse: Parser, from: AuditItem, to: AuditItem, key: string)
    requires key != "" && NormalizeUrl(to.url, parse) == key
    ensures LinksToPost(UrlResolver(parse), from, to)
       <==> from.externalId != to.externalId
            && exists n :: 0 <= n < |from.outboundUrls|
                           && NormalizeTarget(from.outboundUrls[n], from.url, parse) == key
  {
    if n :| 0 <= n < |from.outboundUrls| && NormalizeTarget(from.outboundUrls[n], from.url, parse) == key {
      assert from.outboundUrls[n] in from.outboundUrls;
    }
  }

  /** One post links to another exactly when one of its targets leads to the address of the other, whatever scheme,
      query and fragment it has. */
  lemma PluginLink(parse: Parser, from: AuditItem, to: AuditItem, source: UrlParts, parts: UrlParts,
                   denoted: seq<Denoted>)
    requires IsSource(from.url, source, parse) && PlainHost(source)
    requires parse(Trim(to.url)) == Some(parts) && PlainHost(parts)
    requires |denoted| == |from.outboundUrls|
    requires forall n :: 0 <= n < |denoted| ==> Denotes(from.outboundUrls[n], denoted[n], source, parse)
    ensures LinksToPost(UrlResolver(parse), from, to)
       <==> from.externalId != to.externalId
            && exists n :: 0 <= n < |denoted| && SameAddress(AddressOf(denoted[n], source), parts)
  {
    KeyIsNotEmpty(parts);
    forall n | 0 <= n < |denoted|
      ensures NormalizeTarget(from.outboundUrls[n], from.url, parse) == PartsKey(parts)
         <==> SameAddress(AddressOf(denoted[n], source), parts)
    {
      TargetMeets(from.outboundUrls[n], denoted[n], from.url, source, parts, parse);
    }
    LinksByKey(parse, from, to, PartsKey(parts));
  }

  /** A post owns its key exactly when no later post has its address. */
  lemma PluginOwner(parse: Parser, items: seq<AuditItem>, parts: seq<UrlParts>, i: nat)
    requires |parts| == |items| && i < |items|
    requires forall n :: 0 <= n < |items| ==> parse(Trim(items[n].url)) == Some(parts[n]) && PlainHost(parts[n])
    ensures IsOwner(UrlResolver(parse), items, i) <==> forall j :: i < j < |items| ==> !SameAddress(parts[j], parts[i])
  {
    forall j | i < j < |items|
      ensures NormalizeUrl(items[j].url, parse) == NormalizeUrl(items[i].url, parse)
         <==> SameAddress(parts[j], parts[i])
    {
      SameKey(parts[j], parts[i]);
    }
  }

  /** With the URL normalisation of the plugin the count of a post is the number of posts that link to it when it owns
      its key, and 0 otherwise. */
  lemma PluginCounts(parse: Parser, items: seq<AuditItem>, i: nat)
    requires Distinct(Ids(items)) && i < |items|
    ensures Analyzed(UrlResolver(parse), items)[i].inboundLinkCount
         == if IsOwner(UrlResolver(parse), items, i) then InDegreeOf(UrlResolver(parse), items, items[i]) else 0
  {
    CountsAreInDegrees(UrlResolver(parse), items, i);
  }

  // ---------- Keys and targets that are none ----------

  lemma EmptyPath()
    ensures NormalizedPath("") == "/"
  {
    var s := "/" + DropLeadingSlashes("");
    assert s[1..] == "" && SplitFrom("", "") == [""];
    var pieces := Split(s);
    assert pieces == ["", ""] && pieces[1..] == [""] && [""][1..] == [];
    assert Resolve([], [""]) == [];
  }

  /** There is no key without a host, or with the host "0"; without a path the key is that of the root. */
  lemma KeyOfParts(parts: UrlParts)
    ensures PartsKey(parts) == "" <==> parts.host == None || parts.host == Some("") || parts.host == Some("0")
    ensures PartsKey(parts) != "" && parts.path == None
            ==> PartsKey(parts) == WithoutWww(Lower(parts.host.value))
                                   + (if parts.port.Some? then ":" + Collector.Decimal(parts.port.value) else "") + "/"
  {
    EmptyPath();
    if HasHost(parts) {
      KeyIsNotEmpty(parts);
    }
  }

  /** A blank target and one that is only a fragment lead nowhere. */
  lemma TargetsToNowhere(target: string, sourceUrl: string, parse: Parser)
    requires IsBlank(target) || (Trim(target) != "" && Trim(target)[0] == '#')
    ensures NormalizeTarget(target, sourceUrl, parse) == ""
  {
    TrimOfBlank(target);
    assert Trim(target) != "" ==> Trim(target)[..1] == [Trim(target)[0]];
  }

  /** Nor does a URL that cannot be parsed have a key, or a target without scheme in a post whose URL has no host. */
  lemma UnparsedHasNoKey(url: string, target: string, sourceUrl: string, parse: Parser)
    requires parse(Trim(url)) == None
    requires !StartsWith(Trim(target), "//") && parse(Trim(target)) == None
    requires parse(sourceUrl) == None || parse(sourceUrl).value.host in [None, Some("")]
    ensures NormalizeUrl(url, parse) == "" && NormalizeTarget(target, sourceUrl, parse) == ""
  {
  }

  // ---------- Two posts with one address ----------

  const POST_URL := "https://e/b"

  const WWW_URL := "https://www.e/b"

  const PAGE_TARGET := "?page=2"

  function PartsAt(host: string, path: string): UrlParts {
    UrlParts(Some("https"), Some(host), None, Some(path))
  }

  /** What a URL parser makes of the URLs below. */
  function SmallParse(url: string): Option<UrlParts> {
    if url == POST_URL then Some(PartsAt("e", "/b"))
    else if url == WWW_URL then Some(PartsAt("www.e", "/b"))
    else if url == "https://e/?page=2" then Some(PartsAt("e", "/"))
    else None
  }

  function PostAt(externalId: string, url: string, targets: seq<string>): AuditItem {
    AuditItem(externalId, url, "", targets, 0, [])
  }

  lemma SmallHostKey(a: UrlParts, b: UrlParts)
    requires a == PartsAt("e", "/b") && b == PartsAt("www.e", "/b")
    ensures PartsKey(a) == PartsKey(b)
  {
    assert Lower("e") == "e" && Lower("www.e") == "www.e";
    assert "www.e"[..4] == "www." && "www.e"[4..] == "e";
  }

  lemma SmallUrls()
    ensures Trim(POST_URL) == POST_URL && Trim(WWW_URL) == WWW_URL
    ensures SmallParse(POST_URL) == Some(PartsAt("e", "/b")) && SmallParse(WWW_URL) == Some(PartsAt("www.e", "/b"))
  {
    TrimKeeps(POST_URL);
    TrimKeeps(WWW_URL);
    assert POST_URL[8] == 'e' && WWW_URL[8] == 'w';
  }

  lemma SmallKeys(key: string)
    requires key == PartsKey(PartsAt("e", "/b"))
    ensures key != "" && NormalizeUrl(POST_URL, SmallParse) == key && NormalizeUrl(WWW_URL, SmallParse) == key
  {
    SmallUrls();
    SmallHostKey(PartsAt("e", "/b"), PartsAt("www.e", "/b"));
    KeyIsNotEmpty(PartsAt("e", "/b"));
  }

  lemma AbsoluteTarget(target: string, sourceUrl: string, parts: UrlParts, parse: Parser)
    requires Trim(target) == target && target != "" && !StartsWith(target, "#") && !StartsWith(target, "//")
    requires parse(target) == Some(parts) && parts.scheme.Some? && parts.scheme.value != ""
    ensures NormalizeTarget(target, sourceUrl, parse) == NormalizeUrl(target, parse)
  {
  }

  lemma SmallLink(source: string)
    ensures NormalizeTarget(POST_URL, source, SmallParse) == NormalizeUrl(POST_URL, SmallParse)
  {
    SmallUrls();
    assert POST_URL[0] == 'h';
    AbsoluteTarget(POST_URL, source, PartsAt("e", "/b"), SmallParse);
  }

  /** A post that another links to is counted none when a later post has its key. */
  lemma LinkedButShadowed(r: Resolver, items: seq<AuditItem>, i: nat, j: nat, linker: nat, target: string)
    requires Distinct(Ids(items)) && i < j < |items| && linker < |items| && linker != i
    requires r.key(items[i].url) != "" && r.key(items[j].url) == r.key(items[i].url)
    requires target in items[linker].outboundUrls && r.target(target, items[linker].url) == r.key(items[i].url)
    ensures InDegreeOf(r, items, items[i]) > 0 && Analyzed(r, items)[i].inboundLinkCount == 0
  {
    IdsDiffer(items, linker, i);
    assert LinksToPost(r, items[linker], items[i]);
    CountsMember(items, linker, LinksTo(r, items[i]));
    CountsAreInDegrees(r, items, i);
  }

  lemma {:induction false} CountsMember(items: seq<AuditItem>, n: nat, keep: AuditItem -> bool)
    requires n < |items| && keep(items[n])
    ensures Count(items, keep) > 0
  {
    if n < |items| - 1 {
      CountsMember(items[..|items| - 1], n, keep);
    }
  }

  /** Two posts at one address, with and without www, and a third that links to the first: the first has one link to
      it and is counted none. */
  lemma WwwPostIsShadowed(items: seq<AuditItem>)
    requires items == [PostAt("1", POST_URL, []), PostAt("2", WWW_URL, []), PostAt("3", "", [POST_URL])]
    ensures var r := UrlResolver(SmallParse);
            InDegreeOf(r, items, items[0]) > 0 && Analyzed(r, items)[0].inboundLinkCount == 0
  {
    SmallKeys(PartsKey(PartsAt("e", "/b")));
    SmallLink("");
    SmallIds(items);
    LinkedButShadowed(UrlResolver(SmallParse), items, 0, 1, 2, POST_URL);
  }

  lemma SmallIds(items: seq<AuditItem>)
    requires |items| == 3
    requires items[0].externalId == "1" && items[1].externalId == "2" && items[2].externalId == "3"
    ensures Distinct(Ids(items))
  {
    var ids := Ids(items);
    assert ids == ["1", "2", "3"] && ids[..2] == ["1", "2"] && ids[..2][..1] == ["1"];
    assert Distinct(["1"]);
  }

  // ---------- A target that is only a query ----------

  lemma SmallReference()
    ensures RelativePath("/b", "") == "/" && MergesAlike("/b") && !EndsAtDirectory("/b")
  {
    assert BeforeLastSlash("/b") == "" && AfterLastSlash("/b") == "b";
  }

  /** In the post at POST_URL the target "?page=2" is given the key of the root instead of that of the post. */
  lemma QueryLeavesThePost()
    ensures NormalizeTarget(PAGE_TARGET, POST_URL, SmallParse) != NormalizeUrl(POST_URL, SmallParse)
    ensures NormalizeTarget(PAGE_TARGET, POST_URL, SmallParse) == PartsKey(PartsAt("e", "/"))
  {
    var source := PartsAt("e", "/b");
    SmallUrls();
    SmallReference();
    SmallSource(source);
    SmallTarget(source);
    SmallJoined(source, "https://e/?page=2");
    QueryTargetResolves(PAGE_TARGET, PAGE_TARGET, POST_URL, source, SmallParse);
    TargetKey(PAGE_TARGET, "", PAGE_TARGET, POST_URL, source, SmallParse);
    assert ReferencePath("", source) == "/b" && source.(path := Some("/b")) == source;
  }

  lemma SmallTargetParses(joined: string)
    requires joined == "https://e/?page=2"
    ensures SmallParse(joined) == Some(PartsAt("e", "/")) && SmallParse(PAGE_TARGET) == None
  {
    assert |POST_URL| == 11 && |WWW_URL| == 15 && |joined| == 17 && PAGE_TARGET[0] == '?';
  }

  lemma SmallJoined(source: UrlParts, joined: string)
    requires source == PartsAt("e", "/b") && joined == "https://e/?page=2"
    ensures CodePath("", source) == "/" && AuthorityText(source) + ("/" + PAGE_TARGET) == joined
  {
    SmallReference();
  }

  lemma SmallSource(source: UrlParts)
    requires source == PartsAt("e", "/b")
    ensures IsSource(POST_URL, source, SmallParse)
  {
  }

  lemma SmallTarget(source: UrlParts)
    requires source == PartsAt("e", "/b")
    ensures IsReference(PAGE_TARGET, "", PAGE_TARGET, source, SmallParse)
  {
    var joined := "https://e/?page=2";
    SmallJoined(source, joined);
    SmallTargetParses(joined);
    TrimKeeps(PAGE_TARGET);
    assert "" + PAGE_TARGET == PAGE_TARGET;
    assert PartsAt("e", "/") == UrlParts(Some("https"), source.host, source.port, Some("/"));
  }
}
