/** What the keys of LocalLinkGraph.php tell apart, and what a link target resolves to (RFC 3986). */
module LinkResolution {
  import opened Prelude
  import opened Text
  import opened UrlPath
  import opened LinkGraph
  import Collector

  // ---------- What a key tells ----------

  predicate Free(s: string, c: char) {
    forall i :: 0 <= i < |s| ==> s[i] != c
  }

  /** A registered name or an IPv4 address. */
  predicate IsNameHost(host: string) {
    Free(host, '/') && Free(host, ':') && Free(host, '[')
  }

  /** An IPv6 address: brackets around it and nowhere inside. */
  predicate IsBracketed(host: string) {
    && |host| >= 2 && host[0] == '[' && host[|host| - 1] == ']'
    && Free(host, '/') && Free(host[..|host| - 1], ']')
  }

  predicate PlainHost(parts: UrlParts) {
    HasHost(parts) && (IsNameHost(parts.host.value) || IsBracketed(parts.host.value))
  }

  function HostKey(parts: UrlParts): string
    requires parts.host.Some?
  {
    WithoutWww(Lower(parts.host.value))
  }

  lemma LowerKeepsFree(s: string, c: char)
    requires Free(s, c) && !('A' <= c <= 'Z') && !('a' <= c <= 'z')
    ensures Free(Lower(s), c)
  {
    forall i | 0 <= i < |s| ensures Lower(s)[i] != c {
      assert Lower(s)[i] == LowerChar(s[i]);
    }
  }

  lemma HostKeyOfName(parts: UrlParts)
    requires HasHost(parts) && IsNameHost(parts.host.value)
    ensures IsNameHost(HostKey(parts))
  {
    var host := parts.host.value;
    LowerKeepsFree(host, '/');
    LowerKeepsFree(host, ':');
    LowerKeepsFree(host, '[');
  }

  lemma HostKeyOfBracketed(parts: UrlParts)
    requires HasHost(parts) && IsBracketed(parts.host.value)
    ensures IsBracketed(HostKey(parts))
  {
    var host := parts.host.value;
    LowerKeepsFree(host, '/');
    LowerKeepsFree(host[..|host| - 1], ']');
    assert Lower(host)[0] == LowerChar('[') && Lower(host)[|host| - 1] == LowerChar(']');
    assert Lower(host)[..|host| - 1] == Lower(host[..|host| - 1]);
    assert !StartsWith(Lower(host), "www.") by {
      assert "www."[0] == 'w';
    }
  }

  lemma {:induction false} SplitsAtFirst(a: string, x: string, b: string, y: string, c: char)
    requires Free(a, c) && Free(b, c) && (x == "" || x[0] == c) && (y == "" || y[0] == c)
    requires a + x == b + y
    ensures a == b && x == y
    decreases |a|
  {
    var s := a + x;
    assert a != "" <==> s != "" && s[0] != c;
    assert b != "" <==> s != "" && s[0] != c;
    if a == "" {
      assert a + x == x && b + y == y;
    } else {
      assert s[0] == a[0] && s[0] == b[0];
      assert s[1..] == a[1..] + x && s[1..] == b[1..] + y;
      SplitsAtFirst(a[1..], x, b[1..], y, c);
      assert a == [a[0]] + a[1..] && b == [b[0]] + b[1..];
    }
  }

  lemma PortTextTells(a: Option<nat>, b: Option<nat>)
    ensures Free(PortText(a), '/') && (PortText(a) == "" || PortText(a)[0] == ':')
    ensures PortText(a) == PortText(b) <==> a == b
  {
    if a.Some? {
      Collector.DecimalIsDigits(a.value);
    }
    if a.Some? && b.Some? && PortText(a) == PortText(b) {
      assert PortText(a)[1..] == Collector.Decimal(a.value) && PortText(b)[1..] == Collector.Decimal(b.value);
      Collector.DecimalInjective(a.value, b.value);
    }
  }

  lemma FreeConcat(a: string, b: string, c: char)
    requires Free(a, c) && Free(b, c)
    ensures Free(a + b, c)
  {
  }

  lemma NormalizedStartsWithSlash(path: string)
    ensures NormalizedPath(path) != "" && NormalizedPath(path)[0] == '/'
  {
    var segments := Resolve([], Split("/" + DropLeadingSlashes(path)));
    if segments != [] {
      PathShape(segments);
    }
  }

  /** Host and port can be told apart again. */
  lemma AuthorityTells(a: string, x: string, b: string, y: string)
    requires IsNameHost(a) || IsBracketed(a)
    requires IsNameHost(b) || IsBracketed(b)
    requires (x == "" || x[0] == ':') && (y == "" || y[0] == ':') && a + x == b + y
    ensures a == b && x == y
  {
    var s := a + x;
    assert IsBracketed(a) <==> s != "" && s[0] == '[';
    assert IsBracketed(b) <==> s != "" && s[0] == '[';
    if IsBracketed(a) {
      var p, q := |a| - 1, |b| - 1;
      assert a == a[..p] + "]" && b == b[..q] + "]";
      assert a[..p] + ("]" + x) == a + x && b[..q] + ("]" + y) == b + y;
      SplitsAtFirst(a[..p], "]" + x, b[..q], "]" + y, ']');
      assert ("]" + x)[1..] == x && ("]" + y)[1..] == y;
    } else {
      SplitsAtFirst(a, x, b, y, ':');
    }
  }

  lemma HostKeyShape(parts: UrlParts)
    requires PlainHost(parts)
    ensures Free(HostKey(parts), '/') && (IsNameHost(HostKey(parts)) || IsBracketed(HostKey(parts)))
  {
    if IsNameHost(parts.host.value) {
      HostKeyOfName(parts);
    } else {
      HostKeyOfBracketed(parts);
    }
  }

  /** Two URLs have the same key exactly when hosts (in any case, with or without www), ports and normalised
      paths are the same: scheme and query never matter. */
  lemma SameKey(a: UrlParts, b: UrlParts)
    requires PlainHost(a) && PlainHost(b)
    ensures PartsKey(a) == PartsKey(b)
       <==> HostKey(a) == HostKey(b) && a.port == b.port && NormalizedPath(PathOf(a)) == NormalizedPath(PathOf(b))
  {
    HostKeyShape(a);
    HostKeyShape(b);
    PortTextTells(a.port, b.port);
    PortTextTells(b.port, a.port);
    NormalizedStartsWithSlash(PathOf(a));
    NormalizedStartsWithSlash(PathOf(b));
    FreeConcat(HostKey(a), PortText(a.port), '/');
    FreeConcat(HostKey(b), PortText(b.port), '/');
    if PartsKey(a) == PartsKey(b) {
      SplitsAtFirst(HostKey(a) + PortText(a.port), NormalizedPath(PathOf(a)),
                    HostKey(b) + PortText(b.port), NormalizedPath(PathOf(b)), '/');
      AuthorityTells(HostKey(a), PortText(a.port), HostKey(b), PortText(b.port));
    }
  }

  // ---------- What a target resolves to ----------

  /** A query, a fragment, both, or nothing. */
  predicate IsSuffix(suffix: string) {
    suffix == "" || suffix[0] == '?' || suffix[0] == '#'
  }

  /** A link that is only a path and a suffix: no scheme, no authority, no bare fragment. */
  predicate IsPathReference(link: string, parse: Parser) {
    && link != "" && !StartsWith(link, "#") && !StartsWith(link, "//")
    && (Parsed(link, parse).scheme.None? || Parsed(link, parse).scheme.value == "")
  }

  function SourcePath(source: UrlParts): string {
    if source.path == None || source.path == Some("") || source.path == Some("0") then "/" else source.path.value
  }

  /** The path that section 5.2.2 of RFC 3986 gives a reference with this path, before its dots are removed. */
  function ReferencePath(path: string, source: UrlParts): string {
    if path == "" then SourcePath(source)
    else if StartsWith(path, "/") then path
    else Merge(SourcePath(source), path)
  }

  /** The path the code builds. */
  function CodePath(path: string, source: UrlParts): string
    requires SourcePath(source) != ""
  {
    if StartsWith(path, "/") then path else RelativePath(SourcePath(source), path)
  }

  /** The scheme of the source, https when it has none. */
  function SchemeOf(source: UrlParts): string {
    if source.scheme == None || source.scheme == Some("") || source.scheme == Some("0") then "https"
    else source.scheme.value
  }

  /** Scheme, host and port of the source as they stand in a URL. */
  function AuthorityText(source: UrlParts): string
    requires source.host.Some?
  {
    SchemeOf(source) + "://" + source.host.value
    + if source.port.Some? then ":" + Collector.Decimal(source.port.value) else ""
  }

  lemma SourceTexts(source: UrlParts)
    requires source.host.Some?
    ensures OrElse(source.scheme, "https") == SchemeOf(source) && Authority(source) == AuthorityText(source)
    ensures OrElse(source.path, "/") == SourcePath(source)
  {
  }

  /** The parser takes the authority of the source, a path and a suffix apart again. */
  predicate TakesApart(parse: Parser, source: UrlParts, path: string, suffix: string)
    requires source.host.Some?
  {
    parse(AuthorityText(source) + (path + suffix))
    == Some(UrlParts(Some(SchemeOf(source)), source.host, source.port, Some(path)))
  }

  /** A source URL that the parser understands and that has a host and an absolute path. */
  predicate IsSource(sourceUrl: string, source: UrlParts, parse: Parser) {
    && parse(sourceUrl) == Some(source) && HasHost(source) && !IsTrimmed(SchemeOf(source)[0])
    && SourcePath(source)[0] == '/'
  }

  /** The trimmed link is this path and this suffix, and the parser takes the URL built from it apart. */
  predicate IsReference(target: string, path: string, suffix: string, source: UrlParts, parse: Parser)
    requires source.host.Some? && SourcePath(source) != ""
  {
    && Trim(target) == path + suffix && IsSuffix(suffix) && IsPathReference(path + suffix, parse)
    && TakesApart(parse, source, CodePath(path, source), suffix)
  }

  lemma TrimmedEnds(s: string)
    requires s != "" && Trim(s) == s
    ensures !IsTrimmed(s[|s| - 1])
  {
    TrimTrims(s);
  }

  lemma JoinedKey(source: UrlParts, path: string, suffix: string, parse: Parser)
    requires HasHost(source) && !IsTrimmed(SchemeOf(source)[0]) && path + suffix != ""
    requires !IsTrimmed((path + suffix)[|path + suffix| - 1]) && TakesApart(parse, source, path, suffix)
    ensures NormalizeUrl(Authority(source) + (path + suffix), parse) == PartsKey(source.(path := Some(path)))
  {
    var joined, scheme := Authority(source) + (path + suffix), SchemeOf(source);
    SourceTexts(source);
    assert joined[0] == scheme[0];
    assert joined[|joined| - 1] == (path + suffix)[|path + suffix| - 1];
    TrimKeeps(joined);
  }

  lemma RootedTargetKey(target: string, path: string, suffix: string, sourceUrl: string, source: UrlParts,
                        parse: Parser)
    requires IsSource(sourceUrl, source, parse) && IsReference(target, path, suffix, source, parse)
    requires StartsWith(path, "/") && !IsTrimmed(Trim(target)[|Trim(target)| - 1])
    ensures NormalizeTarget(target, sourceUrl, parse) == PartsKey(source.(path := Some(path)))
  {
    assert StartsWith(Trim(target), "/");
    JoinedKey(source, path, suffix, parse);
  }

  lemma RelativeWithSuffix(from: string, path: string, suffix: string)
    requires from != "" && path + suffix != ""
    ensures RelativePath(from, path) + suffix == RelativePath(from, path + suffix)
    ensures var whole := RelativePath(from, path + suffix);
            whole != "" && whole[|whole| - 1] == (path + suffix)[|path + suffix| - 1]
  {
  }

  /** A reference that is not rooted is joined to the directory of the post. */
  lemma JoinedToDirectory(target: string, link: string, sourceUrl: string, source: UrlParts, parse: Parser)
    requires IsSource(sourceUrl, source, parse) && link == Trim(target) && IsPathReference(link, parse)
    requires !StartsWith(link, "/")
    ensures NormalizeTarget(target, sourceUrl, parse)
         == NormalizeUrl(Authority(source) + RelativePath(SourcePath(source), link), parse)
  {
    SourceTexts(source);
  }

  lemma RelativeTargetKey(target: string, path: string, suffix: string, sourceUrl: string, source: UrlParts,
                          parse: Parser)
    requires IsSource(sourceUrl, source, parse) && IsReference(target, path, suffix, source, parse)
    requires !StartsWith(path, "/") && !IsTrimmed(Trim(target)[|Trim(target)| - 1])
    ensures NormalizeTarget(target, sourceUrl, parse)
         == PartsKey(source.(path := Some(RelativePath(SourcePath(source), path))))
  {
    assert !StartsWith(Trim(target), "/");
    JoinedToDirectory(target, path + suffix, sourceUrl, source, parse);
    RelativeWithSuffix(SourcePath(source), path, suffix);
    JoinedKey(source, RelativePath(SourcePath(source), path), suffix, parse);
  }

  /** The key of a reference is that of the authority of the post with the path the code builds. */
  lemma TargetKey(target: string, path: string, suffix: string, sourceUrl: string, source: UrlParts, parse: Parser)
    requires IsSource(sourceUrl, source, parse) && IsReference(target, path, suffix, source, parse)
    ensures NormalizeTarget(target, sourceUrl, parse) == PartsKey(source.(path := Some(CodePath(path, source))))
  {
    TrimTrims(target);
    TrimmedEnds(Trim(target));
    if StartsWith(path, "/") {
      RootedTargetKey(target, path, suffix, sourceUrl, source, parse);
    } else {
      RelativeTargetKey(target, path, suffix, sourceUrl, source, parse);
    }
  }

  lemma KeyTellsPath(source: UrlParts, a: string, b: string)
    requires HasHost(source)
    ensures PartsKey(source.(path := Some(a))) == PartsKey(source.(path := Some(b)))
       <==> NormalizedPath(a) == NormalizedPath(b)
  {
    var authority := WithoutWww(Lower(source.host.value)) + PortText(source.port);
    assert (authority + NormalizedPath(a))[|authority|..] == NormalizedPath(a);
    assert (authority + NormalizedPath(b))[|authority|..] == NormalizedPath(b);
  }

  /** A reference with a path has the key of the URL the standard resolves it to, query and fragment
      notwithstanding, when rewriting backslashes does not change the directory of the post. */
  lemma TargetResolves(target: string, path: string, suffix: string, sourceUrl: string, source: UrlParts, parse: Parser)
    requires IsSource(sourceUrl, source, parse) && IsReference(target, path, suffix, source, parse)
    requires path != "" && MergesAlike(SourcePath(source))
    ensures NormalizeTarget(target, sourceUrl, parse) == PartsKey(source.(path := Some(ReferencePath(path, source))))
  {
    TargetKey(target, path, suffix, sourceUrl, source, parse);
    KeyTellsPath(source, CodePath(path, source), ReferencePath(path, source));
    if !StartsWith(path, "/") {
      MergesLikeStandard(SourcePath(source), path);
    }
  }

  // ---------- A target that is only a query ----------

  function AfterLastSlash(s: string): string {
    if s == "" || s[|s| - 1] == '/' then "" else AfterLastSlash(s[..|s| - 1]) + [s[|s| - 1]]
  }

  lemma {:induction false} LastSegmentSplits(s: string)
    requires s != "" && s[0] == '/'
    ensures s == BeforeLastSlash(s) + "/" + AfterLastSlash(s) && NoSlash(AfterLastSlash(s))
  {
    if s[|s| - 1] != '/' {
      LastSegmentSplits(s[..|s| - 1]);
      assert s == s[..|s| - 1] + [s[|s| - 1]];
    }
  }

  /** A post whose last path segment does not name anything: empty, a dot, or two dots at the root. */
  predicate EndsAtDirectory(path: string) {
    var last := AfterLastSlash(path);
    last == "" || last == "." || (last == ".." && Resolve([], Split(BeforeLastSlash(path))) == [])
  }

  lemma LongerPath(stack: seq<string>, segment: string)
    requires segment != ""
    ensures Rendered(stack + [segment]) != Rendered(stack)
  {
    PathSnoc(stack, segment);
  }

  lemma PushedRenders(stack: seq<string>, last: string)
    requires "" !in stack
    ensures Rendered(Pushed(stack, last)) == Rendered(stack)
       <==> last == "" || last == "." || (last == ".." && stack == [])
  {
    if last == ".." && stack != [] {
      var top := stack[|stack| - 1];
      assert top in stack && stack == Pop(stack) + [top];
      LongerPath(Pop(stack), top);
    } else if last != "" && last != "." && last != ".." {
      DecodeShortens(last);
      LongerPath(stack, Decode(last));
    }
  }

  lemma DirectoryStack(path: string)
    requires path != "" && path[0] == '/'
    ensures var stack := Resolve([], Split(BeforeLastSlash(path)));
            && "" !in stack
            && NormalizedPath(path) == Rendered(Pushed(stack, AfterLastSlash(path)))
            && NormalizedPath(BeforeLastSlash(path) + "/" + "") == Rendered(stack)
  {
    var directory, last := BeforeLastSlash(path), AfterLastSlash(path);
    var stack := Resolve([], Split(directory));
    LastSegmentSplits(path);
    ResolvedNotEmpty([], Split(directory));
    JoinedPath(directory, last);
    JoinedPath(directory, "");
    SplitPlain("", last);
    assert "" + last == last && [last][1..] == [];
    assert Resolve(stack, [""]) == Resolve(stack, [""][1..]) && [""][1..] == [];
  }

  /** A target such as "?page=2" is given the directory of the post, while the standard keeps the path of the
      post: the keys agree exactly when the path of the post ends at a directory. */
  lemma QueryTargetResolves(target: string, suffix: string, sourceUrl: string, source: UrlParts, parse: Parser)
    requires IsSource(sourceUrl, source, parse) && IsReference(target, "", suffix, source, parse)
    requires MergesAlike(SourcePath(source))
    ensures NormalizeTarget(target, sourceUrl, parse) == PartsKey(source.(path := Some(ReferencePath("", source))))
       <==> EndsAtDirectory(SourcePath(source))
  {
    var from := SourcePath(source);
    TargetKey(target, "", suffix, sourceUrl, source, parse);
    KeyTellsPath(source, CodePath("", source), from);
    MergesLikeStandard(from, "");
    DirectoryStack(from);
    PushedRenders(Resolve([], Split(BeforeLastSlash(from))), AfterLastSlash(from));
  }
}
