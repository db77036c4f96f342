/**
 * Local audit findings: what LocalAuditEngine.php reports about one post, how it counts a whole audit,
 * and the fingerprint by which a finding is recognised from one audit to the next.
 */
module AuditModel {
  import opened Prelude
  import opened Text
  import opened Collector

  datatype Code =
    | PublishedNoindex | SeoTitleMissing | MetaDescriptionMissing | CanonicalDifferent | ThinContent
    | InternalLinksMissing | ContentStale | OrphanContent | WeaklyLinkedContent

  datatype Severity = Critical | Warning | Opportunity | Maintenance

  datatype Change = New | Unchanged | Ignored

  /** A SHA-256 digest, taken to determine its input and so what the input says, or any text that is not one. */
  datatype Fingerprint = Digest(externalId: string, code: Code) | NotADigest(text: string)

  datatype Finding = Finding(
    code: Code,
    severity: Severity,
    fingerprint: Option<Fingerprint>,
    ignored: bool,
    change: Option<Change>,
    previousChange: Option<Change>)

  datatype AuditItem = AuditItem(
    externalId: string,
    url: string,
    title: string,
    outboundUrls: seq<string>,
    inboundLinkCount: nat,
    findings: seq<Finding>)

  const THIN_CONTENT_WORDS := 300
  const STALE_CONTENT_DAYS := 180
  const SECONDS_PER_DAY := 86400

  function SeverityOf(code: Code): Severity {
    match code
    case PublishedNoindex => Critical
    case SeoTitleMissing => Warning
    case MetaDescriptionMissing => Warning
    case CanonicalDifferent => Warning
    case ThinContent => Opportunity
    case InternalLinksMissing => Opportunity
    case ContentStale => Maintenance
    case OrphanContent => Warning
    case WeaklyLinkedContent => Opportunity
  }

  function FindingOf(code: Code): Finding {
    Finding(code, SeverityOf(code), None, false, None, None)
  }

  // ---------- Inspecting one post ----------

  /** The checks in the order they run; the two link codes are added by the link graph. */
  const CHECKED_CODES := [
    PublishedNoindex, SeoTitleMissing, MetaDescriptionMissing, CanonicalDifferent, ThinContent, InternalLinksMissing,
    ContentStale]

  predicate HasText(text: string) {
    Trim(text) != ""
  }

  predicate IsStale(modifiedAt: Option<int>, now: int) {
    modifiedAt.Some? && Max(0, (now - modifiedAt.value) / SECONDS_PER_DAY) > STALE_CONTENT_DAYS
  }

  /** A normalised comparison of two URLs. */
  type UrlComparison = (string, string) -> bool

  predicate IsElsewhere(post: Post, sameUrl: UrlComparison) {
    HasText(post.canonicalUrl) && !sameUrl(Trim(post.canonicalUrl), post.url)
  }

  /** A known count, negative ones read as zero, under a limit. */
  predicate Below(count: Option<int>, limit: nat) {
    count.Some? && Max(0, count.value) < limit
  }

  predicate Detects(post: Post, now: int, sameUrl: UrlComparison, code: Code) {
    match code
    case PublishedNoindex => post.noindex
    case SeoTitleMissing => !HasText(post.seoTitle)
    case MetaDescriptionMissing => !HasText(post.metaDescription)
    case CanonicalDifferent => IsElsewhere(post, sameUrl)
    case ThinContent => Below(post.wordCount, THIN_CONTENT_WORDS)
    case InternalLinksMissing => Below(post.internalLinkCount, 1)
    case ContentStale => IsStale(post.modifiedAt, now)
    case OrphanContent => false
    case WeaklyLinkedContent => false
  }

  /** What the checks for a list of codes report. */
  function Reported(detects: Code -> bool, codes: seq<Code>): seq<Finding> {
    Mapped(Filtered(codes, detects), FindingOf)
  }

  function Inspected(post: Post, now: int, sameUrl: UrlComparison): seq<Finding> {
    if !post.published then [] else Reported(code => Detects(post, now, sameUrl, code), CHECKED_CODES)
  }

  /** One check: appends its finding when it detects something. */
  method Report(findings: seq<Finding>, detected: bool, code: Code, ghost detects: Code -> bool, ghost run: seq<Code>)
    returns (more: seq<Finding>)
    requires detected == detects(code)
    requires findings == Reported(detects, run)
    ensures more == Reported(detects, run + [code])
  {
    FilteredAppend(run, code, detects);
    more := if detected then findings + [FindingOf(code)] else findings;
  }

  method InspectPublished(post: Post, now: int, sameUrl: UrlComparison, ghost detects: Code -> bool)
    returns (findings: seq<Finding>, ghost run: seq<Code>)
    requires detects(PublishedNoindex) == post.noindex
    requires detects(SeoTitleMissing) == !HasText(post.seoTitle)
    requires detects(MetaDescriptionMissing) == !HasText(post.metaDescription)
    requires detects(CanonicalDifferent) == IsElsewhere(post, sameUrl)
    requires detects(ThinContent) == Below(post.wordCount, THIN_CONTENT_WORDS)
    requires detects(InternalLinksMissing) == Below(post.internalLinkCount, 1)
    requires detects(ContentStale) == IsStale(post.modifiedAt, now)
    ensures findings == Reported(detects, run)
    ensures run == [PublishedNoindex] + [SeoTitleMissing] + [MetaDescriptionMissing] + [CanonicalDifferent]
                   + [ThinContent] + [InternalLinksMissing] + [ContentStale]
  {
    findings, run := [], [];
    findings := Report(findings, post.noindex, PublishedNoindex, detects, run);
    run := [PublishedNoindex];
    findings := Report(findings, !HasText(post.seoTitle), SeoTitleMissing, detects, run);
    run := run + [SeoTitleMissing];
    findings := Report(findings, !HasText(post.metaDescription), MetaDescriptionMissing, detects, run);
    run := run + [MetaDescriptionMissing];
    findings := Report(findings, IsElsewhere(post, sameUrl), CanonicalDifferent, detects, run);
    run := run + [CanonicalDifferent];
    findings := Report(findings, Below(post.wordCount, THIN_CONTENT_WORDS), ThinContent, detects, run);
    run := run + [ThinContent];
    findings := Report(findings, Below(post.internalLinkCount, 1), InternalLinksMissing, detects, run);
    run := run + [InternalLinksMissing];
    findings := Report(findings, IsStale(post.modifiedAt, now), ContentStale, detects, run);
    run := run + [ContentStale];
  }

  lemma ChecksInOrder(run: seq<Code>)
    requires run == [PublishedNoindex] + [SeoTitleMissing] + [MetaDescriptionMissing] + [CanonicalDifferent]
                    + [ThinContent] + [InternalLinksMissing] + [ContentStale]
    ensures run == CHECKED_CODES
  {
  }

  /** The checks of inspect, one after the other. */
  method Inspect(post: Post, now: int, sameUrl: UrlComparison) returns (findings: seq<Finding>)
    ensures findings == Inspected(post, now, sameUrl)
  {
    if !post.published {
      return [];
    }
    ghost var run;
    findings, run := InspectPublished(post, now, sameUrl, code => Detects(post, now, sameUrl, code));
    ChecksInOrder(run);
  }

  function CodeOf(finding: Finding): Code {
    finding.code
  }

  function Codes(findings: seq<Finding>): seq<Code> {
    Mapped(findings, CodeOf)
  }

  lemma CheckedCodesDistinct()
    ensures Distinct(CHECKED_CODES) && OrphanContent !in CHECKED_CODES && WeaklyLinkedContent !in CHECKED_CODES
  {
    var c := CHECKED_CODES;
    assert c[..6][..5] == c[..5] && c[..5][..4] == c[..4] && c[..4][..3] == c[..3];
    assert c[..3][..2] == c[..2] && c[..2][..1] == c[..1] && c[..1][..0] == [];
    assert Distinct(c[..1]) && Distinct(c[..2]);
    assert Distinct(c[..3]) && Distinct(c[..4]);
    assert Distinct(c[..5]) && Distinct(c[..6]);
  }

  lemma ReportedCodes(detects: Code -> bool, codes: seq<Code>)
    requires Distinct(codes)
    ensures var reported := Codes(Reported(detects, codes));
            Distinct(reported) && forall code :: code in reported <==> code in codes && detects(code)
  {
    FilteredDistinct(codes, detects);
    assert Codes(Reported(detects, codes)) == Filtered(codes, detects);
  }

  /** Inspection reports each code at most once, and never one of the two link codes. */
  lemma InspectedCodesDistinct(post: Post, now: int, sameUrl: UrlComparison)
    ensures var codes := Codes(Inspected(post, now, sameUrl));
            Distinct(codes) && OrphanContent !in codes && WeaklyLinkedContent !in codes
  {
    if post.published {
      CheckedCodesDistinct();
      ReportedCodes(code => Detects(post, now, sameUrl, code), CHECKED_CODES);
    }
  }

  // ---------- Fingerprints ----------

  function CodeText(code: Code): string {
    match code
    case PublishedNoindex => "published-noindex"
    case SeoTitleMissing => "seo-title-missing"
    case MetaDescriptionMissing => "meta-description-missing"
    case CanonicalDifferent => "canonical-different"
    case ThinContent => "thin-content"
    case InternalLinksMissing => "internal-links-missing"
    case ContentStale => "content-stale"
    case OrphanContent => "orphan-content"
    case WeaklyLinkedContent => "weakly-linked-content"
  }

  function FingerprintOf(externalId: string, code: Code): Fingerprint {
    Digest(Trim(externalId), code)
  }

  /** The text that is hashed. */
  function HashInput(externalId: string, code: Code): string {
    Trim(externalId) + "|" + Trim(CodeText(code))
  }

  predicate NoBar(s: string) {
    '|' !in s
  }

  lemma MetadataTextsHaveNoBar(code: Code)
    requires code.PublishedNoindex? || code.SeoTitleMissing? || code.MetaDescriptionMissing? || code.CanonicalDifferent?
    ensures NoBar(CodeText(code))
  {
  }

  lemma CodeTextsHaveNoBar(code: Code)
    ensures NoBar(CodeText(code))
  {
    if code.PublishedNoindex? || code.SeoTitleMissing? || code.MetaDescriptionMissing? || code.CanonicalDifferent? {
      MetadataTextsHaveNoBar(code);
    }
  }

  lemma CodeTextsAreTrimmed(code: Code)
    ensures IsTrim(CodeText(code))
  {
  }

  lemma CodeTextsDiffer(a: Code, b: Code)
    requires CodeText(a) == CodeText(b)
    ensures a == b
  {
    var s := CodeText(a);
    assert s[|s| - 1] == CodeText(b)[|s| - 1] && s[0] == CodeText(b)[0];
  }

  lemma {:induction false} SplitsAtLastBar(a: string, x: string, b: string, y: string)
    requires NoBar(x) && NoBar(y) && a + "|" + x == b + "|" + y
    ensures a == b && x == y
    decreases |x|
  {
    var s := a + "|" + x;
    assert s[|s| - 1] == if x == "" then '|' else x[|x| - 1];
    assert s[|s| - 1] == if y == "" then '|' else y[|y| - 1];
    if x == "" || y == "" {
      assert s[..|s| - 1] == a && s[..|s| - 1] == b;
    } else {
      var p, q := x[..|x| - 1], y[..|y| - 1];
      assert s[..|s| - 1] == a + "|" + p && s[..|s| - 1] == b + "|" + q;
      SplitsAtLastBar(a, p, b, q);
      assert x == p + [x[|x| - 1]] && y == q + [y[|y| - 1]];
    }
  }

  lemma CodeTextIsKept(code: Code)
    ensures Trim(CodeText(code)) == CodeText(code) && NoBar(CodeText(code))
  {
    CodeTextsHaveNoBar(code);
    CodeTextsAreTrimmed(code);
    TrimKeeps(CodeText(code));
  }

  /** The hashed text determines the trimmed external id and the code, bars in the id notwithstanding. */
  lemma HashInputsDiffer(a: string, x: Code, b: string, y: Code)
    ensures HashInput(a, x) == HashInput(b, y) <==> FingerprintOf(a, x) == FingerprintOf(b, y)
  {
    CodeTextIsKept(x);
    CodeTextIsKept(y);
    if HashInput(a, x) == HashInput(b, y) {
      SplitsAtLastBar(Trim(a), CodeText(x), Trim(b), CodeText(y));
      CodeTextsDiffer(x, y);
    }
  }
}
