/** What the inspection of a post (LocalAuditEngine.php) reports, told by the fields of the post alone. */
module Inspection {
  import opened Prelude
  import opened Text
  import opened Collector
  import opened AuditModel

  const SECONDS_UNTIL_STALE := 181 * 86400

  lemma DetectedIsReported(post: Post, now: int, sameUrl: UrlComparison, code: Code)
    ensures code in Codes(Inspected(post, now, sameUrl))
       <==> post.published && code in CHECKED_CODES && Detects(post, now, sameUrl, code)
  {
    if post.published {
      CheckedCodesDistinct();
      ReportedCodes(code => Detects(post, now, sameUrl, code), CHECKED_CODES);
    }
  }

  /** What search engines are told about the post. */
  lemma MetadataReported(post: Post, now: int, sameUrl: UrlComparison)
    ensures var codes := Codes(Inspected(post, now, sameUrl));
            && (PublishedNoindex in codes <==> post.published && post.noindex)
            && (SeoTitleMissing in codes <==> post.published && IsBlank(post.seoTitle))
            && (MetaDescriptionMissing in codes <==> post.published && IsBlank(post.metaDescription))
            && (CanonicalDifferent in codes
                <==> post.published && !IsBlank(post.canonicalUrl) && !sameUrl(Trim(post.canonicalUrl), post.url))
  {
    forall code ensures code in Codes(Inspected(post, now, sameUrl))
                   <==> post.published && code in CHECKED_CODES && Detects(post, now, sameUrl, code) {
      DetectedIsReported(post, now, sameUrl, code);
    }
    TrimOfBlank(post.seoTitle);
    TrimOfBlank(post.metaDescription);
    TrimOfBlank(post.canonicalUrl);
  }

  lemma StaleFrom(modifiedAt: int, now: int)
    ensures IsStale(Some(modifiedAt), now) <==> now - modifiedAt >= SECONDS_UNTIL_STALE
  {
  }

  /** The content of the post and its age. */
  lemma ContentReported(post: Post, now: int, sameUrl: UrlComparison)
    ensures var codes := Codes(Inspected(post, now, sameUrl));
            && (ThinContent in codes <==> post.published && post.wordCount.Some? && post.wordCount.value <= 299)
            && (InternalLinksMissing in codes
                <==> post.published && post.internalLinkCount.Some? && post.internalLinkCount.value <= 0)
            && (ContentStale in codes
                <==> post.published && post.modifiedAt.Some? && now - post.modifiedAt.value >= SECONDS_UNTIL_STALE)
  {
    forall code ensures code in Codes(Inspected(post, now, sameUrl))
                   <==> post.published && code in CHECKED_CODES && Detects(post, now, sameUrl, code) {
      DetectedIsReported(post, now, sameUrl, code);
    }
    if post.modifiedAt.Some? {
      StaleFrom(post.modifiedAt.value, now);
    }
  }

  /** Every finding carries the severity of its code, and nothing else yet. */
  lemma SeveritiesReported(post: Post, now: int, sameUrl: UrlComparison, finding: Finding)
    requires finding in Inspected(post, now, sameUrl)
    ensures finding.severity == Critical <==> finding.code == PublishedNoindex
    ensures finding.severity == Warning
       <==> finding.code in {SeoTitleMissing, MetaDescriptionMissing, CanonicalDifferent}
    ensures finding.severity == Opportunity <==> finding.code in {ThinContent, InternalLinksMissing}
    ensures finding.severity == Maintenance <==> finding.code == ContentStale
    ensures finding == Finding(finding.code, finding.severity, None, false, None, None)
  {
    InspectedCodesDistinct(post, now, sameUrl);
    var findings := Inspected(post, now, sameUrl);
    var n :| 0 <= n < |findings| && findings[n] == finding;
    assert Codes(findings)[n] == finding.code;
  }

  /** What is hashed of a finding is its trimmed external id, a bar, and the name of its code. */
  lemma HashedText(externalId: string, code: Code, name: string)
    requires name == match code
                     case PublishedNoindex => "published-noindex"
                     case SeoTitleMissing => "seo-title-missing"
                     case MetaDescriptionMissing => "meta-description-missing"
                     case CanonicalDifferent => "canonical-different"
                     case ThinContent => "thin-content"
                     case InternalLinksMissing => "internal-links-missing"
                     case ContentStale => "content-stale"
                     case OrphanContent => "orphan-content"
                     case WeaklyLinkedContent => "weakly-linked-content"
    ensures HashInput(externalId, code) == Trim(externalId) + "|" + name
  {
    CodeTextIsKept(code);
  }
}
