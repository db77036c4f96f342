/**
 * The content inventory (ContentCollector.php): one page of posts at an offset, and the external ids
 * by which every other component names a post.
 */
module Collector {
  import opened Prelude

  /** A row of the inventory query. `url` is empty when WordPress has no permalink for it. */
  datatype Post = Post(
    id: nat,
    postType: string,
    url: string,
    title: string,
    published: bool,
    modifiedAt: Option<int>,
    noindex: bool,
    seoTitle: string,
    metaDescription: string,
    canonicalUrl: string,
    wordCount: Option<int>,
    internalLinkCount: Option<int>,
    outboundUrls: seq<string>)

  datatype CollectedItem = CollectedItem(externalId: string, post: Post)

  datatype Page = Page(items: seq<CollectedItem>, hasMore: bool)

  const MAX_BATCH_SIZE := 250

  function Digit(n: nat): char
    requires n < 10
  {
    ('0' as int + n) as char
  }

  function Decimal(n: nat): string {
    if n < 10 then [Digit(n)] else Decimal(n / 10) + [Digit(n % 10)]
  }

  function ExternalId(post: Post): string {
    post.postType + ":" + Decimal(post.id)
  }

  function MapPost(post: Post): CollectedItem {
    CollectedItem(ExternalId(post), post)
  }

  predicate HasUrl(post: Post) {
    post.url != ""
  }

  function Clamp(n: int, most: nat): nat {
    if n < 0 then 0 else if n > most then most else n
  }

  function BoundedLimit(limit: int): nat {
    Max(1, Min(limit, MAX_BATCH_SIZE))
  }

  /** The rows of one query: at most `limit` (bounded) of them from the offset on, in id order. */
  function Rows(inventory: seq<Post>, offset: int, limit: int): seq<Post> {
    inventory[Clamp(offset, |inventory|)..Clamp(Max(0, offset) + BoundedLimit(limit), |inventory|)]
  }

  /** The query came back full, so there may be more rows. */
  predicate HasMore(inventory: seq<Post>, offset: int, limit: int) {
    |Rows(inventory, offset, limit)| >= BoundedLimit(limit)
  }

  function Batch(inventory: seq<Post>, offset: int, limit: int): Page {
    var rows := Rows(inventory, offset, limit);
    Page(Mapped(Filtered(rows, HasUrl), MapPost), HasMore(inventory, offset, limit))
  }

  lemma SentStep(rows: seq<Post>, n: nat)
    requires n < |rows|
    ensures Mapped(Filtered(rows[..n + 1], HasUrl), MapPost)
         == Mapped(Filtered(rows[..n], HasUrl), MapPost) + if HasUrl(rows[n]) then [MapPost(rows[n])] else []
  {
    assert rows[..n + 1] == rows[..n] + [rows[n]];
    FilteredAppend(rows[..n], rows[n], HasUrl);
    MappedConcat(Filtered(rows[..n], HasUrl), [rows[n]], MapPost);
  }

  method CollectBatch(inventory: seq<Post>, offset: int, limit: int) returns (page: Page)
    ensures page == Batch(inventory, offset, limit)
  {
    var rows := Rows(inventory, offset, limit);
    var items := [];
    var n := 0;
    while n < |rows|
      invariant 0 <= n <= |rows|
      invariant items == Mapped(Filtered(rows[..n], HasUrl), MapPost)
    {
      SentStep(rows, n);
      if rows[n].url != "" {
        items := items + [MapPost(rows[n])];
      }
      n := n + 1;
    }
    assert rows[..n] == rows;
    page := Page(items, |rows| >= BoundedLimit(limit));
  }

  // ---------- External ids ----------

  predicate NoColon(s: string) {
    forall i :: 0 <= i < |s| ==> s[i] != ':'
  }

  lemma {:induction false} DecimalIsDigits(n: nat)
    ensures Decimal(n) != "" && forall i :: 0 <= i < |Decimal(n)| ==> '0' <= Decimal(n)[i] <= '9'
  {
    if n >= 10 {
      DecimalIsDigits(n / 10);
    }
  }

  lemma {:induction false} DecimalInjective(a: nat, b: nat)
    requires Decimal(a) == Decimal(b)
    ensures a == b
  {
    DecimalIsDigits(a / 10);
    DecimalIsDigits(b / 10);
    var da, db := Decimal(a), Decimal(b);
    if a >= 10 && b >= 10 {
      assert da[..|da| - 1] == Decimal(a / 10) && db[..|db| - 1] == Decimal(b / 10);
      DecimalInjective(a / 10, b / 10);
      assert da[|da| - 1] == Digit(a % 10) && db[|db| - 1] == Digit(b % 10);
    }
  }

  /** What follows the last colon of a text. */
  function AfterLastColon(s: string): string {
    if s == "" then "" else if s[|s| - 1] == ':' then "" else AfterLastColon(s[..|s| - 1]) + [s[|s| - 1]]
  }

  lemma {:induction false} AfterColon(prefix: string, tail: string)
    requires NoColon(tail)
    ensures AfterLastColon(prefix + ":" + tail) == tail
  {
    var s := prefix + ":" + tail;
    if tail != "" {
      var shorter := tail[..|tail| - 1];
      AfterColon(prefix, shorter);
      assert s[..|s| - 1] == prefix + ":" + shorter;
      assert s[|s| - 1] == tail[|tail| - 1];
    }
  }

  /** An external id gives back the id of its post, whatever the post type is called. */
  lemma ExternalIdNamesPost(post: Post)
    ensures AfterLastColon(ExternalId(post)) == Decimal(post.id)
  {
    DecimalIsDigits(post.id);
    AfterColon(post.postType, Decimal(post.id));
  }

  /** Posts with different ids have different external ids. */
  lemma ExternalIdsDiffer(a: Post, b: Post)
    requires ExternalId(a) == ExternalId(b)
    ensures a.id == b.id
  {
    ExternalIdNamesPost(a);
    ExternalIdNamesPost(b);
    DecimalInjective(a.id, b.id);
  }
}
