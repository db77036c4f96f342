/** What a sync run (SyncScheduler.php) has sent when it stops, refused or not. */
module SyncDelivery {
  import opened Prelude
  import opened Collector
  import opened Sync
  import opened SyncCoverage
  import opened SyncRepetition

  lemma PrefixJoined(rows: seq<Post>, a: seq<Post>, b: seq<Post>)
    requires a <= b
    ensures rows + a <= rows + b
    ensures |Mappable(rows + b)| - |Mappable(rows + a)| == |Mappable(b)| - |Mappable(a)|
  {
    MappableConcat(rows, a);
    MappableConcat(rows, b);
  }

  /** `sent` is delivered of the rows `visited`; `refused` says whether a batch is refused on the way. */
  ghost predicate IsDelivery(inventories: Inventories, batchSize: int, offset: int, batch: nat,
                             rejected: nat -> bool, sent: seq<Post>, visited: seq<Post>, refused: bool)
  {
    && inventories != []
    && sent == Delivered(inventories, batchSize, offset, batch, rejected)
    && visited == Visited(inventories, batchSize, offset)
    && refused == Refuses(inventories, batchSize, offset, batch, rejected)
  }

  lemma DeliveryEnds(inventories: Inventories, batchSize: int, offset: int, batch: nat,
                     rejected: nat -> bool, sent: seq<Post>, visited: seq<Post>, refused: bool)
    requires IsDelivery(inventories, batchSize, offset, batch, rejected, sent, visited, refused)
    requires IsRefused(Rows(inventories[0], offset, batchSize), batch, rejected)
             || Stops(inventories, batchSize, offset)
    ensures if refused then sent == [] && Mappable(visited) != [] else sent == visited
  {
    if !Stops(inventories, batchSize, offset) {
      MappableConcat(Rows(inventories[0], offset, batchSize),
                     Visited(inventories[1..], batchSize, offset + batchSize));
    }
  }

  lemma NextDelivery(inventories: Inventories, batchSize: int, offset: int, batch: nat,
                     rejected: nat -> bool, sent: seq<Post>, visited: seq<Post>, refused: bool)
    returns (rows: seq<Post>, laterSent: seq<Post>, laterVisited: seq<Post>)
    requires IsDelivery(inventories, batchSize, offset, batch, rejected, sent, visited, refused)
    requires !IsRefused(Rows(inventories[0], offset, batchSize), batch, rejected)
             && !Stops(inventories, batchSize, offset)
    ensures |inventories| > 1 && sent == rows + laterSent && visited == rows + laterVisited
    ensures IsDelivery(inventories[1..], batchSize, offset + batchSize, batch + 1, rejected, laterSent, laterVisited,
                       refused)
  {
    rows := Rows(inventories[0], offset, batchSize);
    laterSent := Delivered(inventories[1..], batchSize, offset + batchSize, batch + 1, rejected);
    laterVisited := Visited(inventories[1..], batchSize, offset + batchSize);
  }

  lemma {:induction false} DeliveredIsPrefix(inventories: Inventories, batchSize: int, offset: int, batch: nat,
                                             rejected: nat -> bool, sent: seq<Post>, visited: seq<Post>, refused: bool)
    requires IsDelivery(inventories, batchSize, offset, batch, rejected, sent, visited, refused)
    ensures if refused then sent <= visited && |Mappable(sent)| < |Mappable(visited)| else sent == visited
    decreases |inventories|
  {
    if IsRefused(Rows(inventories[0], offset, batchSize), batch, rejected) || Stops(inventories, batchSize, offset) {
      DeliveryEnds(inventories, batchSize, offset, batch, rejected, sent, visited, refused);
    } else {
      var rows, laterSent, laterVisited :=
        NextDelivery(inventories, batchSize, offset, batch, rejected, sent, visited, refused);
      DeliveredIsPrefix(inventories[1..], batchSize, offset + batchSize, batch + 1, rejected, laterSent, laterVisited,
                        refused);
      if refused {
        PrefixJoined(rows, laterSent, laterVisited);
      }
    }
  }

  /** What keeps a row where it is and decides whether it is sent: its id, and whether it has a URL. */
  function Shown(post: Post): (nat, bool) {
    (post.id, HasUrl(post))
  }

  lemma {:induction false} FilteredAlike(a: seq<Post>, b: seq<Post>)
    requires |a| == |b| && forall i :: 0 <= i < |a| ==> Shown(a[i]) == Shown(b[i])
    ensures Ids(Filtered(a, HasUrl)) == Ids(Filtered(b, HasUrl))
  {
    if a != [] {
      var n := |a| - 1;
      FilteredAlike(a[..n], b[..n]);
      assert Shown(a[n]) == Shown(b[n]);
      MappedConcat(Filtered(a[..n], HasUrl), [a[n]], IdOf);
      MappedConcat(Filtered(b[..n], HasUrl), [b[n]], IdOf);
    }
  }

  lemma KeptIds(rows: seq<Post>, keep: Post -> bool)
    ensures forall id :: id in Ids(Filtered(rows, keep)) ==> id in Ids(rows)
  {
    var kept := Filtered(rows, keep);
    forall id | id in Ids(kept) ensures id in Ids(rows) {
      var i :| 0 <= i < |kept| && Ids(kept)[i] == id;
      assert kept[i] in rows;
      var j :| 0 <= j < |rows| && rows[j] == kept[i];
      assert Ids(rows)[j] == id;
    }
  }

  lemma {:induction false} FilteredKeepsIdsDistinct(rows: seq<Post>, keep: Post -> bool)
    requires Distinct(Ids(rows))
    ensures Distinct(Ids(Filtered(rows, keep)))
  {
    if rows != [] {
      var n := |rows| - 1;
      var kept := Filtered(rows[..n], keep);
      assert Ids(rows)[..n] == Ids(rows[..n]);
      FilteredKeepsIdsDistinct(rows[..n], keep);
      MappedConcat(kept, [rows[n]], IdOf);
      KeptIds(rows[..n], keep);
      assert (Ids(kept) + [rows[n].id])[..|kept|] == Ids(kept);
    }
  }

  function SentId<F>(sent: SentItem<F>): nat {
    sent.item.post.id
  }

  function SentKey<F>(sent: SentItem<F>): string {
    sent.item.externalId
  }

  /** Rows with different ids are sent under different external ids. */
  lemma {:induction false} SentKeysDistinct<F>(rows: seq<Post>, findings: Option<map<string, seq<F>>>)
    requires Distinct(Ids(rows))
    ensures Distinct(Mapped(Attached(Mapped(rows, MapPost), findings), SentKey))
  {
    var keys := Mapped(Attached(Mapped(rows, MapPost), findings), SentKey);
    if rows != [] {
      var n := |rows| - 1;
      assert Ids(rows)[..n] == Ids(rows[..n]);
      SentKeysDistinct(rows[..n], findings);
      assert keys[..n] == Mapped(Attached(Mapped(rows[..n], MapPost), findings), SentKey);
      forall i | 0 <= i < n ensures keys[i] != keys[n] {
        assert Ids(rows)[..n][i] != rows[n].id;
        if keys[i] == keys[n] {
          ExternalIdsDiffer(rows[i], rows[n]);
        }
      }
    }
  }

  /** The ids of the rows with a URL that a run reads, as far as no batch is refused. */
  function Reached(inventories: Inventories, batchSize: int): seq<nat>
    requires inventories != []
  {
    Ids(Filtered(Visited(inventories, batchSize, 0), HasUrl))
  }

  /** The ids due in a run: those of the rows with a URL among the first 50 batches' worth. */
  function Due(last: seq<Post>, batchSize: nat): seq<nat> {
    Ids(Filtered(last[..Min(MAX_SYNC_BATCHES * batchSize, |last|)], HasUrl))
  }

  lemma VisitedIsDue(inventories: Inventories, batchSize: int)
    requires 1 <= batchSize <= MAX_BATCH_SIZE
    requires |inventories| == MAX_SYNC_BATCHES && OnlyGrows(inventories, Shown)
    ensures Reached(inventories, batchSize) == Due(LastSeen(inventories, batchSize, 0), batchSize)
  {
    var visited, last := Visited(inventories, batchSize, 0), LastSeen(inventories, batchSize, 0);
    CoversFrom(inventories, Shown, batchSize, 0, visited, last);
    SpanIsProduct(MAX_SYNC_BATCHES, batchSize);
    FilteredAlike(visited, last[..Min(MAX_SYNC_BATCHES * batchSize, |last|)]);
  }

  lemma DueDistinct(last: seq<Post>, batchSize: nat)
    requires Distinct(Ids(last))
    ensures Distinct(Due(last, batchSize))
  {
    var end := Min(MAX_SYNC_BATCHES * batchSize, |last|);
    DistinctPrefix(Ids(last), end);
    assert Ids(last)[..end] == Ids(last[..end]);
    FilteredKeepsIdsDistinct(last[..end], HasUrl);
  }

  lemma MappablePrefix(a: seq<Post>, b: seq<Post>)
    requires a <= b
    ensures Ids(Filtered(a, HasUrl)) <= Ids(Filtered(b, HasUrl))
    ensures |Mappable(a)| == |Ids(Filtered(a, HasUrl))| && |Mappable(b)| == |Ids(Filtered(b, HasUrl))|
  {
    assert b == a + b[|a|..];
    FilteredConcat(a, b[|a|..], HasUrl);
    MappedConcat(Filtered(a, HasUrl), Filtered(b[|a|..], HasUrl), IdOf);
  }

  /** Whatever happens to the inventory, what a run sends are the ids it reached, in order, up to a refused batch,
      and all of them exactly when no batch is refused; different ids go under different external ids. */
  lemma SentIsReached<F>(inventories: Inventories, batchSize: int, findings: Option<map<string, seq<F>>>,
                         rejected: nat -> bool, sent: seq<SentBatch<F>>)
    requires inventories != []
    requires Flat(sent) == Attached(Mappable(Delivered(inventories, batchSize, 0, 0, rejected)), findings)
    ensures var reached, ids := Reached(inventories, batchSize), Mapped(Flat(sent), SentId);
            && ids <= reached && (ids == reached <==> !Refuses(inventories, batchSize, 0, 0, rejected))
            && (Distinct(ids) ==> Distinct(Mapped(Flat(sent), SentKey)))
  {
    var delivered, visited := Delivered(inventories, batchSize, 0, 0, rejected), Visited(inventories, batchSize, 0);
    var reached, ids := Reached(inventories, batchSize), Mapped(Flat(sent), SentId);
    DeliveredIsPrefix(inventories, batchSize, 0, 0, rejected, delivered, visited,
                      Refuses(inventories, batchSize, 0, 0, rejected));
    MappablePrefix(delivered, visited);
    assert ids == Ids(Filtered(delivered, HasUrl)) == reached[..|ids|];
    if Distinct(ids) {
      SentKeysDistinct(Filtered(delivered, HasUrl), findings);
    }
  }

  lemma DistinctStart(start: seq<nat>, whole: seq<nat>)
    requires Distinct(whole) && start <= whole
    ensures Distinct(start)
  {
    DistinctPrefix(whole, |start|);
    assert start == whole[..|start|];
  }

  /** Whatever is edited, deleted or added, when no row stands within two batches the run reaches, it sends every
      id and every external id at most once. */
  lemma SentOnce<F>(inventories: Inventories, batchSize: int, findings: Option<map<string, seq<F>>>,
                    rejected: nat -> bool, sent: seq<SentBatch<F>>)
    requires 1 <= batchSize <= MAX_BATCH_SIZE && |inventories| == MAX_SYNC_BATCHES
    requires AllOrdered(inventories) && NoneCaughtTwice(inventories, batchSize)
    requires Flat(sent) == Attached(Mappable(Delivered(inventories, batchSize, 0, 0, rejected)), findings)
    ensures Distinct(Mapped(Flat(sent), SentId)) && Distinct(Mapped(Flat(sent), SentKey))
  {
    ReadAtMostOnce(inventories, batchSize);
    FilteredKeepsIdsDistinct(Visited(inventories, batchSize, 0), HasUrl);
    SentIsReached(inventories, batchSize, findings, rejected, sent);
    DistinctStart(Mapped(Flat(sent), SentId), Reached(inventories, batchSize));
  }

  /** While the inventory only grows, what a run sends are ids that are due, in order and each once, under
      different external ids; and it sends all that are due exactly when no batch is refused. */
  lemma SentIsDue<F>(inventories: Inventories, batchSize: int, findings: Option<map<string, seq<F>>>,
                     rejected: nat -> bool, sent: seq<SentBatch<F>>)
    requires 1 <= batchSize <= MAX_BATCH_SIZE
    requires |inventories| == MAX_SYNC_BATCHES && OnlyGrows(inventories, Shown)
    requires Distinct(Ids(LastSeen(inventories, batchSize, 0)))
    requires Flat(sent) == Attached(Mappable(Delivered(inventories, batchSize, 0, 0, rejected)), findings)
    ensures var due, ids := Due(LastSeen(inventories, batchSize, 0), batchSize), Mapped(Flat(sent), SentId);
            && ids <= due && Distinct(ids) && Distinct(Mapped(Flat(sent), SentKey))
            && (ids == due <==> !Refuses(inventories, batchSize, 0, 0, rejected))
  {
    VisitedIsDue(inventories, batchSize);
    DueDistinct(LastSeen(inventories, batchSize, 0), batchSize);
    SentIsReached(inventories, batchSize, findings, rejected, sent);
    DistinctStart(Mapped(Flat(sent), SentId), Reached(inventories, batchSize));
  }
}
