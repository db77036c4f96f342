/**
 * The paginated sync (SyncScheduler.php): batches of the inventory are sent until a query comes back
 * short or 50 batches were read. The inventory may change between two batches.
 */
module Sync {
  import opened Prelude
  import opened Collector

  const MAX_SYNC_BATCHES := 50

  /** What the successive batches see: element k is the inventory when batch k is queried. */
  type Inventories = seq<seq<Post>>

  /** An item with the local audit findings attached to it, if there are any for its external id. */
  datatype SentItem<F> = SentItem(item: CollectedItem, localFindings: Option<seq<F>>)

  datatype SentBatch<F> = SentBatch(cursor: int, items: seq<SentItem<F>>)

  datatype Outcome = Success(totalItems: nat) | Failure

  function WithFindings<F>(item: CollectedItem, findings: Option<map<string, seq<F>>>): SentItem<F> {
    SentItem(item, if findings.Some? && item.externalId in findings.value then Some(findings.value[item.externalId])
                   else None)
  }

  function Attached<F>(items: seq<CollectedItem>, findings: Option<map<string, seq<F>>>): (r: seq<SentItem<F>>)
    ensures |r| == |items|
  {
    seq(|items|, i requires 0 <= i < |items| => WithFindings(items[i], findings))
  }

  lemma AttachedConcat<F>(a: seq<CollectedItem>, b: seq<CollectedItem>, findings: Option<map<string, seq<F>>>)
    ensures Attached(a + b, findings) == Attached(a, findings) + Attached(b, findings)
  {
  }

  method AttachLocalFindings<F>(items: seq<CollectedItem>, findings: Option<map<string, seq<F>>>)
    returns (attached: seq<SentItem<F>>)
    ensures attached == Attached(items, findings)
    ensures |attached| == |items| && forall n :: 0 <= n < |items| ==>
              && attached[n].item == items[n]
              && attached[n].localFindings == if findings.Some? && items[n].externalId in findings.value
                                              then Some(findings.value[items[n].externalId]) else None
  {
    attached := [];
    for n := 0 to |items|
      invariant attached == Attached(items[..n], findings)
    {
      var local := None;
      if findings.Some? {
        if items[n].externalId in findings.value {
          local := Some(findings.value[items[n].externalId]);
        }
      }
      attached := attached + [SentItem(items[n], local)];
    }
    assert items[..|items|] == items;
  }

  function ItemOf<F>(sent: SentItem<F>): CollectedItem {
    sent.item
  }

  /** Whatever is attached to carries exactly what is stored for its external id, and nothing when there is nothing. */
  lemma AttachedSays<F>(items: seq<CollectedItem>, findings: Option<map<string, seq<F>>>)
    ensures Mapped(Attached(items, findings), ItemOf) == items
    ensures forall sent :: sent in Attached(items, findings) ==>
              sent.localFindings == if findings.Some? && sent.item.externalId in findings.value
                                    then Some(findings.value[sent.item.externalId]) else None
  {
  }

  // ---------- What a run reads ----------

  /** A batch is the last one when its query came back short or no further batch is allowed. */
  predicate Stops(inventories: Inventories, batchSize: int, offset: int)
    requires inventories != []
  {
    !HasMore(inventories[0], offset, batchSize) || |inventories| == 1
  }

  /** The rows read by the batches that see `inventories`, from an offset on. */
  function Visited(inventories: Inventories, batchSize: int, offset: int): seq<Post>
    requires inventories != []
    decreases |inventories|
  {
    if Stops(inventories, batchSize, offset) then Rows(inventories[0], offset, batchSize)
    else Rows(inventories[0], offset, batchSize) + Visited(inventories[1..], batchSize, offset + batchSize)
  }

  /** The inventory the last batch sees. */
  function LastSeen(inventories: Inventories, batchSize: int, offset: int): seq<Post>
    requires inventories != []
    decreases |inventories|
  {
    if Stops(inventories, batchSize, offset) then inventories[0]
    else LastSeen(inventories[1..], batchSize, offset + batchSize)
  }

  function Mappable(rows: seq<Post>): seq<CollectedItem> {
    Mapped(Filtered(rows, HasUrl), MapPost)
  }

  lemma MappableConcat(a: seq<Post>, b: seq<Post>)
    ensures Mappable(a + b) == Mappable(a) + Mappable(b)
  {
    FilteredConcat(a, b, HasUrl);
    MappedConcat(Filtered(a, HasUrl), Filtered(b, HasUrl), MapPost);
  }

  /** Everything sent, batch after batch. */
  function Flat<F>(batches: seq<SentBatch<F>>): seq<SentItem<F>> {
    if batches == [] then [] else Flat(batches[..|batches| - 1]) + batches[|batches| - 1].items
  }

  lemma FlatAppend<F>(batches: seq<SentBatch<F>>, batch: SentBatch<F>)
    ensures Flat(batches + [batch]) == Flat(batches) + batch.items
  {
    assert (batches + [batch])[..|batches|] == batches;
  }

  lemma SendStep<F>(sent: seq<SentBatch<F>>, visited: seq<Post>, rows: seq<Post>, offset: int,
                    findings: Option<map<string, seq<F>>>)
    requires Flat(sent) == Attached(Mappable(visited), findings)
    ensures var items := Attached(Mappable(rows), findings);
            var after := if items == [] then sent else sent + [SentBatch(offset, items)];
            Flat(after) == Attached(Mappable(visited + rows), findings) && |Flat(after)| == |Flat(sent)| + |items|
  {
    MappableConcat(visited, rows);
    AttachedConcat(Mappable(visited), Mappable(rows), findings);
    FlatAppend(sent, SentBatch(offset, Attached(Mappable(rows), findings)));
  }

  /** The batch of these rows is refused: it has something to send and the platform does not take it. */
  predicate IsRefused(rows: seq<Post>, batch: nat, rejected: nat -> bool) {
    Mappable(rows) != [] && rejected(batch)
  }

  /** Some batch the run reaches is refused. */
  predicate Refuses(inventories: Inventories, batchSize: int, offset: int, batch: nat, rejected: nat -> bool)
    requires inventories != []
    decreases |inventories|
  {
    IsRefused(Rows(inventories[0], offset, batchSize), batch, rejected)
    || (!Stops(inventories, batchSize, offset)
        && Refuses(inventories[1..], batchSize, offset + batchSize, batch + 1, rejected))
  }

  /** The rows visited before the first refused batch, all of them when none is refused. */
  function Delivered(inventories: Inventories, batchSize: int, offset: int, batch: nat,
                     rejected: nat -> bool): seq<Post>
    requires inventories != []
    decreases |inventories|
  {
    var rows := Rows(inventories[0], offset, batchSize);
    if IsRefused(rows, batch, rejected) then []
    else if Stops(inventories, batchSize, offset) then rows
    else rows + Delivered(inventories[1..], batchSize, offset + batchSize, batch + 1, rejected)
  }

  /** What is still to come of a run after its first batches. */
  ghost predicate Remaining(whole: (seq<Post>, bool), visited: seq<Post>, pending: Inventories, batchSize: int,
                            offset: int, batch: nat, rejected: nat -> bool, more: bool)
  {
    if more then
      && pending != []
      && whole.0 == visited + Delivered(pending, batchSize, offset, batch, rejected)
      && whole.1 == Refuses(pending, batchSize, offset, batch, rejected)
    else whole == (visited, false)
  }

  lemma RemainingStep(whole: (seq<Post>, bool), visited: seq<Post>, pending: Inventories, batchSize: int, offset: int,
                      batch: nat, rejected: nat -> bool)
    requires Remaining(whole, visited, pending, batchSize, offset, batch, rejected, true)
    ensures var rows := Rows(pending[0], offset, batchSize);
            if IsRefused(rows, batch, rejected) then whole == (visited, true)
            else Remaining(whole, visited + rows, pending[1..], batchSize, offset + batchSize, batch + 1, rejected,
                           !Stops(pending, batchSize, offset))
  {
    var rows := Rows(pending[0], offset, batchSize);
    if IsRefused(rows, batch, rejected) {
      assert visited + [] == visited;
    } else if !Stops(pending, batchSize, offset) {
      ConcatAssociates(visited, rows, Delivered(pending[1..], batchSize, offset + batchSize, batch + 1, rejected));
    }
  }

  lemma VisitedStep(inventories: Inventories, batchSize: int, offset: int, visited: seq<Post>)
    requires inventories != []
    ensures var rows := Rows(inventories[0], offset, batchSize);
            visited + Visited(inventories, batchSize, offset)
            == if Stops(inventories, batchSize, offset) then visited + rows
               else (visited + rows) + Visited(inventories[1..], batchSize, offset + batchSize)
  {
    if !Stops(inventories, batchSize, offset) {
      ConcatAssociates(visited, Rows(inventories[0], offset, batchSize),
                       Visited(inventories[1..], batchSize, offset + batchSize));
    }
  }

  /** `sent` holds the mappable rows visited so far, with their findings. */
  ghost predicate SentSoFar<F>(sent: seq<SentBatch<F>>, visited: seq<Post>, findings: Option<map<string, seq<F>>>,
                               total: nat)
  {
    Flat(sent) == Attached(Mappable(visited), findings) && total == |Flat(sent)|
  }

  lemma SentSoFarStep<F>(sent: seq<SentBatch<F>>, visited: seq<Post>, rows: seq<Post>, items: seq<SentItem<F>>,
                         offset: int, findings: Option<map<string, seq<F>>>, total: nat)
    requires SentSoFar(sent, visited, findings, total) && items == Attached(Mappable(rows), findings)
    ensures items == [] <==> Mappable(rows) == []
    ensures SentSoFar(if items == [] then sent else sent + [SentBatch(offset, items)], visited + rows, findings,
                      total + |items|)
  {
    SendStep(sent, visited, rows, offset, findings);
  }

  /** A run so far: what it sent, and what is still to come. */
  ghost predicate Progress<F>(sent: seq<SentBatch<F>>, total: nat, whole: (seq<Post>, bool), visited: seq<Post>,
                              pending: Inventories, batchSize: int, offset: int, batch: nat, rejected: nat -> bool,
                              findings: Option<map<string, seq<F>>>, more: bool)
  {
    Remaining(whole, visited, pending, batchSize, offset, batch, rejected, more)
        && SentSoFar(sent, visited, findings, total)
  }

  lemma ProgressStarts<F>(inventories: Inventories, batchSize: int, rejected: nat -> bool,
                          findings: Option<map<string, seq<F>>>)
    requires inventories != []
    ensures Progress<F>([], 0,
                        (Delivered(inventories, batchSize, 0, 0, rejected),
                         Refuses(inventories, batchSize, 0, 0, rejected)),
                        [], inventories, batchSize, 0, 0, rejected, findings, true)
  {
    var all := Delivered(inventories, batchSize, 0, 0, rejected);
    assert [] + all == all;
    assert Mappable([]) == [];
  }

  /** What sending one batch makes of what was sent: it adds the items of the batch, if there are any and they
      are not refused, and tells whether the query came back full. */
  ghost predicate IsSent<F>(after: seq<SentBatch<F>>, count: nat, full: bool, refused: bool, sent: seq<SentBatch<F>>,
                            total: nat, inventory: seq<Post>, batchSize: int, offset: int, batch: nat,
                            findings: Option<map<string, seq<F>>>, rejected: nat -> bool)
  {
    var items := Attached(Mappable(Rows(inventory, offset, batchSize)), findings);
    && full == HasMore(inventory, offset, batchSize) && refused == (items != [] && rejected(batch))
    && after == (if items == [] || refused then sent else sent + [SentBatch(offset, items)])
    && count == (if refused then total else total + |items|)
  }

  /** After one more batch, `rows` being what it read. */
  lemma ProgressStep<F>(sent: seq<SentBatch<F>>, total: nat, whole: (seq<Post>, bool), visited: seq<Post>,
                        pending: Inventories, batchSize: int, offset: int, batch: nat, rejected: nat -> bool,
                        findings: Option<map<string, seq<F>>>, after: seq<SentBatch<F>>, count: nat, full: bool,
                        refused: bool)
    returns (rows: seq<Post>)
    requires pending != []
    requires Progress(sent, total, whole, visited, pending, batchSize, offset, batch, rejected, findings, true)
    requires IsSent(after, count, full, refused, sent, total, pending[0], batchSize, offset, batch, findings, rejected)
    ensures if refused then whole.1 && Flat(after) == Attached(Mappable(whole.0), findings)
            else Progress(after, count, whole, visited + rows, pending[1..], batchSize, offset + batchSize, batch + 1,
                          rejected, findings, full && |pending| > 1)
  {
    rows := Rows(pending[0], offset, batchSize);
    var items := Attached(Mappable(rows), findings);
    RemainingStep(whole, visited, pending, batchSize, offset, batch, rejected);
    SentSoFarStep(sent, visited, rows, items, offset, findings, total);
  }

  lemma ProgressEnds<F>(sent: seq<SentBatch<F>>, total: nat, whole: (seq<Post>, bool), visited: seq<Post>,
                        pending: Inventories, batchSize: int, offset: int, batch: nat, rejected: nat -> bool,
                        findings: Option<map<string, seq<F>>>)
    requires Progress(sent, total, whole, visited, pending, batchSize, offset, batch, rejected, findings, false)
    ensures !whole.1 && Flat(sent) == Attached(Mappable(whole.0), findings) && total == |Flat(sent)|
  {
  }

  class SyncScheduler {
    const batchSize: int

    constructor (batchSize: int)
      ensures this.batchSize == batchSize
    {
      this.batchSize := batchSize;
    }

    /** One batch: it is collected, its findings are attached, and it is sent unless it is empty. */
    method SendBatch<F>(sent: seq<SentBatch<F>>, total: nat, inventory: seq<Post>, offset: int, batch: nat,
                        findings: Option<map<string, seq<F>>>, rejected: nat -> bool)
      returns (after: seq<SentBatch<F>>, count: nat, full: bool, refused: bool)
      ensures IsSent(after, count, full, refused, sent, total, inventory, batchSize, offset, batch, findings, rejected)
    {
      var page := CollectBatch(inventory, offset, batchSize);
      var items := AttachLocalFindings(page.items, findings);
      after, count, full, refused := sent, total, page.hasMore, false;
      if items != [] {
        if rejected(batch) {
          refused := true;
        } else {
          after := sent + [SentBatch(offset, items)];
          count := total + |items|;
        }
      }
    }

    /** The loop over the batches. */
    method SendBatches<F>(inventories: Inventories, findings: Option<map<string, seq<F>>>, rejected: nat -> bool,
                          ghost whole: (seq<Post>, bool))
      returns (sent: seq<SentBatch<F>>, outcome: Outcome)
      requires |inventories| == MAX_SYNC_BATCHES
      requires Progress<F>([], 0, whole, [], inventories, batchSize, 0, 0, rejected, findings, true)
      ensures Flat(sent) == Attached(Mappable(whole.0), findings)
      ensures outcome == if whole.1 then Failure else Success(|Flat(sent)|)
    {
      var offset := 0;
      var batches: nat, totalItems: nat := 0, 0;
      sent := [];
      ghost var visited: seq<Post> := [];
      var pending, more := inventories, true;
      while more
        invariant batches + |pending| == MAX_SYNC_BATCHES && (more ==> pending != [])
        invariant Progress(sent, totalItems, whole, visited, pending, batchSize, offset, batches, rejected, findings,
                           more)
        decreases more, |pending|
      {
        var after, count, full, refused := SendBatch(sent, totalItems, pending[0], offset, batches, findings, rejected);
        ghost var rows := ProgressStep(sent, totalItems, whole, visited, pending, batchSize, offset, batches, rejected,
                                       findings, after, count, full, refused);
        sent, totalItems := after, count;
        if refused {
          return sent, Failure;
        }
        visited := visited + rows;
        offset := offset + batchSize;
        batches := batches + 1;
        more := full && batches < MAX_SYNC_BATCHES;
        pending := pending[1..];
      }
      ProgressEnds(sent, totalItems, whole, visited, pending, batchSize, offset, batches, rejected, findings);
      outcome := Success(totalItems);
    }

    /** One run while connected. `rejected(k)` says that the platform refuses batch `k`. A run sends the
        mappable rows it visits, with their findings, up to the first batch that is refused; it fails exactly
        when one is, and records the number sent otherwise. */
    method RunSync<F>(inventories: Inventories, findings: Option<map<string, seq<F>>>, rejected: nat -> bool)
      returns (sent: seq<SentBatch<F>>, outcome: Outcome)
      requires |inventories| == 50
      ensures Flat(sent) == Attached(Mappable(Delivered(inventories, batchSize, 0, 0, rejected)), findings)
      ensures Mapped(Flat(sent), ItemOf) == Mappable(Delivered(inventories, batchSize, 0, 0, rejected))
      ensures forall item :: item in Flat(sent) ==>
                item.localFindings == if findings.Some? && item.item.externalId in findings.value
                                      then Some(findings.value[item.item.externalId]) else None
      ensures outcome == if Refuses(inventories, batchSize, 0, 0, rejected) then Failure else Success(|Flat(sent)|)
    {
      ghost var whole := (Delivered(inventories, batchSize, 0, 0, rejected),
                          Refuses(inventories, batchSize, 0, 0, rejected));
      ProgressStarts(inventories, batchSize, rejected, findings);
      sent, outcome := SendBatches(inventories, findings, rejected, whole);
      AttachedSays(Mappable(whole.0), findings);
    }
  }

  // ---------- What a run covers ----------

  function IdOf(post: Post): nat {
    post.id
  }

  function Ids(rows: seq<Post>): seq<nat> {
    Mapped(rows, IdOf)
  }

  /** `rows` shows as a prefix of `later`. */
  ghost predicate Extends<T>(rows: seq<Post>, later: seq<Post>, view: Post -> T) {
    |rows| <= |later|
    && forall i {:trigger view(later[i])} {:trigger view(rows[i])} ::
         0 <= i < |rows| ==> view(later[i]) == view(rows[i])
  }

  /** Between two batches rows are edited in place or appended: what `view` shows of the earlier rows,
      their ids say, stays where it is. */
  ghost predicate OnlyGrows<T>(inventories: Inventories, view: Post -> T) {
    |inventories| <= 1 || (Extends(inventories[0], inventories[1], view) && OnlyGrows(inventories[1..], view))
  }

  lemma ExtendsTrans<T>(a: seq<Post>, b: seq<Post>, c: seq<Post>, view: Post -> T)
    requires Extends(a, b, view) && Extends(b, c, view)
    ensures Extends(a, c, view)
  {
  }

  function Span(batches: nat, batchSize: nat): nat {
    if batches == 0 then 0 else batchSize + Span(batches - 1, batchSize)
  }

  lemma {:induction false} SpanIsProduct(batches: nat, batchSize: nat)
    ensures Span(batches, batchSize) == batches * batchSize
  {
    if batches > 0 {
      SpanIsProduct(batches - 1, batchSize);
    }
  }

  lemma RowsInRange(rows: seq<Post>, batchSize: int, offset: int)
    requires 1 <= batchSize <= MAX_BATCH_SIZE && 0 <= offset <= |rows|
    ensures Rows(rows, offset, batchSize) == rows[offset..Min(offset + batchSize, |rows|)]
    ensures HasMore(rows, offset, batchSize) <==> offset + batchSize <= |rows|
  {
  }

  /** `visited` shows what the rows of `last` from `offset` up to `end` show. */
  ghost predicate Shows<T>(visited: seq<Post>, last: seq<Post>, view: Post -> T, offset: int, end: int) {
    0 <= offset <= end <= |last| && |visited| == end - offset
    && forall i :: 0 <= i < |visited| ==> view(visited[i]) == view(last[offset + i])
  }

  lemma ShowsJoined<T>(rows: seq<Post>, rest: seq<Post>, last: seq<Post>, view: Post -> T, offset: int, next: int,
                       end: int)
    requires 0 <= offset <= next <= |rows| && Extends(rows, last, view) && Shows(rest, last, view, next, end)
    ensures Shows(rows[offset..next] + rest, last, view, offset, end)
  {
    var visited := rows[offset..next] + rest;
    forall i | 0 <= i < |visited| ensures view(visited[i]) == view(last[offset + i]) {
      if i >= next - offset {
        assert visited[i] == rest[i - (next - offset)];
      }
    }
  }

  lemma VisitedFullBatch(inventories: Inventories, batchSize: int, offset: int)
    requires 1 <= batchSize <= MAX_BATCH_SIZE && |inventories| > 1 && 0 <= offset
    requires offset + batchSize <= |inventories[0]|
    ensures var next := offset + batchSize;
            Visited(inventories, batchSize, offset)
            == inventories[0][offset..next] + Visited(inventories[1..], batchSize, next)
    ensures LastSeen(inventories, batchSize, offset) == LastSeen(inventories[1..], batchSize, offset + batchSize)
  {
    RowsInRange(inventories[0], batchSize, offset);
  }

  lemma VisitedLastBatch(inventories: Inventories, batchSize: int, offset: int)
    requires 1 <= batchSize <= MAX_BATCH_SIZE && inventories != [] && 0 <= offset <= |inventories[0]|
    requires offset + batchSize > |inventories[0]| || |inventories| == 1
    ensures Visited(inventories, batchSize, offset)
         == inventories[0][offset..Min(offset + batchSize, |inventories[0]|)]
    ensures LastSeen(inventories, batchSize, offset) == inventories[0]
  {
    RowsInRange(inventories[0], batchSize, offset);
  }

  /** `Visited` and `LastSeen` show the first `left` batches' worth of rows from an offset on. */
  ghost predicate Covers<T>(visited: seq<Post>, last: seq<Post>, view: Post -> T, offset: int, batchSize: nat,
                            left: nat)
  {
    offset >= 0 && Shows(visited, last, view, offset, Min(offset + Span(left, batchSize), |last|))
  }

  lemma CoversOneMore<T>(rows: seq<Post>, rest: seq<Post>, last: seq<Post>, view: Post -> T,
                         offset: int, batchSize: nat, left: nat)
    requires left > 0 && 0 <= offset && offset + batchSize <= |rows| && Extends(rows, last, view)
    requires Covers(rest, last, view, offset + batchSize, batchSize, left - 1)
    ensures Covers(rows[offset..offset + batchSize] + rest, last, view, offset, batchSize, left)
  {
    ShowsJoined(rows, rest, last, view, offset, offset + batchSize,
                Min(offset + batchSize + Span(left - 1, batchSize), |last|));
  }

  lemma CoversLast<T>(rows: seq<Post>, view: Post -> T, offset: int, batchSize: nat, left: nat)
    requires left > 0 && 0 <= offset <= |rows| && (offset + batchSize > |rows| || left == 1)
    ensures Covers(rows[offset..Min(offset + batchSize, |rows|)], rows, view, offset, batchSize, left)
  {
    assert Span(left, batchSize) == batchSize + Span(left - 1, batchSize);
  }

  /** `visited` covers the first `left` batches' worth of `last`, which extends `rows`. */
  ghost predicate Reads<T>(rows: seq<Post>, visited: seq<Post>, last: seq<Post>, view: Post -> T,
                           offset: int, batchSize: nat, left: nat)
  {
    Extends(rows, last, view) && Covers(visited, last, view, offset, batchSize, left)
  }

  lemma ReadsOneMore<T>(visited: seq<Post>, rows: seq<Post>, later: seq<Post>, rest: seq<Post>, last: seq<Post>,
                        view: Post -> T, offset: int, batchSize: nat, left: nat)
    requires left > 0 && 0 <= offset && offset + batchSize <= |rows| && Extends(rows, later, view)
    requires Reads(later, rest, last, view, offset + batchSize, batchSize, left - 1)
    requires visited == rows[offset..offset + batchSize] + rest
    ensures Reads(rows, visited, last, view, offset, batchSize, left)
  {
    ExtendsTrans(rows, later, last, view);
    CoversOneMore(rows, rest, last, view, offset, batchSize, left);
  }

  ghost predicate IsRun(inventories: Inventories, batchSize: int, offset: int, visited: seq<Post>, last: seq<Post>) {
    inventories != [] && visited == Visited(inventories, batchSize, offset)
        && last == LastSeen(inventories, batchSize, offset)
  }

  lemma NextBatch(inventories: Inventories, batchSize: int, offset: int, visited: seq<Post>, last: seq<Post>)
    returns (rest: seq<Post>)
    requires 1 <= batchSize <= MAX_BATCH_SIZE && |inventories| > 1 && 0 <= offset
    requires offset + batchSize <= |inventories[0]| && IsRun(inventories, batchSize, offset, visited, last)
    ensures IsRun(inventories[1..], batchSize, offset + batchSize, rest, last)
    ensures visited == inventories[0][offset..offset + batchSize] + rest
  {
    rest := Visited(inventories[1..], batchSize, offset + batchSize);
    VisitedFullBatch(inventories, batchSize, offset);
  }

  lemma GrowsOn<T>(inventories: Inventories, view: Post -> T)
    requires |inventories| > 1 && OnlyGrows(inventories, view)
    ensures inventories[1..][0] == inventories[1]
    ensures Extends(inventories[0], inventories[1], view) && OnlyGrows(inventories[1..], view)
    ensures |inventories[0]| <= |inventories[1]|
  {
  }

  /** What a run visits from an offset on covers the inventory its last batch sees. */
  lemma {:induction false} CoversFrom<T>(inventories: Inventories, view: Post -> T, batchSize: int, offset: int,
                                         visited: seq<Post>, last: seq<Post>)
    requires 1 <= batchSize <= MAX_BATCH_SIZE && inventories != [] && OnlyGrows(inventories, view)
    requires 0 <= offset <= |inventories[0]|
    requires IsRun(inventories, batchSize, offset, visited, last)
    ensures Reads(inventories[0], visited, last, view, offset, batchSize, |inventories|)
    decreases |inventories|
  {
    if offset + batchSize <= |inventories[0]| && |inventories| > 1 {
      var later := inventories[1..];
      var rest := NextBatch(inventories, batchSize, offset, visited, last);
      GrowsOn(inventories, view);
      CoversFrom(later, view, batchSize, offset + batchSize, rest, last);
      ReadsOneMore(visited, inventories[0], inventories[1], rest, last, view, offset, batchSize, |inventories|);
    } else {
      VisitedLastBatch(inventories, batchSize, offset);
      CoversLast(inventories[0], view, offset, batchSize, |inventories|);
    }
  }

  /** With a batch size from 1 to 250 a run visits, once each and in id order, the first 50 batches'
      worth of the inventory its last batch sees, which extends the inventory it started from. */
  lemma VisitsEveryRowOnce(inventories: Inventories, batchSize: int)
    requires 1 <= batchSize <= MAX_BATCH_SIZE
    requires |inventories| == MAX_SYNC_BATCHES && OnlyGrows(inventories, IdOf)
    ensures var last := LastSeen(inventories, batchSize, 0);
            Ids(Visited(inventories, batchSize, 0)) == Ids(last)[..Min(MAX_SYNC_BATCHES * batchSize, |last|)]
            && Extends(inventories[0], last, IdOf)
  {
    CoversFrom(inventories, IdOf, batchSize, 0, Visited(inventories, batchSize, 0),
               LastSeen(inventories, batchSize, 0));
    SpanIsProduct(MAX_SYNC_BATCHES, batchSize);
  }

  // ---------- Exactly the batch sizes that work ----------

  function Unchanging(inventory: seq<Post>, batches: nat): Inventories {
    seq(batches, _ => inventory)
  }

  /** Every inventory that does not change is read from the front, 50 batches' worth of it. */
  ghost predicate ReadsEverything(batchSize: int) {
    forall inventory: seq<Post> ::
      Visited(Unchanging(inventory, MAX_SYNC_BATCHES), batchSize, 0)
      == inventory[..Clamp(MAX_SYNC_BATCHES * batchSize, |inventory|)]
  }

  function Itself(post: Post): Post {
    post
  }

  lemma {:induction false} UnchangingGrows(inventory: seq<Post>, batches: nat)
    requires batches > 0
    ensures OnlyGrows(Unchanging(inventory, batches), Itself)
    ensures forall batchSize, offset :: LastSeen(Unchanging(inventory, batches), batchSize, offset) == inventory
  {
    if batches > 1 {
      UnchangingGrows(inventory, batches - 1);
      assert Unchanging(inventory, batches)[1..] == Unchanging(inventory, batches - 1);
    }
  }

  lemma ReadsUnchanging(inventory: seq<Post>, batchSize: int)
    requires 1 <= batchSize <= MAX_BATCH_SIZE
    ensures Visited(Unchanging(inventory, MAX_SYNC_BATCHES), batchSize, 0)
         == inventory[..Clamp(MAX_SYNC_BATCHES * batchSize, |inventory|)]
  {
    var inventories := Unchanging(inventory, MAX_SYNC_BATCHES);
    UnchangingGrows(inventory, MAX_SYNC_BATCHES);
    CoversFrom(inventories, Itself, batchSize, 0, Visited(inventories, batchSize, 0),
               LastSeen(inventories, batchSize, 0));
    SpanIsProduct(MAX_SYNC_BATCHES, batchSize);
  }

  lemma LargeBatchSkips(inventory: seq<Post>, batchSize: int)
    requires batchSize > MAX_BATCH_SIZE && |inventory| == MAX_BATCH_SIZE + 1
    ensures Visited(Unchanging(inventory, MAX_SYNC_BATCHES), batchSize, 0) == inventory[..MAX_BATCH_SIZE]
  {
    var inventories := Unchanging(inventory, MAX_SYNC_BATCHES);
    assert Rows(inventory, 0, batchSize) == inventory[..MAX_BATCH_SIZE];
    assert Rows(inventory, batchSize, batchSize) == [];
    assert Visited(inventories[1..], batchSize, batchSize) == [];
  }

  lemma SmallBatchRepeats(post: Post, batchSize: int)
    requires batchSize < 1
    ensures |Visited(Unchanging([post], MAX_SYNC_BATCHES), batchSize, 0)| > 0
  {
    assert Rows([post], 0, batchSize) == [post];
  }

  /** The offset advances by the requested size, the query by the bounded one: the sizes that read
      everything are exactly 1 to 250. */
  lemma BatchSizesThatWork(batchSize: int, post: Post)
    ensures ReadsEverything(batchSize) <==> 1 <= batchSize <= 250
  {
    if 1 <= batchSize <= MAX_BATCH_SIZE {
      forall inventory: seq<Post>
        ensures Visited(Unchanging(inventory, MAX_SYNC_BATCHES), batchSize, 0)
             == inventory[..Clamp(MAX_SYNC_BATCHES * batchSize, |inventory|)]
      {
        ReadsUnchanging(inventory, batchSize);
      }
    } else if batchSize > MAX_BATCH_SIZE {
      var inventory := seq(MAX_BATCH_SIZE + 1, _ => post);
      LargeBatchSkips(inventory, batchSize);
      assert Visited(Unchanging(inventory, MAX_SYNC_BATCHES), batchSize, 0)
          != inventory[..Clamp(MAX_SYNC_BATCHES * batchSize, |inventory|)];
    } else {
      SmallBatchRepeats(post, batchSize);
      assert Visited(Unchanging([post], MAX_SYNC_BATCHES), batchSize, 0)
          != [post][..Clamp(MAX_SYNC_BATCHES * batchSize, |[post]|)];
    }
  }
}
