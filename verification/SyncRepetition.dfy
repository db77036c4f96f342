/** How often a sync run (SyncScheduler.php) reads a row when the inventory changes between its batches. */
module SyncRepetition {
  import opened Prelude
  import opened Collector
  import opened Sync
  import opened SyncCoverage

  function HasId(id: nat): Post -> bool {
    (post: Post) => post.id == id
  }

  lemma IdsHold(rows: seq<Post>, id: nat)
    ensures id in Ids(rows) <==> Holds(rows, id)
  {
    if Holds(rows, id) {
      var i :| 0 <= i < |rows| && rows[i].id == id;
      assert Ids(rows)[i] == id;
    }
    if id in Ids(rows) {
      var i :| 0 <= i < |rows| && Ids(rows)[i] == id;
      assert rows[i].id == id;
    }
  }

  lemma {:induction false} CountHolds(rows: seq<Post>, id: nat)
    ensures Count(rows, HasId(id)) > 0 <==> Holds(rows, id)
  {
    if rows != [] {
      var before, last := rows[..|rows| - 1], rows[|rows| - 1];
      CountHolds(before, id);
      assert rows == before + [last];
      HoldsConcat(before, [last], id);
      assert Holds([last], id) <==> [last][0].id == id;
    }
  }

  lemma {:induction false} CountInOrder(rows: seq<Post>, id: nat)
    requires Ordered(rows)
    ensures Count(rows, HasId(id)) == if Holds(rows, id) then 1 else 0
  {
    CountHolds(rows, id);
    if rows != [] {
      var before := rows[..|rows| - 1];
      CountInOrder(before, id);
      CountHolds(before, id);
    }
  }

  /** The number of batches the run reaches that are queried while the row stands within them. */
  ghost function Catches(inventories: Inventories, batchSize: int, offset: int, id: nat): nat
    requires inventories != []
    decreases |inventories|
  {
    (if StandsIn(inventories[0], offset, batchSize, id) then 1 else 0)
    + if Stops(inventories, batchSize, offset) then 0
      else Catches(inventories[1..], batchSize, offset + batchSize, id)
  }

  lemma CountInBatch(inventory: seq<Post>, offset: int, batchSize: int, id: nat)
    requires 1 <= batchSize <= MAX_BATCH_SIZE && offset >= 0 && Ordered(inventory)
    ensures Count(Rows(inventory, offset, batchSize), HasId(id))
         == if StandsIn(inventory, offset, batchSize, id) then 1 else 0
  {
    RowsHold(inventory, offset, batchSize, id);
    CountInOrder(Rows(inventory, offset, batchSize), id);
  }

  /** `visited` is what a run reads, `catches` the number of its batches that catch the row. */
  ghost predicate IsCatching(inventories: Inventories, batchSize: int, offset: int, id: nat, visited: seq<Post>,
                             catches: nat)
  {
    && inventories != []
    && visited == Visited(inventories, batchSize, offset)
    && catches == Catches(inventories, batchSize, offset, id)
  }

  lemma NextCatching(inventories: Inventories, batchSize: int, offset: int, id: nat, visited: seq<Post>, catches: nat)
    returns (rest: seq<Post>, later: nat)
    requires IsCatching(inventories, batchSize, offset, id, visited, catches)
    requires !Stops(inventories, batchSize, offset)
    ensures |inventories| > 1 && IsCatching(inventories[1..], batchSize, offset + batchSize, id, rest, later)
    ensures visited == Rows(inventories[0], offset, batchSize) + rest
    ensures catches == (if StandsIn(inventories[0], offset, batchSize, id) then 1 else 0) + later
  {
    rest := Visited(inventories[1..], batchSize, offset + batchSize);
    later := Catches(inventories[1..], batchSize, offset + batchSize, id);
  }

  /** However the inventory changes, a row is read as often as a batch catches it. */
  lemma {:induction false} ReadAsOftenAsCaught(inventories: Inventories, batchSize: int, offset: int, id: nat,
                                               visited: seq<Post>, catches: nat)
    requires 1 <= batchSize <= MAX_BATCH_SIZE && offset >= 0 && AllOrdered(inventories)
    requires IsCatching(inventories, batchSize, offset, id, visited, catches)
    ensures Count(visited, HasId(id)) == catches
    decreases |inventories|
  {
    CountInBatch(inventories[0], offset, batchSize, id);
    if !Stops(inventories, batchSize, offset) {
      var rest, later := NextCatching(inventories, batchSize, offset, id, visited, catches);
      ReadAsOftenAsCaught(inventories[1..], batchSize, offset + batchSize, id, rest, later);
      CountConcat(Rows(inventories[0], offset, batchSize), rest, HasId(id));
    }
  }

  /** No row stands within two batches the run reaches. */
  ghost predicate NoneCaughtTwice(inventories: Inventories, batchSize: int)
    requires inventories != []
  {
    forall id :: Catches(inventories, batchSize, 0, id) <= 1
  }

  lemma {:induction false} DistinctByCount(rows: seq<Post>)
    ensures Distinct(Ids(rows)) <==> forall id :: Count(rows, HasId(id)) <= 1
  {
    if rows != [] {
      var before, last := rows[..|rows| - 1], rows[|rows| - 1];
      assert Ids(rows)[..|before|] == Ids(before);
      DistinctByCount(before);
      forall id ensures Count(rows, HasId(id)) == Count(before, HasId(id)) + if id == last.id then 1 else 0 {
      }
      CountHolds(before, last.id);
      IdsHold(before, last.id);
      if last.id in Ids(before) {
        assert Count(rows, HasId(last.id)) > 1;
      }
      if Distinct(Ids(before)) && last.id !in Ids(before) {
        forall id ensures Count(rows, HasId(id)) <= 1 {
          assert Count(before, HasId(id)) <= 1;
        }
      }
      if !Distinct(Ids(before)) {
        var id :| Count(before, HasId(id)) > 1;
        assert Count(rows, HasId(id)) > 1;
      }
    }
  }

  /** However the inventory changes, a run reads every row at most once exactly when no row stands within two
      batches it reaches. */
  lemma ReadAtMostOnce(inventories: Inventories, batchSize: int)
    requires 1 <= batchSize <= MAX_BATCH_SIZE && inventories != [] && AllOrdered(inventories)
    ensures Distinct(Ids(Visited(inventories, batchSize, 0))) <==> NoneCaughtTwice(inventories, batchSize)
  {
    var visited := Visited(inventories, batchSize, 0);
    DistinctByCount(visited);
    forall id ensures Count(visited, HasId(id)) == Catches(inventories, batchSize, 0, id) {
      ReadAsOftenAsCaught(inventories, batchSize, 0, id, visited, Catches(inventories, batchSize, 0, id));
    }
  }

  lemma {:induction false} CaughtIsCatches(inventories: Inventories, batchSize: int, offset: int, id: nat)
    requires inventories != []
    ensures Caught(inventories, batchSize, offset, id) <==> Catches(inventories, batchSize, offset, id) > 0
    decreases |inventories|
  {
    if !Stops(inventories, batchSize, offset) {
      CaughtIsCatches(inventories[1..], batchSize, offset + batchSize, id);
    }
  }

  /** A row that never comes back is caught at most once. */
  lemma {:induction false} CaughtOnce(inventories: Inventories, batchSize: int, offset: int, id: nat)
    requires 1 <= batchSize && inventories != [] && NeverComesBack(inventories, batchSize, offset, id)
    ensures Catches(inventories, batchSize, offset, id) <= 1
    decreases |inventories|
  {
    if !Stops(inventories, batchSize, offset) {
      var later, next := inventories[1..], offset + batchSize;
      CaughtOnce(later, batchSize, next, id);
      if StandsIn(inventories[0], offset, batchSize, id) {
        PassedStaysPassed(later, batchSize, next, id);
        CaughtIsCatches(later, batchSize, next, id);
      }
    }
  }

  /** So a run in which no row comes back reads every row at most once, whatever is deleted or edited. */
  lemma NoneCaughtTwiceUnlessBack(inventories: Inventories, batchSize: int)
    requires 1 <= batchSize && inventories != [] && forall id :: NeverComesBack(inventories, batchSize, 0, id)
    ensures NoneCaughtTwice(inventories, batchSize)
  {
    forall id ensures Catches(inventories, batchSize, 0, id) <= 1 {
      assert NeverComesBack(inventories, batchSize, 0, id);
      CaughtOnce(inventories, batchSize, 0, id);
    }
  }

  /** A row that is there throughout and never comes back is read exactly once, or not at all when it slips past. */
  lemma ReadExactlyOnce(inventories: Inventories, batchSize: int, id: nat)
    requires 1 <= batchSize <= MAX_BATCH_SIZE && |inventories| == MAX_SYNC_BATCHES
    requires AllOrdered(inventories) && AlwaysHold(inventories, id) && NeverComesBack(inventories, batchSize, 0, id)
    ensures Count(Visited(inventories, batchSize, 0), HasId(id))
         == if SlipsPast(inventories, batchSize, 0, id) then 0 else 1
  {
    var visited := Visited(inventories, batchSize, 0);
    MissedExactly(inventories, batchSize, id);
    CountHolds(visited, id);
    CaughtOnce(inventories, batchSize, 0, id);
    ReadAsOftenAsCaught(inventories, batchSize, 0, id, visited, Catches(inventories, batchSize, 0, id));
  }

  /** A run over 50 batches that reads a row twice: another row comes in before it after the first batch. */
  lemma InsertionRepeatsARow(first: Post, second: Post)
    requires first.id < second.id
    ensures var inventories := [[second]] + Unchanging([first, second], MAX_SYNC_BATCHES - 1);
            && |inventories| == MAX_SYNC_BATCHES && AllOrdered(inventories)
            && !NeverComesBack(inventories, 1, 0, second.id) && !NoneCaughtTwice(inventories, 1)
            && Visited(inventories, 1, 0) == [second, second]
  {
    var later := Unchanging([first, second], MAX_SYNC_BATCHES - 1);
    var inventories := [[second]] + later;
    assert inventories[1..] == later;
    RankIsIndex([second], 0);
    assert [first, second][1].id == second.id && [second][0].id == second.id;
    RankIsIndex([first, second], 1);
    assert Rows([second], 0, 1) == [second];
    assert Rows([first, second], 1, 1) == [second];
    assert Rows([first, second], 2, 1) == [];
    assert later[1..][0] == [first, second];
    assert Visited(later[1..], 1, 2) == [];
    assert Visited(later, 1, 1) == [second];
    ReadAtMostOnce(inventories, 1);
    assert Ids([second, second])[..1][0] == Ids([second, second])[1];
  }

  // ---------- An inventory that only grows ----------

  lemma {:induction false} RankOfNone(rows: seq<Post>, id: nat)
    requires forall i :: 0 <= i < |rows| ==> id <= rows[i].id
    ensures Rank(rows, id) == 0
  {
    if rows != [] {
      RankOfNone(rows[..|rows| - 1], id);
    }
  }

  lemma RankOfSameIds(a: seq<Post>, b: seq<Post>, id: nat)
    requires |a| == |b| && forall i :: 0 <= i < |a| ==> a[i].id == b[i].id
    ensures Rank(a, id) == Rank(b, id)
  {
    CountSame(a, b, Below(id), Below(id));
  }

  /** Rows appended to an inventory have later ids, and the rows before them keep theirs. */
  lemma AppendedBehind(rows: seq<Post>, later: seq<Post>, id: nat, k: nat)
    requires Ordered(later) && k < |rows| && Extends(rows, later, IdOf) && id <= rows[k].id
    ensures forall i :: |rows| <= i < |later| ==> id <= later[i].id
    ensures forall i :: 0 <= i < |rows| ==> later[i].id == rows[i].id
  {
    forall i | 0 <= i < |rows| ensures later[i].id == rows[i].id {
      assert IdOf(later[i]) == IdOf(rows[i]);
    }
    forall i | |rows| <= i < |later| ensures id <= later[i].id {
      assert later[k].id < later[i].id;
    }
  }

  /** Rows appended behind a row with this id or a later one do not move it. */
  lemma AppendedStay(rows: seq<Post>, later: seq<Post>, id: nat, k: nat)
    requires Ordered(later) && k < |rows| && Extends(rows, later, IdOf) && id <= rows[k].id
    ensures Rank(later, id) == Rank(rows, id)
  {
    var front, back := later[..|rows|], later[|rows|..];
    AppendedBehind(rows, later, id, k);
    assert later == front + back;
    CountConcat(front, back, Below(id));
    RankOfSameIds(front, rows, id);
    RankOfNone(back, id);
  }

  lemma {:induction false} RankBelowIndex(rows: seq<Post>, id: nat)
    requires Ordered(rows) && Rank(rows, id) < |rows|
    ensures id <= rows[Rank(rows, id)].id
  {
    var before, last := rows[..|rows| - 1], rows[|rows| - 1];
    if last.id < id {
      RankOfAllBelow(rows, id);
    } else if Rank(before, id) < |before| {
      RankBelowIndex(before, id);
    }
  }

  /** An inventory that is edited in place or grows at the end brings no row back. */
  lemma {:induction false} GrowingNeverComesBack(inventories: Inventories, batchSize: int, offset: int, id: nat)
    requires 1 <= batchSize <= MAX_BATCH_SIZE && offset >= 0 && inventories != []
    requires AllOrdered(inventories) && OnlyGrows(inventories, IdOf)
    ensures NeverComesBack(inventories, batchSize, offset, id)
    decreases |inventories|
  {
    if !Stops(inventories, batchSize, offset) {
      GrowingNeverComesBack(inventories[1..], batchSize, offset + batchSize, id);
      if Rank(inventories[0], id) < offset + batchSize {
        FullBatchIsWithin(inventories[0], offset, batchSize);
        RankBelowIndex(inventories[0], id);
        AppendedStay(inventories[0], inventories[1], id, Rank(inventories[0], id));
      }
    }
  }

  lemma FullBatchIsWithin(inventory: seq<Post>, offset: int, batchSize: int)
    requires 1 <= batchSize <= MAX_BATCH_SIZE && offset >= 0 && HasMore(inventory, offset, batchSize)
    ensures offset + batchSize <= |inventory|
  {
  }
}
