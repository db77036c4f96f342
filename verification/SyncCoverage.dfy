/**
 * Which rows a sync run (SyncScheduler.php) misses when the inventory changes between its batches. The query
 * orders the rows by id, so the rows with smaller ids decide where a row stands.
 */
module SyncCoverage {
  import opened Prelude
  import opened Collector
  import opened Sync

  // ---------- Where a row stands ----------

  /** In strictly increasing id order. */
  ghost predicate Ordered(rows: seq<Post>) {
    forall i, j :: 0 <= i < j < |rows| ==> rows[i].id < rows[j].id
  }

  ghost predicate AllOrdered(inventories: Inventories) {
    forall k :: 0 <= k < |inventories| ==> Ordered(inventories[k])
  }

  function Below(id: nat): Post -> bool {
    (post: Post) => post.id < id
  }

  /** How many rows are ahead of an id. */
  function Rank(rows: seq<Post>, id: nat): nat {
    Count(rows, Below(id))
  }

  lemma {:induction false} RankOfAllBelow(rows: seq<Post>, id: nat)
    requires forall i :: 0 <= i < |rows| ==> rows[i].id < id
    ensures Rank(rows, id) == |rows|
  {
    if rows != [] {
      RankOfAllBelow(rows[..|rows| - 1], id);
    }
  }

  lemma {:induction false} RankIsIndex(rows: seq<Post>, k: nat)
    requires Ordered(rows) && k < |rows|
    ensures Rank(rows, rows[k].id) == k
  {
    var before := rows[..|rows| - 1];
    if k == |before| {
      RankOfAllBelow(before, rows[k].id);
    } else {
      RankIsIndex(before, k);
    }
  }

  ghost predicate Holds(rows: seq<Post>, id: nat) {
    exists i :: 0 <= i < |rows| && rows[i].id == id
  }

  /** The row is there and stands within the batch at an offset. */
  ghost predicate StandsIn(inventory: seq<Post>, offset: int, batchSize: int, id: nat) {
    Holds(inventory, id) && offset <= Rank(inventory, id) < offset + batchSize
  }

  lemma HeldStandsIn(inventory: seq<Post>, offset: int, batchSize: int, id: nat)
    requires 1 <= batchSize <= MAX_BATCH_SIZE && offset >= 0 && Ordered(inventory)
    requires Holds(Rows(inventory, offset, batchSize), id)
    ensures StandsIn(inventory, offset, batchSize, id)
  {
    var rows := Rows(inventory, offset, batchSize);
    var i :| 0 <= i < |rows| && rows[i].id == id;
    assert rows[i] == inventory[offset + i];
    RankIsIndex(inventory, offset + i);
  }

  lemma StandingIsHeld(inventory: seq<Post>, offset: int, batchSize: int, id: nat)
    requires 1 <= batchSize <= MAX_BATCH_SIZE && offset >= 0 && Ordered(inventory)
    requires StandsIn(inventory, offset, batchSize, id)
    ensures Holds(Rows(inventory, offset, batchSize), id)
  {
    var rows := Rows(inventory, offset, batchSize);
    var k :| 0 <= k < |inventory| && inventory[k].id == id;
    RankIsIndex(inventory, k);
    assert rows[k - offset] == inventory[k];
  }

  /** A row of the inventory is read from an offset exactly when its rank lies in that batch. */
  lemma RowsHold(inventory: seq<Post>, offset: int, batchSize: int, id: nat)
    requires 1 <= batchSize <= MAX_BATCH_SIZE && offset >= 0 && Ordered(inventory)
    ensures Holds(Rows(inventory, offset, batchSize), id) <==> StandsIn(inventory, offset, batchSize, id)
  {
    if Holds(Rows(inventory, offset, batchSize), id) {
      HeldStandsIn(inventory, offset, batchSize, id);
    }
    if StandsIn(inventory, offset, batchSize, id) {
      StandingIsHeld(inventory, offset, batchSize, id);
    }
  }

  lemma HoldsConcat(a: seq<Post>, b: seq<Post>, id: nat)
    ensures Holds(a + b, id) <==> Holds(a, id) || Holds(b, id)
  {
    if Holds(a, id) {
      var i :| 0 <= i < |a| && a[i].id == id;
      assert (a + b)[i].id == id;
    }
    if Holds(b, id) {
      var i :| 0 <= i < |b| && b[i].id == id;
      assert (a + b)[|a| + i].id == id;
    }
  }

  // ---------- Which rows a run misses ----------

  /** Some batch the run reaches is queried while the row stands within it. */
  ghost predicate Caught(inventories: Inventories, batchSize: int, offset: int, id: nat)
    requires inventories != []
    decreases |inventories|
  {
    || StandsIn(inventories[0], offset, batchSize, id)
    || (!Stops(inventories, batchSize, offset) && Caught(inventories[1..], batchSize, offset + batchSize, id))
  }

  /** `visited` is what a run reads, `caught` says whether one of its batches catches the row. */
  ghost predicate IsCatch(inventories: Inventories, batchSize: int, offset: int, id: nat, visited: seq<Post>,
                          caught: bool)
  {
    && inventories != []
    && visited == Visited(inventories, batchSize, offset)
    && caught == Caught(inventories, batchSize, offset, id)
  }

  lemma NextCatch(inventories: Inventories, batchSize: int, offset: int, id: nat, visited: seq<Post>, caught: bool)
    returns (rest: seq<Post>, later: bool)
    requires IsCatch(inventories, batchSize, offset, id, visited, caught) && !Stops(inventories, batchSize, offset)
    ensures |inventories| > 1 && IsCatch(inventories[1..], batchSize, offset + batchSize, id, rest, later)
    ensures visited == Rows(inventories[0], offset, batchSize) + rest
    ensures caught == (StandsIn(inventories[0], offset, batchSize, id) || later)
  {
    rest := Visited(inventories[1..], batchSize, offset + batchSize);
    later := Caught(inventories[1..], batchSize, offset + batchSize, id);
  }

  /** However the inventory changes, a row is visited exactly when some batch catches it. */
  lemma {:induction false} VisitedIsCaught(inventories: Inventories, batchSize: int, offset: int, id: nat,
                                           visited: seq<Post>, caught: bool)
    requires 1 <= batchSize <= MAX_BATCH_SIZE && offset >= 0 && AllOrdered(inventories)
    requires IsCatch(inventories, batchSize, offset, id, visited, caught)
    ensures Holds(visited, id) <==> caught
    decreases |inventories|
  {
    RowsHold(inventories[0], offset, batchSize, id);
    if !Stops(inventories, batchSize, offset) {
      var rest, later := NextCatch(inventories, batchSize, offset, id, visited, caught);
      VisitedIsCaught(inventories[1..], batchSize, offset + batchSize, id, rest, later);
      HoldsConcat(Rows(inventories[0], offset, batchSize), rest, id);
    }
  }

  /** At some boundary the run reaches, the row drops from the next offset or beyond to before it, or
      the run ends with the row still to come. */
  ghost predicate SlipsPast(inventories: Inventories, batchSize: int, offset: int, id: nat)
    requires inventories != []
    decreases |inventories|
  {
    var next := offset + batchSize;
    if Stops(inventories, batchSize, offset) then next <= Rank(inventories[0], id)
    else
      || Rank(inventories[1], id) < next <= Rank(inventories[0], id)
      || SlipsPast(inventories[1..], batchSize, next, id)
  }

  ghost predicate AlwaysHold(inventories: Inventories, id: nat) {
    forall k :: 0 <= k < |inventories| ==> Holds(inventories[k], id)
  }

  /** At no boundary the run reaches does the row move from before the next offset to it or beyond. */
  ghost predicate NeverComesBack(inventories: Inventories, batchSize: int, offset: int, id: nat)
    requires inventories != []
    decreases |inventories|
  {
    var next := offset + batchSize;
    Stops(inventories, batchSize, offset)
    || ((Rank(inventories[0], id) < next ==> Rank(inventories[1], id) < next)
        && NeverComesBack(inventories[1..], batchSize, next, id))
  }

  /** Rows are only taken away before the row, whatever happens behind it. */
  ghost predicate OnlyMovesUp(inventories: Inventories, id: nat) {
    |inventories| <= 1
    || (Rank(inventories[1], id) <= Rank(inventories[0], id) && OnlyMovesUp(inventories[1..], id))
  }

  lemma {:induction false} MovingUpNeverComesBack(inventories: Inventories, batchSize: int, offset: int, id: nat)
    requires inventories != [] && OnlyMovesUp(inventories, id)
    ensures NeverComesBack(inventories, batchSize, offset, id)
    decreases |inventories|
  {
    if !Stops(inventories, batchSize, offset) {
      MovingUpNeverComesBack(inventories[1..], batchSize, offset + batchSize, id);
    }
  }

  lemma {:induction false} PassedStaysPassed(inventories: Inventories, batchSize: int, offset: int, id: nat)
    requires 1 <= batchSize && inventories != [] && NeverComesBack(inventories, batchSize, offset, id)
    requires Rank(inventories[0], id) < offset + batchSize
    ensures !SlipsPast(inventories, batchSize, offset, id)
    ensures Rank(inventories[0], id) < offset ==> !Caught(inventories, batchSize, offset, id)
    decreases |inventories|
  {
    if !Stops(inventories, batchSize, offset) {
      PassedStaysPassed(inventories[1..], batchSize, offset + batchSize, id);
    }
  }

  /** However the inventory changes, a row that is there throughout is only missed by slipping past. */
  lemma {:induction false} MissedSlipsPast(inventories: Inventories, batchSize: int, offset: int, id: nat)
    requires 1 <= batchSize && inventories != [] && AlwaysHold(inventories, id)
    requires offset <= Rank(inventories[0], id) && !Caught(inventories, batchSize, offset, id)
    ensures SlipsPast(inventories, batchSize, offset, id)
    decreases |inventories|
  {
    assert Holds(inventories[0], id);
    if !Stops(inventories, batchSize, offset) && offset + batchSize <= Rank(inventories[1], id) {
      MissedSlipsPast(inventories[1..], batchSize, offset + batchSize, id);
    }
  }

  lemma {:induction false} SlippedIsMissed(inventories: Inventories, batchSize: int, offset: int, id: nat)
    requires 1 <= batchSize && inventories != [] && NeverComesBack(inventories, batchSize, offset, id)
    requires SlipsPast(inventories, batchSize, offset, id)
    ensures !Caught(inventories, batchSize, offset, id)
    decreases |inventories|
  {
    if Rank(inventories[0], id) < offset + batchSize {
      PassedStaysPassed(inventories, batchSize, offset, id);
    } else if !Stops(inventories, batchSize, offset) {
      if Rank(inventories[1], id) < offset + batchSize {
        PassedStaysPassed(inventories[1..], batchSize, offset + batchSize, id);
      } else {
        SlippedIsMissed(inventories[1..], batchSize, offset + batchSize, id);
      }
    }
  }

  /** A row that is there throughout a run is missed only by slipping past at a boundary or by lying past
      the last batch; and, unless rows that come in before it bring it back, it is missed exactly then. */
  lemma MissedExactly(inventories: Inventories, batchSize: int, id: nat)
    requires 1 <= batchSize <= MAX_BATCH_SIZE && |inventories| == MAX_SYNC_BATCHES
    requires AllOrdered(inventories) && AlwaysHold(inventories, id)
    ensures !Holds(Visited(inventories, batchSize, 0), id) ==> SlipsPast(inventories, batchSize, 0, id)
    ensures NeverComesBack(inventories, batchSize, 0, id) ==>
              (!Holds(Visited(inventories, batchSize, 0), id) <==> SlipsPast(inventories, batchSize, 0, id))
  {
    VisitedIsCaught(inventories, batchSize, 0, id, Visited(inventories, batchSize, 0),
                    Caught(inventories, batchSize, 0, id));
    if !Caught(inventories, batchSize, 0, id) {
      MissedSlipsPast(inventories, batchSize, 0, id);
    } else if NeverComesBack(inventories, batchSize, 0, id) && SlipsPast(inventories, batchSize, 0, id) {
      SlippedIsMissed(inventories, batchSize, 0, id);
    }
  }

  /** When rows are only taken away before it, a row is missed exactly when it slips past. */
  lemma DeletionsHideExactly(inventories: Inventories, batchSize: int, id: nat)
    requires 1 <= batchSize <= MAX_BATCH_SIZE && |inventories| == MAX_SYNC_BATCHES
    requires AllOrdered(inventories) && AlwaysHold(inventories, id) && OnlyMovesUp(inventories, id)
    ensures !Holds(Visited(inventories, batchSize, 0), id) <==> SlipsPast(inventories, batchSize, 0, id)
  {
    MovingUpNeverComesBack(inventories, batchSize, 0, id);
    MissedExactly(inventories, batchSize, id);
  }

  /** A run over 50 batches that a deletion makes miss a row which is there throughout. */
  lemma DeletionHidesARow(first: Post, second: Post)
    requires first.id < second.id
    ensures var inventories := [[first, second]] + Unchanging([second], MAX_SYNC_BATCHES - 1);
            && |inventories| == MAX_SYNC_BATCHES && AllOrdered(inventories)
            && AlwaysHold(inventories, second.id) && OnlyMovesUp(inventories, second.id)
            && SlipsPast(inventories, 1, 0, second.id) && Visited(inventories, 1, 0) == [first]
  {
    var later := Unchanging([second], MAX_SYNC_BATCHES - 1);
    var inventories := [[first, second]] + later;
    assert inventories[1..] == later;
    assert [first, second][1].id == second.id && [second][0].id == second.id;
    RankIsIndex([first, second], 1);
    RankIsIndex([second], 0);
    UnchangingMovesUp([second], MAX_SYNC_BATCHES - 1, second.id);
    assert Rows([first, second], 0, 1) == [first];
    assert Rows([second], 1, 1) == [];
  }

  lemma {:induction false} UnchangingMovesUp(inventory: seq<Post>, batches: nat, id: nat)
    ensures OnlyMovesUp(Unchanging(inventory, batches), id)
  {
    if batches > 1 {
      UnchangingMovesUp(inventory, batches - 1, id);
      assert Unchanging(inventory, batches)[1..] == Unchanging(inventory, batches - 1);
    }
  }
}
