/**
 First come, first served under interleaving, and what no interleaving ever undoes. Reserve
 holds the product lock from before it takes its creation time to its commit, and FillReserves
 locks the open rows of its SKU oldest first, so neither can slip in front of an older row.
 */
module InventoryOrder {
  import opened Common
  import opened Allocation
  import opened InventoryTables
  import opened InventoryConcurrency

  /** The rows of one SKU stand in the order of their creation times. */
  predicate SkuInOrder(rows: seq<Reservation>) {
    forall i, j :: 0 <= i < j < |rows| && rows[i].sku == rows[j].sku ==> rows[i].created < rows[j].created
  }

  predicate RowsOrdered(rows: seq<Reservation>, clock: int) {
    && Fifo(rows) && SkuInOrder(rows)
    && (forall i :: 0 <= i < |rows| ==> rows[i].created <= clock)
  }

  /** The row a Reserve is about to commit is younger than every committed row of its SKU. */
  predicate InsertOrdered(rows: seq<Reservation>, clock: int, t: Txn) {
    t.op.ReserveOp? && t.phase.RowInserted? && t.row.Some? ==>
      && t.row.value.created <= clock
      && (forall i :: 0 <= i < |rows| && rows[i].sku == t.op.request.sku ==> rows[i].created < t.row.value.created)
  }

  /** The batch of a Fill: open rows, oldest first, none skipped. */
  predicate BatchOrdered(rows: seq<Reservation>, sku: string, batch: seq<Reservation>) {
    && (forall k :: 0 <= k < |batch| ==> batch[k].state.Open?)
    && (forall k, l :: 0 <= k < l < |batch| ==> batch[k].created < batch[l].created)
    && (forall k :: 0 <= k < |batch| ==> OlderRead(rows, sku, batch, batch[k].created))
  }

  /** Rows are only filled up; and while stock is left, every row written back is Closed. */
  predicate DoneOrdered(t: Txn) {
    && |t.done| <= |t.batch|
    && (forall k :: 0 <= k < |t.done| ==> t.batch[k].reserved <= t.done[k].reserved)
    && (forall k :: 0 <= k < |t.done| - 1 ==> t.done[k].state.Closed?)
    && (t.done != [] && (t.available > 0 || t.phase.StockSaved?) ==> t.done[|t.done| - 1].state.Closed?)
    && (t.phase.StockSaved? && t.row.Some? && |t.done| < |t.batch| ==>
          && t.batch[|t.done|].reserved <= t.row.value.reserved
          && (t.row.value.state.Closed? || t.available == 0))
  }

  predicate FillOrdered(rows: seq<Reservation>, t: Txn) {
    t.op.FillOp? ==> BatchOrdered(rows, t.op.sku, t.batch) && DoneOrdered(t)
  }

  ghost predicate Ordered(s: State) {
    && Good(s)
    && RowsOrdered(s.db.reservations, s.clock)
    && (forall x :: x in s.txns ==>
          InsertOrdered(s.db.reservations, s.clock, s.txns[x]) && FillOrdered(s.db.reservations, s.txns[x]))
  }

  /** Two Reserves of one SKU are never both past taking the product lock. */
  lemma OneReservePerSku(s: State, x: nat, y: nat)
    requires Good(s) && x in s.txns && y in s.txns && x != y
    requires s.txns[x].op.ReserveOp? && s.txns[y].op.ReserveOp?
    requires s.txns[x].op.request.sku == s.txns[y].op.request.sku
    ensures s.txns[x].phase.Began? || s.txns[y].phase.Began?
  {
    assert TxnOk(s.db, s.nextId, s.txns[x]) && TxnOk(s.db, s.nextId, s.txns[y]);
    assert s.txns[x].locks !! s.txns[y].locks;
  }

  /** What the invariants say about one Fill. */
  lemma FillFacts(s: State, x: nat)
    requires Ordered(s) && x in s.txns && s.txns[x].op.FillOp?
    ensures var t := s.txns[x];
      && BatchOrdered(s.db.reservations, t.op.sku, t.batch) && DoneOrdered(t) && DistinctIds(t.batch)
      && t.op.sku != ""
      && (t.phase.Began? ==> t.done == []) && (!t.phase.Began? ==> t.available >= 0)
      && (t.phase.StockSaved? ==> |t.done| < |t.batch|)
      && (forall k :: 0 <= k < |t.batch| ==> t.batch[k] in s.db.reservations && t.batch[k].sku == t.op.sku)
  {
    assert TxnOk(s.db, s.nextId, s.txns[x]) && FillOrdered(s.db.reservations, s.txns[x]);
  }

  // ----- what a Fill commits -----

  /** A row is rewritten as the batch says, or left alone. */
  predicate Hit(rows: seq<Reservation>, rows': seq<Reservation>, batch: seq<Reservation>, done: seq<Reservation>, i: nat)
    requires i < |rows| == |rows'| && |batch| == |done|
  {
    || (rows[i] !in batch && rows'[i] == rows[i])
    || exists k :: 0 <= k < |batch| && rows[i] == batch[k] && rows'[i] == done[k]
  }

  lemma {:induction false} UpdatesHit(
      rows: seq<Reservation>, batch: seq<Reservation>, done: seq<Reservation>, sku: string, i: nat)
    requires Updates(rows, batch, done, sku) && i < |rows|
    ensures Hit(rows, ApplyUpdates(rows, done), batch, done, i)
    decreases |done|
  {
    if done != [] {
      var p := UpdateOne(rows, batch, done, sku);
      var rows1 := rows[p := done[0]];
      UpdatesHit(rows1, batch[1..], done[1..], sku, i);
      HitBehind(rows, rows1, ApplyUpdates(rows, done), batch, done, p, i);
    }
  }

  lemma HitBehind(rows: seq<Reservation>, rows1: seq<Reservation>, rows': seq<Reservation>,
                  batch: seq<Reservation>, done: seq<Reservation>, p: nat, i: nat)
    requires i < |rows| == |rows'| && p < |rows| && |batch| == |done| > 0
    requires DistinctIds(rows) && DistinctIds(batch) && rows[p] == batch[0] && SameRow(batch[0], done[0])
    requires rows1 == rows[p := done[0]] && Hit(rows1, rows', batch[1..], done[1..], i)
    ensures Hit(rows, rows', batch, done, i)
  {
    if i == p {
      forall k | 1 <= k < |batch| ensures batch[k].id != done[0].id {
        assert batch[0].id != batch[k].id;
      }
      assert rows1[i] !in batch[1..];
    } else {
      assert rows[i].id != batch[0].id by {
        if i < p { assert rows[i].id != rows[p].id; } else { assert rows[p].id != rows[i].id; }
      }
      if rows1[i] in batch[1..] {
        var k :| 0 <= k < |batch[1..]| && rows1[i] == batch[1..][k] && rows'[i] == done[1..][k];
        assert rows[i] == batch[k + 1] && rows'[i] == done[k + 1];
      }
    }
  }

  /** Every row before and after the commit of the Fill `x`. */
  lemma FillCommits(s: State, x: nat)
    requires Ordered(s) && Enabled(s, x, Finish) && s.txns[x].op.FillOp?
    ensures var rows, rows' := s.db.reservations, Next(s, x, Finish).db.reservations;
      var t := s.txns[x];
      && |rows'| == |rows|
      && (forall i :: 0 <= i < |rows| ==>
            Hit(rows, rows', t.batch[..|t.done|], t.done, i) && RowEvolves(rows[i], rows'[i]))
  {
    var t, rows := s.txns[x], s.db.reservations;
    var batch := t.batch[..|t.done|];
    var rows' := Next(s, x, Finish).db.reservations;
    assert TxnOk(s.db, s.nextId, t) && FillOrdered(rows, t);
    assert Updates(rows, batch, t.done, t.op.sku);
    forall i | 0 <= i < |rows|
      ensures Hit(rows, rows', batch, t.done, i) && RowEvolves(rows[i], rows'[i])
    {
      UpdatesHit(rows, batch, t.done, t.op.sku, i);
      if rows[i] in batch {
        var k :| 0 <= k < |batch| && rows[i] == batch[k] && rows'[i] == t.done[k];
        assert SameRow(t.batch[k], t.done[k]);
      }
    }
  }

  lemma FillCommitsFifo(s: State, x: nat)
    requires Ordered(s) && Enabled(s, x, Finish) && s.txns[x].op.FillOp?
    ensures RowsOrdered(Next(s, x, Finish).db.reservations, s.clock)
  {
    hide Good, InsertOrdered, FillOrdered, ApplyUpdates;
    var t, rows := s.txns[x], s.db.reservations;
    var rows' := Next(s, x, Finish).db.reservations;
    FillCommits(s, x);
    forall i, j | 0 <= i < j < |rows'| && rows'[i].sku == rows'[j].sku && rows'[j].reserved > 0
      ensures rows'[i].state.Closed?
    {
      assert RowEvolves(rows[i], rows'[i]) && RowEvolves(rows[j], rows'[j]);
      if rows[i].state.Open? {
        OlderRowIsClosed(s, x, i, j);
      }
    }
    forall i, j | 0 <= i < j < |rows'| && rows'[i].sku == rows'[j].sku
      ensures rows'[i].created < rows'[j].created
    {
      assert RowEvolves(rows[i], rows'[i]) && RowEvolves(rows[j], rows'[j]);
    }
    forall i | 0 <= i < |rows'| ensures rows'[i].created <= s.clock {
      assert RowEvolves(rows[i], rows'[i]);
    }
  }

  /** If the commit gives stock to row `j`, it closes every older open row of the SKU. */
  lemma OlderRowIsClosed(s: State, x: nat, i: nat, j: nat)
    requires Ordered(s) && Enabled(s, x, Finish) && s.txns[x].op.FillOp?
    requires i < j < |s.db.reservations| && s.db.reservations[i].sku == s.db.reservations[j].sku
    requires s.db.reservations[i].state.Open?
    requires |Next(s, x, Finish).db.reservations| == |s.db.reservations|
    requires Next(s, x, Finish).db.reservations[j].reserved > 0
    ensures Next(s, x, Finish).db.reservations[i].state.Closed?
  {
    hide Good, InsertOrdered, FillOrdered, ApplyUpdates, BatchOrdered, DoneOrdered, RowEvolves, DistinctIds, Hit;
    var t := s.txns[x];
    FillCommits(s, x);
    FillFacts(s, x);
    ClosedBehind(s.db.reservations, Next(s, x, Finish).db.reservations, t, i, j);
  }

  lemma ClosedBehind(rows: seq<Reservation>, rows': seq<Reservation>, t: Txn, i: nat, j: nat)
    requires t.op.FillOp? && BatchOrdered(rows, t.op.sku, t.batch) && DoneOrdered(t) && DistinctIds(t.batch)
    requires forall k :: 0 <= k < |t.batch| ==> t.batch[k].sku == t.op.sku
    requires i < j < |rows| == |rows'| && Fifo(rows) && SkuInOrder(rows)
    requires rows[i].sku == rows[j].sku && rows[i].state.Open? && rows'[j].reserved > 0
    requires Hit(rows, rows', t.batch[..|t.done|], t.done, i) && Hit(rows, rows', t.batch[..|t.done|], t.done, j)
    ensures rows'[i].state.Closed?
  {
    hide BatchOrdered, DistinctIds;
    var batch := t.batch[..|t.done|];
    assert rows[j].reserved <= 0;
    var l :| 0 <= l < |batch| && rows[j] == batch[l] && rows'[j] == t.done[l];
    assert rows[j] == t.batch[l] && Selected(rows[i], t.op.sku);
    var k := OlderInBatch(rows, t.op.sku, t.batch, i, l);
    assert batch[k] == rows[i];
    var m :| 0 <= m < |batch| && rows[i] == batch[m] && rows'[i] == t.done[m];
    SamePlace(t.batch, m, k);
  }

  /** An older open row stands in the batch, before the younger one. */
  lemma OlderInBatch(rows: seq<Reservation>, sku: string, batch: seq<Reservation>, i: nat, l: nat) returns (k: nat)
    requires BatchOrdered(rows, sku, batch) && i < |rows| && l < |batch|
    requires Selected(rows[i], sku) && rows[i].created < batch[l].created
    ensures k < l && batch[k] == rows[i]
  {
    assert OlderRead(rows, sku, batch, batch[l].created);
    k :| 0 <= k < |batch| && batch[k] == rows[i];
  }

  lemma SamePlace(batch: seq<Reservation>, k: nat, l: nat)
    requires DistinctIds(batch) && k < |batch| && l < |batch| && batch[k] == batch[l]
    ensures k == l
  {
  }

  // ----- every step keeps the order -----

  /** The next row gathered is younger than every row already in the batch. */
  lemma GatheredInOrder(s: State, x: nat, index: nat, k: nat)
    requires Ordered(s) && Enabled(s, x, Do(GatherRow(index))) && k < |s.txns[x].batch|
    ensures s.txns[x].batch[k].created < s.db.reservations[index].created
  {
    var t, rows := s.txns[x], s.db.reservations;
    hide DbOk, LocksExclusive, InsertsApart, InsertOrdered, Reserved;
    assert TxnOk(s.db, s.nextId, t) && FillOrdered(rows, t);
    assert OlderRead(rows, t.op.sku, t.batch, t.batch[k].created);
    assert rows[index] !in t.batch;
    assert t.batch[k] in rows;
    var i :| 0 <= i < |rows| && rows[i] == t.batch[k];
    assert i != index;
    OtherTime(rows, i, index);
  }

  lemma OtherTime(rows: seq<Reservation>, i: nat, j: nat)
    requires SkuInOrder(rows) && i < |rows| && j < |rows| && i != j && rows[i].sku == rows[j].sku
    ensures rows[i].created != rows[j].created
  {
  }

  lemma GatherKeepsOrdered(s: State, x: nat, index: nat)
    requires Ordered(s) && Enabled(s, x, Do(GatherRow(index)))
    ensures FillOrdered(s.db.reservations, Moved(s, s.txns[x], GatherRow(index)))
  {
    hide Ordered, OlderRead;
    var t, rows := s.txns[x], s.db.reservations;
    FillFacts(s, x);
    forall k | 0 <= k < |t.batch| ensures t.batch[k].created < rows[index].created {
      GatheredInOrder(s, x, index, k);
    }
    MoreRead(rows, t.op.sku, t.batch, rows[index]);
  }

  lemma MoreRead(rows: seq<Reservation>, sku: string, batch: seq<Reservation>, r: Reservation)
    requires forall k :: 0 <= k < |batch| ==> OlderRead(rows, sku, batch, batch[k].created)
    requires OlderRead(rows, sku, batch, r.created)
    ensures forall k :: 0 <= k < |batch + [r]| ==> OlderRead(rows, sku, batch + [r], (batch + [r])[k].created)
  {
  }

  lemma MoveKeepsFillOrdered(s: State, x: nat, c: RepoCall)
    requires Ordered(s) && Enabled(s, x, Do(c)) && s.txns[x].op.FillOp?
    ensures FillOrdered(s.db.reservations, Moved(s, s.txns[x], c))
  {
    var t, rows := s.txns[x], s.db.reservations;
    if c.GatherRow? {
      GatherKeepsOrdered(s, x, c.index);
    } else {
      MoveKeepsDone(s, x, c);
    }
  }

  lemma GrantKeepsDone(t: Txn, r: Reservation, amount: int)
    requires DoneOrdered(t) && t.phase.StockRead? && |t.done| < |t.batch| && t.available > 0
    requires r == t.batch[|t.done|] && RowOk(r) && amount == Min(Shortfall(r), t.available)
    ensures DoneOrdered(t.(phase := StockSaved, available := t.available - amount, row := Some(Granted(r, amount))))
  {
  }

  lemma UpdateKeepsDone(t: Txn)
    requires DoneOrdered(t) && t.phase.StockSaved? && t.row.Some? && |t.done| < |t.batch|
    ensures DoneOrdered(t.(phase := StockRead, done := t.done + [t.row.value], row := None))
  {
  }

  lemma MoveKeepsDone(s: State, x: nat, c: RepoCall)
    requires Ordered(s) && Enabled(s, x, Do(c)) && s.txns[x].op.FillOp? && !c.GatherRow?
    ensures FillOrdered(s.db.reservations, Moved(s, s.txns[x], c))
  {
    hide Ordered, BatchOrdered;
    var t := s.txns[x];
    FillFacts(s, x);
    match c {
      case SaveGrant =>
        var r := t.batch[|t.done|];
        GoodRow(s, r);
        GrantKeepsDone(t, r, Min(Shortfall(r), t.available));
      case UpdateReservation => UpdateKeepsDone(t);
      case LockStock =>
    }
  }

  lemma GoodRow(s: State, r: Reservation)
    requires Ordered(s) && r in s.db.reservations
    ensures RowOk(r)
  {
  }

  lemma MoveKeepsOrdered(s: State, x: nat, c: RepoCall)
    requires Ordered(s) && Enabled(s, x, Do(c))
    ensures Ordered(Next(s, x, Do(c)))
  {
    hide Good, Fifo, SkuInOrder, FillOrdered;
    var s' := Next(s, x, Do(c));
    StepKeepsGood(s, x, Do(c));
    forall y | y in s'.txns
      ensures InsertOrdered(s'.db.reservations, s'.clock, s'.txns[y]) && FillOrdered(s'.db.reservations, s'.txns[y])
    {
      if y != x {
        assert InsertOrdered(s.db.reservations, s.clock, s.txns[y]) && FillOrdered(s.db.reservations, s.txns[y]);
      } else if s.txns[x].op.FillOp? {
        MoveKeepsFillOrdered(s, x, c);
      } else {
        OnlyFillsFill(s.db.reservations, s'.txns[x]);
        assert InsertOrdered(s.db.reservations, s.clock, s.txns[x]);
      }
    }
  }

  lemma OnlyFillsFill(rows: seq<Reservation>, t: Txn)
    requires !t.op.FillOp?
    ensures FillOrdered(rows, t)
  {
  }

  /** A Reserve appends the youngest row of its SKU, with nothing reserved yet. */
  lemma ReserveCommitsOrdered(s: State, x: nat)
    requires Ordered(s) && Enabled(s, x, Finish) && s.txns[x].op.ReserveOp? && s.txns[x].phase.RowInserted?
    ensures RowsOrdered(Next(s, x, Finish).db.reservations, s.clock)
  {
    var t, rows := s.txns[x], s.db.reservations;
    assert TxnOk(s.db, s.nextId, t) && InsertOrdered(rows, s.clock, t);
    assert Next(s, x, Finish).db.reservations == rows + [t.row.value];
  }

  lemma AppendKeepsFillOrdered(s: State, x: nat, y: nat)
    requires Ordered(s) && Enabled(s, x, Finish) && s.txns[x].op.ReserveOp? && s.txns[x].phase.RowInserted?
    requires y in s.txns && y != x
    ensures FillOrdered(Next(s, x, Finish).db.reservations, s.txns[y])
  {
    hide DbOk, InsertsApart, LocksExclusive, RowsOrdered, DoneOrdered, Reserved;
    var t, u, rows := s.txns[x], s.txns[y], s.db.reservations;
    var rows' := Next(s, x, Finish).db.reservations;
    assert TxnOk(s.db, s.nextId, t) && TxnOk(s.db, s.nextId, u);
    assert InsertOrdered(rows, s.clock, t) && FillOrdered(rows, u);
    assert rows' == rows + [t.row.value];
    if u.op.FillOp? {
      forall k | 0 <= k < |u.batch| ensures OlderRead(rows', u.op.sku, u.batch, u.batch[k].created) {
        assert OlderRead(rows, u.op.sku, u.batch, u.batch[k].created);
        assert u.batch[k] in rows && u.batch[k].sku == u.op.sku && u.op.sku != "";
        var j :| 0 <= j < |rows| && rows[j] == u.batch[k];
      }
    }
  }

  lemma AppendKeepsInsertOrdered(s: State, x: nat, y: nat)
    requires Ordered(s) && Enabled(s, x, Finish) && s.txns[x].op.ReserveOp? && s.txns[x].phase.RowInserted?
    requires y in s.txns && y != x
    ensures InsertOrdered(Next(s, x, Finish).db.reservations, s.clock, s.txns[y])
  {
    var t, u, rows := s.txns[x], s.txns[y], s.db.reservations;
    assert TxnOk(s.db, s.nextId, t) && InsertOrdered(rows, s.clock, u);
    assert Next(s, x, Finish).db.reservations == rows + [t.row.value];
    if u.op.ReserveOp? && u.op.request.sku == t.op.request.sku {
      OneReservePerSku(s, x, y);
    }
  }

  lemma FillKeepsFillOrdered(s: State, x: nat, y: nat)
    requires Ordered(s) && Enabled(s, x, Finish) && s.txns[x].op.FillOp? && y in s.txns && y != x
    ensures FillOrdered(Next(s, x, Finish).db.reservations, s.txns[y])
  {
    hide Good, RowsOrdered, InsertOrdered, ApplyUpdates, DoneOrdered;
    var u, rows := s.txns[y], s.db.reservations;
    var rows' := Next(s, x, Finish).db.reservations;
    FillCommits(s, x);
    if u.op.FillOp? {
      FillFacts(s, y);
      forall k | 0 <= k < |u.batch| ensures OlderRead(rows', u.op.sku, u.batch, u.batch[k].created) {
        assert OlderRead(rows, u.op.sku, u.batch, u.batch[k].created);
        forall i | 0 <= i < |rows'| && Selected(rows'[i], u.op.sku) && rows'[i].created < u.batch[k].created
          ensures rows'[i] in u.batch
        {
          assert RowEvolves(rows[i], rows'[i]);
          assert Selected(rows[i], u.op.sku) && rows[i] in u.batch;
          var l :| 0 <= l < |u.batch| && u.batch[l] == rows[i];
          BatchRowStays(s, x, y, i, l);
        }
      }
    }
  }

  /** A row another Fill has locked is not rewritten. */
  lemma BatchRowStays(s: State, x: nat, y: nat, i: nat, l: nat)
    requires Ordered(s) && Enabled(s, x, Finish) && s.txns[x].op.FillOp? && y in s.txns && y != x
    requires s.txns[y].op.FillOp? && i < |s.db.reservations| && l < |s.txns[y].batch|
    requires s.txns[y].batch[l] == s.db.reservations[i]
    ensures Next(s, x, Finish).db.reservations[i] == s.db.reservations[i]
  {
    hide DbOk, InsertsApart, RowsOrdered, InsertOrdered, BatchOrdered, DoneOrdered, ApplyUpdates, RowEvolves, Reserved;
    var t, u, rows := s.txns[x], s.txns[y], s.db.reservations;
    FillCommits(s, x);
    assert Hit(rows, Next(s, x, Finish).db.reservations, t.batch[..|t.done|], t.done, i);
    assert TxnOk(s.db, s.nextId, t) && TxnOk(s.db, s.nextId, u);
    assert t.locks !! u.locks;
    assert ReservationLock(u.batch[l].id) in u.locks;
    forall k | 0 <= k < |t.batch| ensures t.batch[k] != rows[i] {
      assert ReservationLock(t.batch[k].id) in t.locks;
    }
  }

  lemma FillKeepsInsertOrdered(s: State, x: nat, y: nat)
    requires Ordered(s) && Enabled(s, x, Finish) && s.txns[x].op.FillOp? && y in s.txns && y != x
    ensures InsertOrdered(Next(s, x, Finish).db.reservations, s.clock, s.txns[y])
  {
    var rows, rows' := s.db.reservations, Next(s, x, Finish).db.reservations;
    FillCommits(s, x);
    assert InsertOrdered(rows, s.clock, s.txns[y]);
    assert forall i :: 0 <= i < |rows| ==> RowEvolves(rows[i], rows'[i]);
  }

  lemma FinishKeepsOrdered(s: State, x: nat)
    requires Ordered(s) && Enabled(s, x, Finish)
    ensures Ordered(Next(s, x, Finish))
  {
    hide Good, RowsOrdered, InsertOrdered, FillOrdered;
    var s', t := Next(s, x, Finish), s.txns[x];
    StepKeepsGood(s, x, Finish);
    var appends := t.op.ReserveOp? && t.phase.RowInserted?;
    if t.op.FillOp? { FillCommitsFifo(s, x); } else if appends { ReserveCommitsOrdered(s, x); }
    forall y | y in s'.txns
      ensures InsertOrdered(s'.db.reservations, s'.clock, s'.txns[y]) && FillOrdered(s'.db.reservations, s'.txns[y])
    {
      if t.op.FillOp? {
        FillKeepsInsertOrdered(s, x, y);
        FillKeepsFillOrdered(s, x, y);
      } else if appends {
        AppendKeepsInsertOrdered(s, x, y);
        AppendKeepsFillOrdered(s, x, y);
      }
    }
  }

  lemma BeginnerOrdered(rows: seq<Reservation>, clock: int, op: Op)
    ensures var t := Txn(op, Began, {}, 0, [], [], None);
      InsertOrdered(rows, clock, t) && FillOrdered(rows, t)
  {
  }

  lemma StepKeepsOrdered(s: State, x: nat, a: Action)
    requires Ordered(s) && Enabled(s, x, a)
    ensures Ordered(Next(s, x, a))
  {
    match a {
      case Finish => FinishKeepsOrdered(s, x);
      case Do(c) => MoveKeepsOrdered(s, x, c);
      case CreateProduct(_) => QuietStep(s, x, a);
      case Abort => QuietStep(s, x, a);
      case Begin(op) => QuietStep(s, x, a);
    }
  }

  lemma QuietStep(s: State, x: nat, a: Action)
    requires Ordered(s) && Enabled(s, x, a) && (a.CreateProduct? || a.Abort? || a.Begin?)
    ensures Ordered(Next(s, x, a))
  {
    hide Good, RowsOrdered, InsertOrdered, FillOrdered;
    StepKeepsGood(s, x, a);
    if a.Begin? { BeginnerOrdered(s.db.reservations, s.clock, a.op); }
  }

  lemma FillCommitEvolves(s: State, x: nat)
    requires Ordered(s) && Enabled(s, x, Finish) && s.txns[x].op.FillOp?
    ensures Evolves(s.db, Next(s, x, Finish).db)
  {
    hide Ordered, RowEvolves, ApplyUpdates;
    FillCommits(s, x);
  }

  lemma OtherStepEvolves(s: State, x: nat, a: Action)
    requires Enabled(s, x, a) && !(a.Finish? && s.txns[x].op.FillOp?)
    ensures Evolves(s.db, Next(s, x, a).db)
  {
  }

  /** No step undoes a registration, a production, a reservation or what it has been given. */
  lemma StepEvolves(s: State, x: nat, a: Action)
    requires Ordered(s) && Enabled(s, x, a)
    ensures Evolves(s.db, Next(s, x, a).db)
  {
    if a.Finish? && s.txns[x].op.FillOp? { FillCommitEvolves(s, x); } else { OtherStepEvolves(s, x, a); }
  }

  // ----- whole runs -----

  predicate OlderRow(r: Reservation, than: Reservation) {
    r.sku == than.sku && r.created < than.created
  }

  lemma {:induction false} RunKeepsOrdered(s: State, run: seq<Step>)
    requires Ordered(s) && Possible(s, run)
    ensures Ordered(After(s, run)) && Evolves(s.db, After(s, run).db)
    decreases |run|
  {
    if run != [] {
      var s1 := Next(s, run[0].txn, run[0].action);
      StepKeepsOrdered(s, run[0].txn, run[0].action);
      StepEvolves(s, run[0].txn, run[0].action);
      RunKeepsOrdered(s1, run[1..]);
      EvolvesTransitive(s.db, s1.db, After(s, run).db);
    }
  }

  lemma OlderStandsFirst(rows: seq<Reservation>, i: nat, j: nat)
    requires SkuInOrder(rows) && i < |rows| && j < |rows| && OlderRow(rows[i], rows[j])
    ensures i < j
  {
  }

  /**
   No overtaking under any interleaving: a reservation holds stock only if every reservation
   of its SKU created before it is Closed. And whatever was committed at some moment only
   evolves: rows stay, reserved quantities grow, Closed rows are frozen.
   */
  lemma ConcurrentFifo(run: seq<Step>, more: seq<Step>)
    requires Possible(Initial, run) && Possible(After(Initial, run), more)
    ensures var rows := After(Initial, run).db.reservations;
      forall i, j :: 0 <= i < |rows| && 0 <= j < |rows| && OlderRow(rows[i], rows[j]) ==>
        rows[j].reserved == 0 || rows[i].state.Closed?
    ensures Evolves(After(Initial, run).db, After(After(Initial, run), more).db)
  {
    EmptyTablesOk();
    assert Ordered(Initial);
    RunKeepsOrdered(Initial, run);
    RunKeepsOrdered(After(Initial, run), more);
    var rows := After(Initial, run).db.reservations;
    forall i, j | 0 <= i < |rows| && 0 <= j < |rows| && OlderRow(rows[i], rows[j])
      ensures rows[j].reserved == 0 || rows[i].state.Closed?
    {
      assert RowOk(rows[j]);
      OlderStandsFirst(rows, i, j);
    }
  }
}
