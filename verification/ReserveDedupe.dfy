/**
 Concurrent Reserve calls with one request id and one SKU: the product row lock is taken
 before the request id is looked up and held until the commit, so only one of them can
 insert a row, with no help from the UNIQUE constraint on reservations.
 */
module ReserveDedupe {
  import opened Common
  import opened Allocation
  import opened InventoryTables
  import opened InventoryConcurrency

  predicate AsksFor(t: Txn, requestId: string) {
    t.op.ReserveOp? && t.op.request.requestId == requestId
  }

  /** No step begins a Reserve that carries `requestId` with another SKU. */
  predicate SameSku(a: Action, requestId: string, sku: string) {
    a.Begin? && a.op.ReserveOp? && a.op.request.requestId == requestId ==> a.op.request.sku == sku
  }

  predicate RowsAgree(rows: seq<Reservation>, requestId: string, sku: string) {
    && (forall i :: 0 <= i < |rows| && rows[i].requestId == requestId ==> rows[i].sku == sku)
    && (forall i, j :: 0 <= i < j < |rows| ==> rows[i].requestId != requestId || rows[j].requestId != requestId)
  }

  predicate HasRow(rows: seq<Reservation>, id: nat, requestId: string) {
    exists i :: 0 <= i < |rows| && rows[i].id == id && rows[i].requestId == requestId
  }

  /** What a Reserve in flight for this request id knows about the committed rows. */
  predicate KnowsRows(db: Tables, t: Txn, requestId: string, sku: string) {
    AsksFor(t, requestId) ==>
      && t.op.request.sku == sku
      && (t.phase.RequestUnknown? || t.phase.RowInserted? ==>
            forall i :: 0 <= i < |db.reservations| ==> db.reservations[i].requestId != requestId)
      && (t.phase.RequestKnown? && t.row.Some? ==> HasRow(db.reservations, t.row.value.id, requestId))
  }

  ghost predicate Deduped(s: State, requestId: string, sku: string) {
    && Good(s)
    && RowsAgree(s.db.reservations, requestId, sku)
    && (forall x :: x in s.txns ==> KnowsRows(s.db, s.txns[x], requestId, sku))
    && (forall x :: x in s.answers && s.answers[x].request.requestId == requestId ==>
          HasRow(s.db.reservations, s.answers[x].id, requestId))
  }

  /** A transaction that commits a new row for the request id was alone with the product lock. */
  lemma OnlyOneInserts(s: State, x: nat, y: nat, requestId: string, sku: string)
    requires Deduped(s, requestId, sku) && x in s.txns && y in s.txns && x != y
    requires AsksFor(s.txns[x], requestId) && s.txns[x].phase.RowInserted?
    requires AsksFor(s.txns[y], requestId)
    ensures s.txns[y].phase.Began?
  {
    var t, u := s.txns[x], s.txns[y];
    assert TxnOk(s.db, s.nextId, t) && TxnOk(s.db, s.nextId, u);
    assert KnowsRows(s.db, t, requestId, sku) && KnowsRows(s.db, u, requestId, sku);
    assert ProductLock(sku) in t.locks && ProductLock(sku) !in u.locks by {
      assert t.locks !! u.locks;
    }
  }

  predicate SameRows(rows: seq<Reservation>, rows': seq<Reservation>) {
    && |rows'| == |rows|
    && (forall i :: 0 <= i < |rows| ==> SameRow(rows[i], rows'[i]))
  }

  lemma SameRowsKeep(db: Tables, db': Tables, requestId: string, sku: string)
    requires SameRows(db.reservations, db'.reservations)
    ensures RowsAgree(db.reservations, requestId, sku) ==> RowsAgree(db'.reservations, requestId, sku)
    ensures forall id :: HasRow(db.reservations, id, requestId) ==> HasRow(db'.reservations, id, requestId)
    ensures forall t :: KnowsRows(db, t, requestId, sku) ==> KnowsRows(db', t, requestId, sku)
  {
    forall id | HasRow(db.reservations, id, requestId)
      ensures HasRow(db'.reservations, id, requestId)
    {
      var i :| 0 <= i < |db.reservations| && db.reservations[i].id == id && db.reservations[i].requestId == requestId;
      assert SameRow(db.reservations[i], db'.reservations[i]);
    }
  }

  lemma AppendKeeps(rows: seq<Reservation>, row: Reservation, id: nat, requestId: string)
    requires HasRow(rows, id, requestId)
    ensures HasRow(rows + [row], id, requestId)
  {
    var i :| 0 <= i < |rows| && rows[i].id == id && rows[i].requestId == requestId;
    assert (rows + [row])[i] == rows[i];
  }

  /** A Reserve commits the row it inserted, and answers with it. */
  lemma InsertKeepsDeduped(s: State, x: nat, requestId: string, sku: string)
    requires Deduped(s, requestId, sku) && Enabled(s, x, Finish)
    requires s.txns[x].op.ReserveOp? && s.txns[x].phase.RowInserted?
    ensures Deduped(Next(s, x, Finish), requestId, sku)
  {
    var t := s.txns[x];
    var s' := Next(s, x, Finish);
    var row := t.row.value;
    var rows := s.db.reservations;
    StepKeepsGood(s, x, Finish);
    assert TxnOk(s.db, s.nextId, t) && KnowsRows(s.db, t, requestId, sku);
    assert s'.db.reservations == rows + [row];
    assert (rows + [row])[|rows|] == row;
    forall y | y in s'.txns ensures KnowsRows(s'.db, s'.txns[y], requestId, sku) {
      assert KnowsRows(s.db, s.txns[y], requestId, sku);
      if AsksFor(s.txns[y], requestId) {
        if row.requestId == requestId { OnlyOneInserts(s, x, y, requestId, sku); }
        else if s.txns[y].phase.RequestKnown? && s.txns[y].row.Some? {
          AppendKeeps(rows, row, s.txns[y].row.value.id, requestId);
        }
      }
    }
    forall y | y in s'.answers && s'.answers[y].request.requestId == requestId
      ensures HasRow(s'.db.reservations, s'.answers[y].id, requestId)
    {
      if y != x { AppendKeeps(rows, row, s.answers[y].id, requestId); }
    }
  }

  /** Every other commit leaves the identities of the rows alone. */
  lemma OtherCommitsKeepRows(s: State, x: nat, a: Action)
    requires Good(s) && Enabled(s, x, a) && (a.CreateProduct? || a.Finish?)
    requires a.Finish? ==> !(s.txns[x].op.ReserveOp? && s.txns[x].phase.RowInserted?)
    ensures SameRows(s.db.reservations, Next(s, x, a).db.reservations)
  {
    if a.Finish? && s.txns[x].op.FillOp? {
      UpdatesArePointwise(s.db.reservations, s.txns[x].done);
    }
  }

  lemma CommitKeepsDeduped(s: State, x: nat, a: Action, requestId: string, sku: string)
    requires Deduped(s, requestId, sku) && Enabled(s, x, a) && (a.CreateProduct? || a.Finish?)
    requires a.Finish? ==> !(s.txns[x].op.ReserveOp? && s.txns[x].phase.RowInserted?)
    ensures Deduped(Next(s, x, a), requestId, sku)
  {
    var s' := Next(s, x, a);
    StepKeepsGood(s, x, a);
    OtherCommitsKeepRows(s, x, a);
    SameRowsKeep(s.db, s'.db, requestId, sku);
    if a.Finish? {
      assert TxnOk(s.db, s.nextId, s.txns[x]) && KnowsRows(s.db, s.txns[x], requestId, sku);
    }
    forall y | y in s'.txns ensures KnowsRows(s'.db, s'.txns[y], requestId, sku) {
      assert KnowsRows(s.db, s.txns[y], requestId, sku);
    }
  }

  lemma MoveKeepsDeduped(s: State, x: nat, a: Action, requestId: string, sku: string)
    requires Deduped(s, requestId, sku) && Enabled(s, x, a) && SameSku(a, requestId, sku)
    requires !a.CreateProduct? && !a.Finish?
    ensures Deduped(Next(s, x, a), requestId, sku)
  {
    hide Good, KnowsRows, RowsAgree, HasRow;
    var s' := Next(s, x, a);
    StepKeepsGood(s, x, a);
    if a.Do? { MovedKnowsRows(s, x, a.call, requestId, sku); }
    if a.Begin? { BeginnerKnowsRows(s.db, s'.txns[x], requestId, sku); }
    forall y | y in s'.txns ensures KnowsRows(s'.db, s'.txns[y], requestId, sku) {
      if y != x { assert KnowsRows(s.db, s.txns[y], requestId, sku); }
    }
  }

  lemma BeginnerKnowsRows(db: Tables, t: Txn, requestId: string, sku: string)
    requires t.phase.Began? && (AsksFor(t, requestId) ==> t.op.request.sku == sku)
    ensures KnowsRows(db, t, requestId, sku)
  {
  }

  lemma MovedKnowsRows(s: State, x: nat, c: RepoCall, requestId: string, sku: string)
    requires Deduped(s, requestId, sku) && Enabled(s, x, Do(c))
    ensures KnowsRows(s.db, Moved(s, s.txns[x], c), requestId, sku)
  {
    hide LocksExclusive, InsertsApart, DbOk, FillOk;
    assert TxnOk(s.db, s.nextId, s.txns[x]) && KnowsRows(s.db, s.txns[x], requestId, sku);
  }

  lemma StepKeepsDeduped(s: State, x: nat, a: Action, requestId: string, sku: string)
    requires Deduped(s, requestId, sku) && Enabled(s, x, a) && SameSku(a, requestId, sku)
    ensures Deduped(Next(s, x, a), requestId, sku)
  {
    if a.Finish? && s.txns[x].op.ReserveOp? && s.txns[x].phase.RowInserted? {
      InsertKeepsDeduped(s, x, requestId, sku);
    } else if a.Finish? || a.CreateProduct? {
      CommitKeepsDeduped(s, x, a, requestId, sku);
    } else {
      MoveKeepsDeduped(s, x, a, requestId, sku);
    }
  }

  lemma {:induction false} RunKeepsDeduped(s: State, run: seq<Step>, requestId: string, sku: string)
    requires Deduped(s, requestId, sku) && Possible(s, run)
    requires forall i :: 0 <= i < |run| ==> SameSku(run[i].action, requestId, sku)
    ensures Deduped(After(s, run), requestId, sku)
    decreases |run|
  {
    if run != [] {
      StepKeepsDeduped(s, run[0].txn, run[0].action, requestId, sku);
      RunKeepsDeduped(Next(s, run[0].txn, run[0].action), run[1..], requestId, sku);
    }
  }

  /** At most one row is ever committed for a request id, and every answer names that row. */
  lemma ConcurrentReserveDedupe(run: seq<Step>, requestId: string, sku: string)
    requires Possible(Initial, run)
    requires forall i :: 0 <= i < |run| ==> SameSku(run[i].action, requestId, sku)
    ensures var s := After(Initial, run);
      && (forall i, j :: 0 <= i < j < |s.db.reservations| ==>
            !(s.db.reservations[i].requestId == requestId == s.db.reservations[j].requestId))
      && (forall x :: x in s.answers && s.answers[x].request.requestId == requestId ==>
            exists i :: 0 <= i < |s.db.reservations|
              && s.db.reservations[i].requestId == requestId && s.db.reservations[i].id == s.answers[x].id)
      && (forall x, y :: x in s.answers && y in s.answers
            && s.answers[x].request.requestId == requestId == s.answers[y].request.requestId
            ==> s.answers[x].id == s.answers[y].id)
  {
    EmptyTablesOk();
    RunKeepsDeduped(Initial, run, requestId, sku);
    var s := After(Initial, run);
    var rows := s.db.reservations;
    forall x, y | x in s.answers && y in s.answers
      && s.answers[x].request.requestId == requestId == s.answers[y].request.requestId
      ensures s.answers[x].id == s.answers[y].id
    {
      var i :| 0 <= i < |rows| && rows[i].id == s.answers[x].id && rows[i].requestId == requestId;
      var j :| 0 <= j < |rows| && rows[j].id == s.answers[y].id && rows[j].requestId == requestId;
      assert i == j;
    }
  }
}
