/**
 Serializability: whatever the interleaving, the committed tables are those of the committed
 transactions executed one after the other in the order of their commits. A Fill that
 committed amid others is one sequential pass over the tables of that moment.
 */
module InventorySerial {
  import opened Common
  import opened Allocation
  import opened InventoryTables
  import opened InventoryConcurrency
  import opened InventoryOrder

  // ----- a Fill computes the sequential pass -----

  /** The rows of a batch after granting from `available`, oldest first. */
  function Grants(available: int, batch: seq<Reservation>): (f: Filled)
    ensures |f.rows| == |batch|
  {
    if batch == [] then Filled(available, [])
    else
      var f, r := Grants(available, batch[..|batch| - 1]), batch[|batch| - 1];
      var amount := Min(Shortfall(r), f.available);
      Filled(f.available - amount, f.rows + [Granted(r, amount)])
  }

  lemma GrantsOneMore(available: int, batch: seq<Reservation>, n: nat)
    requires n < |batch|
    ensures var f := Grants(available, batch[..n]);
      var amount := Min(Shortfall(batch[n]), f.available);
      Grants(available, batch[..n + 1]) == Filled(f.available - amount, f.rows + [Granted(batch[n], amount)])
  {
    assert batch[..n + 1][..n] == batch[..n];
  }

  /** A batch that is sorted, and skips no older open row, is the front of the queue. */
  lemma {:induction false} BatchIsQueueFront(batch: seq<Reservation>, queue: seq<Reservation>)
    requires CreatedInOrder(batch) && CreatedInOrder(queue)
    requires forall k :: 0 <= k < |batch| ==> batch[k] in queue
    requires forall q, k :: 0 <= q < |queue| && 0 <= k < |batch| && queue[q].created < batch[k].created ==> queue[q] in batch
    ensures |batch| <= |queue| && batch == queue[..|batch|]
    decreases |batch|
  {
    if batch != [] {
      var m := |batch| - 1;
      var front := batch[..m];
      forall q, k | 0 <= q < |queue| && 0 <= k < m && queue[q].created < front[k].created
        ensures queue[q] in front
      {
        OlderInFront(batch, queue[q], k);
      }
      BatchIsQueueFront(front, queue);
      LastIsNext(batch, queue, m);
      assert queue[..m + 1] == queue[..m] + [queue[m]];
    }
  }

  lemma OlderInFront(batch: seq<Reservation>, r: Reservation, k: nat)
    requires CreatedInOrder(batch) && k < |batch| - 1
    requires r in batch && r.created < batch[k].created
    ensures r in batch[..|batch| - 1]
  {
    var l :| 0 <= l < |batch| && batch[l] == r;
    assert l != |batch| - 1;
    assert batch[..|batch| - 1][l] == r;
  }

  lemma LastIsNext(batch: seq<Reservation>, queue: seq<Reservation>, m: nat)
    requires CreatedInOrder(batch) && CreatedInOrder(queue)
    requires m == |batch| - 1 && m <= |queue| && batch[..m] == queue[..m] && batch[m] in queue
    requires forall q :: 0 <= q < |queue| && queue[q].created < batch[m].created ==> queue[q] in batch
    ensures m < |queue| && batch[m] == queue[m]
  {
    forall l | 0 <= l < m ensures batch[l] == queue[l] {
      assert batch[..m][l] == queue[..m][l];
    }
    var q :| 0 <= q < |queue| && queue[q] == batch[m];
    assert m < q ==> queue[m] in batch;
  }

  lemma {:induction false} ApplyOneMore(rows: seq<Reservation>, done: seq<Reservation>, u: Reservation)
    ensures ApplyUpdates(rows, done + [u]) == UpdateRow(ApplyUpdates(rows, done), u.id, u.state, u.reserved)
    decreases |done|
  {
    if done == [] {
      assert (done + [u])[1..] == [] && (done + [u])[0] == u;
    } else {
      assert (done + [u])[1..] == done[1..] + [u];
      ApplyOneMore(UpdateRow(rows, done[0].id, done[0].state, done[0].reserved), done[1..], u);
    }
  }

  /** Granting to the next row of the queue is a pass over one row more, with or without stock. */
  lemma FillOneMoreAlways(available: int, rows: seq<Reservation>, sku: string, i: nat)
    requires available >= 0 && RowsOk(rows) && i < OpenCount(rows, sku)
    ensures var f := Fill(available, rows, sku, i);
      var p := Position(rows, sku, i);
      && |f.rows| == |rows| && f.rows[p] == rows[p] && f.available >= 0
      && Fill(available, rows, sku, i + 1) == GrantAt(f, p)
  {
    var f, p := Fill(available, rows, sku, i), Position(rows, sku, i);
    FillEvolves(available, rows, sku, i);
    if f.available != 0 {
      FillOneMore(available, rows, sku, i);
    } else {
      FillStopsWhenEmpty(available, rows, sku, i, i + 1);
      FillClosedForm(available, rows, sku, i, p);
      assert RowOk(rows[p]) && Granted(rows[p], 0) == rows[p];
      assert f.rows[p := rows[p]] == f.rows;
    }
  }

  predicate SameIds(rows: seq<Reservation>, rows': seq<Reservation>) {
    && |rows| == |rows'|
    && forall i :: 0 <= i < |rows| ==> rows[i].id == rows'[i].id
  }

  lemma FillKeepsIds(available: int, rows: seq<Reservation>, sku: string, i: nat)
    requires available >= 0 && RowsOk(rows)
    ensures SameIds(rows, Fill(available, rows, sku, i).rows)
  {
    FillEvolves(available, rows, sku, i);
    var f := Fill(available, rows, sku, i);
    forall k | 0 <= k < |rows| ensures rows[k].id == f.rows[k].id {
      assert RowEvolves(rows[k], f.rows[k]);
    }
  }

  lemma SameIdsDistinct(rows: seq<Reservation>, rows': seq<Reservation>)
    requires DistinctIds(rows) && SameIds(rows, rows')
    ensures DistinctIds(rows')
  {
  }

  /** Writing the granted batch back by id is the pass over as many rows. */
  lemma {:induction false} GrantsAreTheFill(available: int, rows: seq<Reservation>, sku: string, n: nat)
    requires available >= 0 && RowsOk(rows) && DistinctIds(rows) && n <= OpenCount(rows, sku)
    ensures var g := Grants(available, Queue(rows, sku)[..n]);
      Filled(g.available, ApplyUpdates(rows, g.rows)) == Fill(available, rows, sku, n)
  {
    var queue := Queue(rows, sku);
    if n == 0 {
      FillIdle(available, rows, sku, 0);
    } else {
      var g, f := Grants(available, queue[..n - 1]), Fill(available, rows, sku, n - 1);
      var p := Position(rows, sku, n - 1);
      GrantsAreTheFill(available, rows, sku, n - 1);
      GrantsOneMore(available, queue, n - 1);
      FillOneMoreAlways(available, rows, sku, n - 1);
      FillKeepsIds(available, rows, sku, n - 1);
      SameIdsDistinct(rows, f.rows);
      var u := Granted(rows[p], Min(Shortfall(rows[p]), f.available));
      ApplyOneMore(rows, g.rows, u);
      UpdateRowIsPointwise(f.rows, p, u.state, u.reserved);
    }
  }

  // ----- the invariant -----

  /** A Fill has granted so far what the sequential pass would grant from the stock it locked. */
  predicate GrantsOk(db: Tables, t: Txn) {
    t.op.FillOp? && !t.phase.Began? ==>
      && t.op.sku in db.available && |t.done| <= |t.batch|
      && (t.phase.StockRead? ==>
            Filled(t.available, t.done) == Grants(db.available[t.op.sku], t.batch[..|t.done|]))
      && (t.phase.StockSaved? ==>
            && |t.done| < |t.batch| && t.row.Some?
            && Filled(t.available, t.done + [t.row.value])
                 == Grants(db.available[t.op.sku], t.batch[..|t.done| + 1]))
  }

  /** A Reserve past its lookup is the only bearer of its request id in its SKU, and its row the newest. */
  predicate InsertAlone(rows: seq<Reservation>, t: Txn) {
    t.op.ReserveOp? && (t.phase.RequestUnknown? || t.phase.RowInserted?) ==>
      forall i :: 0 <= i < |rows| && rows[i].sku == t.op.request.sku ==>
        && rows[i].requestId != t.op.request.requestId
        && (t.phase.RowInserted? && t.row.Some? ==> rows[i].id < t.row.value.id)
  }

  ghost predicate Serial(s: State) {
    && Ordered(s)
    && (forall x :: x in s.txns ==> GrantsOk(s.db, s.txns[x]) && InsertAlone(s.db.reservations, s.txns[x]))
  }

  lemma GrantStep(db: Tables, t: Txn)
    requires t.op.FillOp? && t.phase.StockRead? && GrantsOk(db, t) && |t.done| < |t.batch|
    ensures var r := t.batch[|t.done|];
      var amount := Min(Shortfall(r), t.available);
      GrantsOk(db, t.(phase := StockSaved, available := t.available - amount, row := Some(Granted(r, amount))))
  {
    GrantsOneMore(db.available[t.op.sku], t.batch, |t.done|);
  }

  lemma UpdateStep(db: Tables, t: Txn)
    requires t.op.FillOp? && t.phase.StockSaved? && GrantsOk(db, t) && t.row.Some?
    ensures GrantsOk(db, t.(phase := StockRead, done := t.done + [t.row.value], row := None))
  {
  }

  lemma LockStep(db: Tables, t: Txn, locks: set<Lock>)
    requires t.op.FillOp? && t.done == [] && t.op.sku in db.available
    ensures GrantsOk(db, t.(phase := StockRead, available := db.available[t.op.sku], locks := locks))
  {
  }

  lemma MoveKeepsGrants(s: State, x: nat, c: RepoCall)
    requires Serial(s) && Enabled(s, x, Do(c))
    ensures GrantsOk(s.db, Moved(s, s.txns[x], c))
  {
    hide Ordered, Grants, GrantsOk;
    var t := s.txns[x];
    if t.op.FillOp? {
      FillFacts(s, x);
      match c {
        case SaveGrant => GrantStep(s.db, t);
        case UpdateReservation => UpdateStep(s.db, t);
        case LockStock => LockStep(s.db, t, Moved(s, t, c).locks);
        case GatherRow(_) => BeganHasNoGrants(s.db, Moved(s, t, c));
      }
    } else {
      BeganHasNoGrants(s.db, Moved(s, t, c));
    }
  }

  lemma BeganHasNoGrants(db: Tables, t: Txn)
    requires t.op.FillOp? ==> t.phase.Began?
    ensures GrantsOk(db, t)
  {
  }

  lemma IdsBelow(s: State)
    requires Ordered(s)
    ensures forall i :: 0 <= i < |s.db.reservations| ==> s.db.reservations[i].id < s.nextId
  {
  }

  lemma MoveKeepsAlone(s: State, x: nat, c: RepoCall)
    requires Serial(s) && Enabled(s, x, Do(c))
    ensures InsertAlone(s.db.reservations, Moved(s, s.txns[x], c))
  {
    hide Ordered, GrantsOk;
    IdsBelow(s);
    assert InsertAlone(s.db.reservations, s.txns[x]);
  }

  lemma MoveKeepsSerial(s: State, x: nat, c: RepoCall)
    requires Serial(s) && Enabled(s, x, Do(c))
    ensures Serial(Next(s, x, Do(c)))
  {
    hide Ordered, GrantsOk, InsertAlone;
    StepKeepsOrdered(s, x, Do(c));
    MoveKeepsGrants(s, x, c);
    MoveKeepsAlone(s, x, c);
  }

  // ----- what a commit is -----

  /** The sequential transaction that a step commits, if it commits one. */
  function Committing(s: State, x: nat, a: Action): Option<Transaction>
    requires Enabled(s, x, a)
  {
    match a
    case CreateProduct(product) => Some(CreateTx(product))
    case Finish =>
      var t := s.txns[x];
      (match t.op
       case ProduceOp(event) => Some(ProduceTx(event))
       case ReserveOp(_) => if t.phase.RowInserted? then Some(ReserveTx(t.row.value)) else None
       case FillOp(sku) => Some(FillTx(sku, |t.batch|)))
    case _ => None
  }

  /**
   What the code and the constraints check before a transaction can commit amid others: as
   in the sequential case, with the order of ids and creation times, and the uniqueness of
   request ids, taken per SKU, because the product lock is taken per SKU.
   */
  predicate Admitted(t: Tables, x: Transaction) {
    match x
    case ReserveTx(row) =>
      && row.requestId != "" && row.sku != "" && row.requested >= 1
      && row.reserved == 0 && row.state.Open? && row.sku in t.products
      && (forall i :: 0 <= i < |t.reservations| ==>
            && t.reservations[i].id != row.id
            && (t.reservations[i].sku == row.sku ==> NewerOf(row, t.reservations[i])))
    case _ => Allowed(t, x)
  }

  /** A later request of the same SKU. */
  predicate NewerOf(row: Reservation, before: Reservation) {
    before.id < row.id && before.created < row.created && before.requestId != row.requestId
  }

  lemma ProduceIsSerial(s: State, x: nat)
    requires Serial(s) && Enabled(s, x, Finish) && s.txns[x].op.ProduceOp?
    ensures var tx := ProduceTx(s.txns[x].op.event);
      Admitted(s.db, tx) && Next(s, x, Finish).db == Commit(s.db, tx)
  {
    ProduceCommitsOntoCurrentStock(s, x);
  }

  lemma ReserveIsSerial(s: State, x: nat)
    requires Serial(s) && Enabled(s, x, Finish) && s.txns[x].op.ReserveOp? && s.txns[x].phase.RowInserted?
    ensures var tx := ReserveTx(s.txns[x].row.value);
      Admitted(s.db, tx) && Next(s, x, Finish).db == Commit(s.db, tx)
  {
    hide DbOk, LocksExclusive, InsertsApart, GrantsOk, FillOrdered, RowsOrdered;
    var t := s.txns[x];
    assert TxnOk(s.db, s.nextId, t) && InsertOrdered(s.db.reservations, s.clock, t);
    assert InsertAlone(s.db.reservations, t);
  }

  /** The queue of a SKU is in the order of its creation times. */
  lemma {:induction false} SkuQueueInOrder(rows: seq<Reservation>, sku: string)
    requires SkuInOrder(rows) && sku != ""
    ensures CreatedInOrder(Queue(rows, sku))
    ensures forall r :: r in Queue(rows, sku) <==> r in rows && Selected(r, sku)
  {
    if rows != [] {
      var rest := Queue(rows[1..], sku);
      SkuQueueInOrder(rows[1..], sku);
      if Selected(rows[0], sku) {
        forall k | 0 <= k < |rest| ensures rows[0].created < rest[k].created {
          assert rest[k] in rows[1..];
          var i :| 0 <= i < |rows[1..]| && rows[1..][i] == rest[k];
          assert rows[i + 1].sku == rows[0].sku;
        }
      }
      assert forall r :: r in rows <==> r == rows[0] || r in rows[1..];
    }
  }

  /** The batch of a Fill is the front of the open queue of the tables committed now. */
  lemma BatchIsFront(s: State, x: nat)
    requires Ordered(s) && x in s.txns && s.txns[x].op.FillOp?
    ensures var t := s.txns[x];
      var queue := Queue(s.db.reservations, t.op.sku);
      |t.batch| <= |queue| && t.batch == queue[..|t.batch|]
  {
    var t, rows := s.txns[x], s.db.reservations;
    FillFacts(s, x);
    hide Good, InsertOrdered, DoneOrdered, FillOrdered;
    var queue := Queue(rows, t.op.sku);
    SkuQueueInOrder(rows, t.op.sku);
    forall q, k | 0 <= q < |queue| && 0 <= k < |t.batch| && queue[q].created < t.batch[k].created
      ensures queue[q] in t.batch
    {
      assert OlderRead(rows, t.op.sku, t.batch, t.batch[k].created) && queue[q] in queue;
    }
    BatchIsQueueFront(t.batch, queue);
  }

  lemma DbFacts(s: State)
    requires Ordered(s)
    ensures RowsOk(s.db.reservations) && DistinctIds(s.db.reservations)
    ensures forall k :: k in s.db.available ==> s.db.available[k] >= 0
  {
  }

  /** A Fill that commits amid others is one pass over the tables committed at that moment. */
  lemma FillIsSerial(s: State, x: nat)
    requires Serial(s) && Enabled(s, x, Finish) && s.txns[x].op.FillOp?
    ensures var t := s.txns[x];
      && t.op.sku in s.db.available
      && Next(s, x, Finish).db == FillTables(s.db, t.op.sku, |t.batch|)
  {
    hide Ordered, Fill, Grants, Queue, Rank, ApplyUpdates, RowsOk, DistinctIds;
    var t, rows := s.txns[x], s.db.reservations;
    var n, stock := |t.done|, s.db.available[t.op.sku];
    assert GrantsOk(s.db, t);
    DbFacts(s);
    BatchIsFront(s, x);
    assert t.batch[..n] == Queue(rows, t.op.sku)[..n];
    GrantsAreTheFill(stock, rows, t.op.sku, n);
    if n < |t.batch| {
      FillStopsWhenEmpty(stock, rows, t.op.sku, n, |t.batch|);
    }
  }

  /** Every step commits one sequential transaction onto the tables of that moment, or nothing. */
  lemma StepIsSerial(s: State, x: nat, a: Action)
    requires Serial(s) && Enabled(s, x, a)
    ensures match Committing(s, x, a)
      case None => Next(s, x, a).db == s.db
      case Some(tx) => Admitted(s.db, tx) && Applicable(s.db, tx) && Next(s, x, a).db == Commit(s.db, tx)
  {
    if a.Finish? {
      hide Serial, FillTables;
      match s.txns[x].op {
        case ProduceOp(_) => ProduceIsSerial(s, x);
        case ReserveOp(_) => if s.txns[x].phase.RowInserted? { ReserveIsSerial(s, x); }
        case FillOp(_) => FillIsSerial(s, x);
      }
    }
  }

  // ----- every step keeps the invariant -----

  lemma StockStays(s: State, x: nat, y: nat)
    requires Serial(s) && Enabled(s, x, Finish) && y in s.txns && y != x
    requires s.txns[y].op.FillOp? && !s.txns[y].phase.Began?
    ensures var sku := s.txns[y].op.sku;
      && sku in s.db.available && sku in Next(s, x, Finish).db.available
      && Next(s, x, Finish).db.available[sku] == s.db.available[sku]
  {
    hide GrantsOk, InsertAlone, RowsOrdered, FillOrdered, InsertOrdered, DbOk, InsertsApart;
    assert TxnOk(s.db, s.nextId, s.txns[y]);
    FinishKeepsStock(s, x, y, s.txns[y].op.sku);
  }

  lemma FinishKeepsGrants(s: State, x: nat, y: nat)
    requires Serial(s) && Enabled(s, x, Finish) && y in s.txns && y != x
    ensures GrantsOk(Next(s, x, Finish).db, s.txns[y])
  {
    hide Ordered, InsertAlone, Grants;
    assert GrantsOk(s.db, s.txns[y]);
    if s.txns[y].op.FillOp? && !s.txns[y].phase.Began? {
      StockStays(s, x, y);
    }
  }

  lemma FinishKeepsAlone(s: State, x: nat, y: nat)
    requires Serial(s) && Enabled(s, x, Finish) && y in s.txns && y != x
    ensures InsertAlone(Next(s, x, Finish).db.reservations, s.txns[y])
  {
    hide GrantsOk, RowsOrdered, FillOrdered, InsertOrdered, ApplyUpdates;
    var t, u, rows := s.txns[x], s.txns[y], s.db.reservations;
    var rows' := Next(s, x, Finish).db.reservations;
    assert InsertAlone(rows, u);
    if t.op.FillOp? {
      FillCommits(s, x);
      assert forall i :: 0 <= i < |rows| ==> RowEvolves(rows[i], rows'[i]);
    } else if t.op.ReserveOp? && t.phase.RowInserted? {
      assert TxnOk(s.db, s.nextId, t) && rows' == rows + [t.row.value];
      if u.op.ReserveOp? && u.op.request.sku == t.op.request.sku {
        OneReservePerSku(s, x, y);
      }
    }
  }

  lemma FinishKeepsSerial(s: State, x: nat)
    requires Serial(s) && Enabled(s, x, Finish)
    ensures Serial(Next(s, x, Finish))
  {
    hide Ordered, GrantsOk, InsertAlone;
    StepKeepsOrdered(s, x, Finish);
    var s' := Next(s, x, Finish);
    forall y | y in s'.txns ensures GrantsOk(s'.db, s'.txns[y]) && InsertAlone(s'.db.reservations, s'.txns[y]) {
      FinishKeepsGrants(s, x, y);
      FinishKeepsAlone(s, x, y);
    }
  }

  lemma QuietStepKeepsSerial(s: State, x: nat, a: Action)
    requires Serial(s) && Enabled(s, x, a) && (a.CreateProduct? || a.Abort? || a.Begin?)
    ensures Serial(Next(s, x, a))
  {
    hide Ordered, Grants;
    StepKeepsOrdered(s, x, a);
    var s' := Next(s, x, a);
    forall y | y in s'.txns ensures GrantsOk(s'.db, s'.txns[y]) && InsertAlone(s'.db.reservations, s'.txns[y]) {
      if y in s.txns && !(a.Begin? && y == x) {
        assert GrantsOk(s.db, s.txns[y]) && InsertAlone(s.db.reservations, s.txns[y]);
        if a.CreateProduct? { CatalogFacts(s, a.product); }
      }
    }
  }

  lemma CatalogFacts(s: State, product: Product)
    requires Ordered(s) && Allowed(s.db, CreateTx(product))
    ensures product.sku !in s.db.available
  {
  }

  lemma StepKeepsSerial(s: State, x: nat, a: Action)
    requires Serial(s) && Enabled(s, x, a)
    ensures Serial(Next(s, x, a))
  {
    hide Serial;
    match a {
      case Finish => FinishKeepsSerial(s, x);
      case Do(c) => MoveKeepsSerial(s, x, c);
      case CreateProduct(_) => QuietStepKeepsSerial(s, x, a);
      case Abort => QuietStepKeepsSerial(s, x, a);
      case Begin(_) => QuietStepKeepsSerial(s, x, a);
    }
  }

  // ----- whole runs -----

  /** The transactions a run commits, in the order of their commits. */
  function Log(s: State, run: seq<Step>): seq<Transaction>
    requires Possible(s, run)
    decreases |run|
  {
    if run == [] then []
    else
      var rest := Log(Next(s, run[0].txn, run[0].action), run[1..]);
      match Committing(s, run[0].txn, run[0].action)
      case None => rest
      case Some(tx) => [tx] + rest
  }

  predicate Replayable(t: Tables, log: seq<Transaction>)
    decreases |log|
  {
    log != [] ==>
      Admitted(t, log[0]) && Applicable(t, log[0]) && Replayable(Commit(t, log[0]), log[1..])
  }

  /** The transactions of the log, one after the other, alone. */
  function Replay(t: Tables, log: seq<Transaction>): Tables
    requires Replayable(t, log)
    decreases |log|
  {
    if log == [] then t else Replay(Commit(t, log[0]), log[1..])
  }

  lemma ReplayOneMore(t: Tables, tx: Transaction, rest: seq<Transaction>)
    requires Admitted(t, tx) && Applicable(t, tx) && Replayable(Commit(t, tx), rest)
    ensures Replayable(t, [tx] + rest) && Replay(t, [tx] + rest) == Replay(Commit(t, tx), rest)
  {
    assert ([tx] + rest)[1..] == rest;
  }

  lemma {:induction false} RunIsSerial(s: State, run: seq<Step>)
    requires Serial(s) && Possible(s, run)
    ensures Replayable(s.db, Log(s, run)) && After(s, run).db == Replay(s.db, Log(s, run))
    decreases |run|
  {
    if run != [] {
      hide Serial, Next, Enabled, Commit, Admitted, Applicable, Committing;
      var x, a := run[0].txn, run[0].action;
      StepIsSerial(s, x, a);
      StepKeepsSerial(s, x, a);
      RunIsSerial(Next(s, x, a), run[1..]);
      match Committing(s, x, a) {
        case None =>
        case Some(tx) => ReplayOneMore(s.db, tx, Log(Next(s, x, a), run[1..]));
      }
    }
  }

  /**
   Serializability. However Produce, Reserve, FillReserves and CreateProduct are interleaved,
   and whichever of them abort, the committed tables are those of the committed ones executed
   alone, one after the other, in the order of their commits.
   */
  lemma ConcurrentRunsAreSerial(run: seq<Step>)
    requires Possible(Initial, run)
    ensures Replayable(EmptyTables, Log(Initial, run))
    ensures After(Initial, run).db == Replay(EmptyTables, Log(Initial, run))
  {
    EmptyTablesOk();
    assert Ordered(Initial);
    RunIsSerial(Initial, run);
  }
}
