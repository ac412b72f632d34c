/**
 Interleaved Produce, Reserve and FillReserves transactions. Each step is one repository
 call of one transaction; the row locks of SELECT ... FOR UPDATE are held from the read to
 the commit or abort, pending writes become visible at the commit, and any transaction may
 abort between any two of its calls.
 */
module InventoryConcurrency {
  import opened Common
  import opened Allocation
  import opened InventoryTables

  datatype Lock =
    | ProductLock(sku: string)
    | StockLock(sku: string)
    | ReservationLock(id: nat)

  datatype Op =
    | ProduceOp(event: ProductionEvent)
    | ReserveOp(request: ReservationRequest)
    | FillOp(sku: string)

  datatype Phase =
    | Began
    | EventInserted   // Produce: the production event is written
    | StockRead       // Produce, Fill: the inventory row is read and locked
    | StockSaved      // Produce: the new stock is written; Fill: stock written, its row not yet
    | ProductLocked   // Reserve: the product row is read and locked
    | RequestUnknown  // Reserve: no row carries the request id
    | RequestKnown    // Reserve: `row` already carries the request id
    | RowInserted     // Reserve: `row` is written

  datatype Txn = Txn(
    op: Op,
    phase: Phase,
    locks: set<Lock>,
    available: int,            // the local productInventory.Available
    batch: seq<Reservation>,   // Fill: the rows read for update
    done: seq<Reservation>,    // Fill: the rows written back so far
    row: Option<Reservation>)

  datatype Answer = Answer(request: ReservationRequest, id: nat)

  /** `clock` is the latest creation time handed out. */
  datatype State = State(db: Tables, txns: map<nat, Txn>, answers: map<nat, Answer>, nextId: nat, clock: int)

  const Initial := State(EmptyTables, map[], map[], 1, 0)

  /** One repository call of a transaction. */
  datatype RepoCall =
    | InsertEvent
    | LockStock
    | SaveStock
    | LockProduct
    | LookUpRequest
    | InsertRow(now: int)
    | GatherRow(index: nat)
    | SaveGrant
    | UpdateReservation

  datatype Action =
    | CreateProduct(product: Product)
    | Begin(op: Op)
    | Do(call: RepoCall)
    | Finish
    | Abort

  // ----- the steps -----

  predicate Free(s: State, x: nat, lock: Lock) {
    forall y :: y in s.txns && y != x ==> lock !in s.txns[y].locks
  }

  function SkuOf(op: Op): string {
    match op
    case ProduceOp(event) => event.sku
    case ReserveOp(request) => request.sku
    case FillOp(sku) => sku
  }

  predicate OpOk(op: Op) {
    && SkuOf(op) != ""
    && (op.ProduceOp? ==> op.event.requestId != "" && op.event.quantity >= 1)
    && (op.ReserveOp? ==> op.request.requestId != "" && op.request.quantity >= 1)
  }

  /** The transaction holds an uncommitted production event. */
  predicate HasEvent(t: Txn) {
    t.op.ProduceOp? && t.phase in {EventInserted, StockRead, StockSaved}
  }

  predicate CanFinish(t: Txn) {
    match t.op
    case ProduceOp(_) => t.phase.StockSaved?
    case ReserveOp(_) => (t.phase.RequestKnown? || t.phase.RowInserted?) && t.row.Some?
    case FillOp(_) => t.phase.StockRead? && (|t.done| == |t.batch| || t.available == 0)
  }

  /** Every open row of the SKU created before `created` has been read into the batch. */
  predicate OlderRead(rows: seq<Reservation>, sku: string, batch: seq<Reservation>, created: int) {
    forall i :: 0 <= i < |rows| && Selected(rows[i], sku) && rows[i].created < created ==> rows[i] in batch
  }

  predicate Enabled(s: State, x: nat, a: Action) {
    match a
    case CreateProduct(product) =>
      Allowed(s.db, CreateTx(product))
    case Begin(op) =>
      x !in s.txns && x !in s.answers && OpOk(op)
    case Do(call) => x in s.txns && Callable(s, x, s.txns[x], call)
    case Finish => x in s.txns && CanFinish(s.txns[x])
    case Abort => x in s.txns
  }

  predicate Callable(s: State, x: nat, t: Txn, c: RepoCall) {
    match c
    case InsertEvent =>
      && t.op.ProduceOp? && t.phase.Began?
      && t.op.event.sku in s.db.products
      && !KnownProduction(s.db, t.op.event.requestId)
      // UNIQUE (request_id): the insert waits for an uncommitted one with the same id
      && (forall y :: y in s.txns && HasEvent(s.txns[y]) ==> s.txns[y].op.event.requestId != t.op.event.requestId)
    case LockStock =>
      && ((t.op.ProduceOp? && t.phase.EventInserted?) || (t.op.FillOp? && t.phase.Began?))
      && SkuOf(t.op) in s.db.available
      && Free(s, x, ProductLock(SkuOf(t.op))) && Free(s, x, StockLock(SkuOf(t.op)))
    case SaveStock => t.op.ProduceOp? && t.phase.StockRead?
    case LockProduct =>
      t.op.ReserveOp? && t.phase.Began? && t.op.request.sku in s.db.products && Free(s, x, ProductLock(t.op.request.sku))
    case LookUpRequest =>
      && t.op.ReserveOp? && t.phase.ProductLocked?
      && var found := FindReservation(s.db.reservations, t.op.request.requestId);
         found.Some? ==> Free(s, x, ReservationLock(found.value.id))
    case InsertRow(now) => t.op.ReserveOp? && t.phase.RequestUnknown? && s.clock < now
    case GatherRow(index) =>
      && t.op.FillOp? && t.phase.Began? && |t.batch| < BATCH
      && index < |s.db.reservations|
      && Selected(s.db.reservations[index], t.op.sku)
      && ReservationLock(s.db.reservations[index].id) !in t.locks
      && Free(s, x, ReservationLock(s.db.reservations[index].id))
      // ORDER BY created
      && OlderRead(s.db.reservations, t.op.sku, t.batch, s.db.reservations[index].created)
    case SaveGrant => t.op.FillOp? && t.phase.StockRead? && |t.done| < |t.batch| && t.available != 0
    case UpdateReservation => t.op.FillOp? && t.phase.StockSaved? && t.row.Some?
  }

  /** What a repository call does to the transaction that makes it. */
  function Moved(s: State, t: Txn, c: RepoCall): Txn
    requires c.LockStock? ==> SkuOf(t.op) in s.db.available
    requires c.LockProduct? || c.LookUpRequest? || c.InsertRow? ==> t.op.ReserveOp?
    requires c.SaveStock? ==> t.op.ProduceOp?
    requires c.GatherRow? ==> c.index < |s.db.reservations|
    requires c.SaveGrant? ==> |t.done| < |t.batch|
    requires c.UpdateReservation? ==> t.row.Some?
  {
    match c
    case InsertEvent => t.(phase := EventInserted)
    case LockStock =>
      t.(phase := StockRead, available := s.db.available[SkuOf(t.op)],
         locks := t.locks + {ProductLock(SkuOf(t.op)), StockLock(SkuOf(t.op))})
    case SaveStock => t.(phase := StockSaved, available := t.available + t.op.event.quantity)
    case LockProduct => t.(phase := ProductLocked, locks := t.locks + {ProductLock(t.op.request.sku)})
    case LookUpRequest =>
      var found := FindReservation(s.db.reservations, t.op.request.requestId);
      if found.Some?
      then t.(phase := RequestKnown, row := found, locks := t.locks + {ReservationLock(found.value.id)})
      else t.(phase := RequestUnknown)
    case InsertRow(now) =>
      t.(phase := RowInserted, row := Some(NewReservation(s.nextId, t.op.request, now)))
    case GatherRow(index) =>
      var r := s.db.reservations[index];
      t.(batch := t.batch + [r], locks := t.locks + {ReservationLock(r.id)})
    case SaveGrant =>
      var r := t.batch[|t.done|];
      var amount := Min(Shortfall(r), t.available);
      t.(phase := StockSaved, available := t.available - amount, row := Some(Granted(r, amount)))
    case UpdateReservation => t.(phase := StockRead, done := t.done + [t.row.value], row := None)
  }

  function ApplyUpdates(rows: seq<Reservation>, updates: seq<Reservation>): (r: seq<Reservation>)
    ensures |r| == |rows|
    decreases |updates|
  {
    if updates == [] then rows
    else
      var u := updates[0];
      ApplyUpdates(UpdateRow(rows, u.id, u.state, u.reserved), updates[1..])
  }

  /** The tables after the pending writes of `t` become visible. */
  function Committed(db: Tables, t: Txn): Tables
    requires CanFinish(t)
  {
    match t.op
    case ProduceOp(event) =>
      db.(productions := db.productions + [event], available := db.available[event.sku := t.available])
    case ReserveOp(_) =>
      if t.phase.RowInserted? then db.(reservations := db.reservations + [t.row.value]) else db
    case FillOp(sku) =>
      db.(available := db.available[sku := t.available], reservations := ApplyUpdates(db.reservations, t.done))
  }

  function NextId(s: State, c: RepoCall): nat {
    if c.InsertRow? then s.nextId + 1 else s.nextId
  }

  function NextClock(s: State, c: RepoCall): int {
    if c.InsertRow? then c.now else s.clock
  }

  function Next(s: State, x: nat, a: Action): State
    requires Enabled(s, x, a)
  {
    match a
    case CreateProduct(product) => s.(db := Commit(s.db, CreateTx(product)))
    case Begin(op) => s.(txns := s.txns[x := Txn(op, Began, {}, 0, [], [], None)])
    case Abort => s.(txns := s.txns - {x})
    case Finish =>
      var t := s.txns[x];
      State(Committed(s.db, t), s.txns - {x},
            if t.op.ReserveOp? then s.answers[x := Answer(t.op.request, t.row.value.id)] else s.answers,
            s.nextId, s.clock)
    case Do(call) =>
      s.(txns := s.txns[x := Moved(s, s.txns[x], call)], nextId := NextId(s, call), clock := NextClock(s, call))
  }

  // ----- invariants -----

  /** The committed tables, whoever is in flight. */
  ghost predicate DbOk(db: Tables, nextId: nat) {
    && CatalogOk(db) && "" !in db.products
    && RowsOk(db.reservations) && DistinctIds(db.reservations)
    && (forall i :: 0 <= i < |db.reservations| ==>
          db.reservations[i].id < nextId && db.reservations[i].sku in db.products)
    && ProductionsOk(db)
    && Balanced(db)
  }

  predicate SameRow(r: Reservation, r': Reservation) {
    r' == r.(reserved := r'.reserved, state := r'.state)
  }

  function Reserved(rows: seq<Reservation>): int {
    if rows == [] then 0 else rows[0].reserved + Reserved(rows[1..])
  }

  predicate ProduceOk(db: Tables, t: Txn)
    requires t.op.ProduceOp?
  {
    var sku := t.op.event.sku;
    && t.phase in {Began, EventInserted, StockRead, StockSaved}
    && (HasEvent(t) ==> sku in db.products && sku in db.available && !KnownProduction(db, t.op.event.requestId))
    && (t.phase.StockRead? ==> StockLock(sku) in t.locks && t.available == db.available[sku])
    && (t.phase.StockSaved? ==> StockLock(sku) in t.locks && t.available == db.available[sku] + t.op.event.quantity)
  }

  predicate ReserveOk(db: Tables, nextId: nat, t: Txn)
    requires t.op.ReserveOp?
  {
    var sku := t.op.request.sku;
    && t.phase in {Began, ProductLocked, RequestUnknown, RequestKnown, RowInserted}
    && (!t.phase.Began? ==> ProductLock(sku) in t.locks && sku in db.products)
    && (t.phase.RowInserted? ==>
          && t.row.Some? && t.row.value.id < nextId
          && t.row.value == NewReservation(t.row.value.id, t.op.request, t.row.value.created)
          && (forall i :: 0 <= i < |db.reservations| ==> db.reservations[i].id != t.row.value.id))
    && (t.phase.RequestKnown? ==> t.row.Some? && t.row.value.requestId == t.op.request.requestId)
  }

  predicate BatchOk(db: Tables, t: Txn)
    requires t.op.FillOp?
  {
    && |t.done| <= |t.batch|
    && DistinctIds(t.batch)
    && (forall k :: 0 <= k < |t.batch| ==>
          && t.batch[k] in db.reservations && t.batch[k].sku == t.op.sku
          && ReservationLock(t.batch[k].id) in t.locks)
    && (forall k :: 0 <= k < |t.done| ==> SameRow(t.batch[k], t.done[k]) && RowOk(t.done[k]))
  }

  predicate FillOk(db: Tables, t: Txn)
    requires t.op.FillOp?
  {
    var sku, n := t.op.sku, |t.done|;
    && t.phase in {Began, StockRead, StockSaved}
    && BatchOk(db, t)
    && (t.phase.Began? ==> n == 0)
    && (!t.phase.Began? ==> StockLock(sku) in t.locks && sku in db.available && t.available >= 0)
    && (t.phase.StockRead? ==>
          t.available + Reserved(t.done) == db.available[sku] + Reserved(t.batch[..n]))
    && (t.phase.StockSaved? ==>
          && n < |t.batch| && t.row.Some? && SameRow(t.batch[n], t.row.value) && RowOk(t.row.value)
          && t.available + Reserved(t.done) + t.row.value.reserved
               == db.available[sku] + Reserved(t.batch[..n]) + t.batch[n].reserved)
  }

  /** What a transaction has read still stands, and what it will write balances. */
  predicate TxnOk(db: Tables, nextId: nat, t: Txn) {
    && OpOk(t.op)
    && match t.op
       case ProduceOp(_) => ProduceOk(db, t)
       case ReserveOp(_) => ReserveOk(db, nextId, t)
       case FillOp(_) => FillOk(db, t)
  }

  predicate LocksExclusive(s: State) {
    forall x, y :: x in s.txns && y in s.txns && x != y ==> s.txns[x].locks !! s.txns[y].locks
  }

  /** Uncommitted inserts of different transactions do not collide. */
  predicate InsertsApart(s: State) {
    forall x, y :: x in s.txns && y in s.txns && x != y ==> Apart(s.txns[x], s.txns[y])
  }

  predicate Apart(t: Txn, u: Txn) {
    && (HasEvent(t) && HasEvent(u) ==> t.op.event.requestId != u.op.event.requestId)
    && (t.phase.RowInserted? && u.phase.RowInserted? && t.row.Some? && u.row.Some? ==> t.row.value.id != u.row.value.id)
  }

  ghost predicate Good(s: State) {
    && DbOk(s.db, s.nextId)
    && (forall x :: x in s.txns ==> TxnOk(s.db, s.nextId, s.txns[x]))
    && LocksExclusive(s)
    && InsertsApart(s)
  }

  // ----- the rows a Fill writes back -----

  lemma {:induction false} ReservedAppend(rows: seq<Reservation>, r: Reservation)
    ensures Reserved(rows + [r]) == Reserved(rows) + r.reserved
  {
    if rows != [] {
      assert (rows + [r])[1..] == rows[1..] + [r];
      ReservedAppend(rows[1..], r);
    } else {
      assert (rows + [r])[1..] == [];
    }
  }

  predicate Updates(rows: seq<Reservation>, batch: seq<Reservation>, done: seq<Reservation>, sku: string) {
    && RowsOk(rows) && DistinctIds(rows)
    && |batch| == |done| && DistinctIds(batch)
    && (forall k :: 0 <= k < |done| ==>
          batch[k] in rows && batch[k].sku == sku && SameRow(batch[k], done[k]) && RowOk(done[k]))
  }

  lemma UpdateOne(rows: seq<Reservation>, batch: seq<Reservation>, done: seq<Reservation>, sku: string)
    returns (p: nat)
    requires Updates(rows, batch, done, sku) && done != []
    ensures p < |rows| && rows[p] == batch[0]
    ensures var rows' := UpdateRow(rows, done[0].id, done[0].state, done[0].reserved);
      rows' == rows[p := done[0]] && Updates(rows', batch[1..], done[1..], sku)
  {
    assert batch[0] in rows && SameRow(batch[0], done[0]);
    p :| 0 <= p < |rows| && rows[p] == batch[0];
    UpdateRowIsPointwise(rows, p, done[0].state, done[0].reserved);
    var rows' := rows[p := done[0]];
    forall k | 0 <= k < |batch| - 1
      ensures batch[1..][k] in rows'
    {
      assert batch[k + 1] in rows;
      var q :| 0 <= q < |rows| && rows[q] == batch[k + 1];
      assert batch[0].id != batch[k + 1].id;
      assert rows'[q] == rows[q];
    }
  }

  /** Writing the batch back moves exactly the difference into the rows of its SKU. */
  lemma {:induction false} UpdatesMoveStock(
      rows: seq<Reservation>, batch: seq<Reservation>, done: seq<Reservation>, sku: string, s: string)
    requires Updates(rows, batch, done, sku)
    ensures var r := ApplyUpdates(rows, done);
      && RowsOk(r)
      && Held(r, s) == Held(rows, s) + (if s == sku then Reserved(done) - Reserved(batch) else 0)
    decreases |done|
  {
    if done != [] {
      var p := UpdateOne(rows, batch, done, sku);
      HeldUpdate(rows, p, done[0], s);
      UpdatesMoveStock(rows[p := done[0]], batch[1..], done[1..], sku, s);
    }
  }

  /** Only the updated ids change, and no row changes anything but its fill state. */
  lemma {:induction false} UpdatesArePointwise(rows: seq<Reservation>, done: seq<Reservation>)
    ensures var r := ApplyUpdates(rows, done);
      forall i :: 0 <= i < |rows| ==>
        && SameRow(rows[i], r[i])
        && ((forall k :: 0 <= k < |done| ==> done[k].id != rows[i].id) ==> r[i] == rows[i])
    decreases |done|
  {
    if done != [] {
      var u := done[0];
      var rows' := UpdateRow(rows, u.id, u.state, u.reserved);
      UpdatesArePointwise(rows', done[1..]);
      var r := ApplyUpdates(rows, done);
      forall i | 0 <= i < |rows|
        ensures SameRow(rows[i], r[i])
        ensures (forall k :: 0 <= k < |done| ==> done[k].id != rows[i].id) ==> r[i] == rows[i]
      {
        assert SameRow(rows'[i], r[i]);
        if forall k :: 0 <= k < |done| ==> done[k].id != rows[i].id {
          assert done[0].id != rows[i].id && rows'[i] == rows[i];
          assert forall k :: 0 <= k < |done[1..]| ==> done[1..][k] == done[k + 1];
        }
      }
    }
  }

  // ----- every step keeps the invariant -----

  lemma MovedProduceOk(s: State, x: nat, c: RepoCall)
    requires Good(s) && Enabled(s, x, Do(c)) && s.txns[x].op.ProduceOp?
    ensures TxnOk(s.db, NextId(s, c), Moved(s, s.txns[x], c))
  {
    assert TxnOk(s.db, s.nextId, s.txns[x]);
  }

  lemma MovedReserveOk(s: State, x: nat, c: RepoCall)
    requires Good(s) && Enabled(s, x, Do(c)) && s.txns[x].op.ReserveOp?
    ensures TxnOk(s.db, NextId(s, c), Moved(s, s.txns[x], c))
  {
    assert TxnOk(s.db, s.nextId, s.txns[x]);
  }

  lemma GatherOk(s: State, x: nat, index: nat)
    requires Good(s) && Enabled(s, x, Do(GatherRow(index)))
    ensures TxnOk(s.db, s.nextId, Moved(s, s.txns[x], GatherRow(index)))
  {
    var t := s.txns[x];
    var t' := Moved(s, t, GatherRow(index));
    assert TxnOk(s.db, s.nextId, t);
    forall k | 0 <= k < |t.batch| ensures t.batch[k].id != s.db.reservations[index].id {
      assert ReservationLock(t.batch[k].id) in t.locks;
    }
    assert s.db.reservations[index] in s.db.reservations;
  }

  lemma GrantOk(s: State, x: nat)
    requires Good(s) && Enabled(s, x, Do(SaveGrant))
    ensures TxnOk(s.db, s.nextId, Moved(s, s.txns[x], SaveGrant))
  {
    var t := s.txns[x];
    assert TxnOk(s.db, s.nextId, t);
    assert t.batch[|t.done|] in s.db.reservations;
    assert RowOk(t.batch[|t.done|]);
  }

  lemma UpdateOk(db: Tables, t: Txn)
    requires t.op.FillOp? && FillOk(db, t) && t.phase.StockSaved?
    ensures FillOk(db, t.(phase := StockRead, done := t.done + [t.row.value], row := None))
  {
    var n := |t.done|;
    ReservedAppend(t.done, t.row.value);
    ReservedAppend(t.batch[..n], t.batch[n]);
    assert t.batch[..n + 1] == t.batch[..n] + [t.batch[n]];
  }

  lemma MovedFillOk(s: State, x: nat, c: RepoCall)
    requires Good(s) && Enabled(s, x, Do(c)) && s.txns[x].op.FillOp?
    ensures TxnOk(s.db, NextId(s, c), Moved(s, s.txns[x], c))
  {
    match c {
      case GatherRow(index) => GatherOk(s, x, index);
      case SaveGrant => GrantOk(s, x);
      case UpdateReservation =>
        assert TxnOk(s.db, s.nextId, s.txns[x]);
        UpdateOk(s.db, s.txns[x]);
      case LockStock => assert TxnOk(s.db, s.nextId, s.txns[x]);
    }
  }

  lemma MoveKeepsGood(s: State, x: nat, c: RepoCall)
    requires Good(s) && Enabled(s, x, Do(c))
    ensures Good(Next(s, x, Do(c)))
  {
    var t := s.txns[x];
    var t' := Moved(s, t, c);
    var s' := Next(s, x, Do(c));
    match t.op {
      case ProduceOp(_) => MovedProduceOk(s, x, c);
      case ReserveOp(_) => MovedReserveOk(s, x, c);
      case FillOp(_) => MovedFillOk(s, x, c);
    }
    forall y | y in s'.txns ensures TxnOk(s'.db, s'.nextId, s'.txns[y]) {
      if y != x { assert TxnOk(s.db, s.nextId, s.txns[y]); }
    }
    MoveKeepsLocks(s, x, c);
    MoveKeepsApart(s, x, c);
  }

  lemma MoveKeepsLocks(s: State, x: nat, c: RepoCall)
    requires Good(s) && Enabled(s, x, Do(c))
    ensures LocksExclusive(Next(s, x, Do(c)))
  {
    hide DbOk, TxnOk, InsertsApart, OlderRead;
    var t := s.txns[x];
    var t' := Moved(s, t, c);
    forall y | y in s.txns && y != x ensures s.txns[y].locks !! t'.locks {
      assert s.txns[y].locks !! t.locks;
    }
  }

  lemma MoveKeepsApart(s: State, x: nat, c: RepoCall)
    requires Good(s) && Enabled(s, x, Do(c))
    ensures InsertsApart(Next(s, x, Do(c)))
  {
    hide BatchOk, LocksExclusive, DbOk;
    var t := s.txns[x];
    var t' := Moved(s, t, c);
    assert TxnOk(s.db, s.nextId, t);
    forall y | y in s.txns && y != x ensures Apart(s.txns[y], t') && Apart(t', s.txns[y]) {
      assert Apart(s.txns[y], t) && TxnOk(s.db, s.nextId, s.txns[y]);
    }
  }

  /** No update is lost: a Produce adds its quantity to the stock committed at that moment. */
  lemma ProduceCommitsOntoCurrentStock(s: State, x: nat)
    requires Good(s) && Enabled(s, x, Finish) && s.txns[x].op.ProduceOp?
    ensures Allowed(s.db, ProduceTx(s.txns[x].op.event))
    ensures Next(s, x, Finish).db == Commit(s.db, ProduceTx(s.txns[x].op.event))
  {
    assert TxnOk(s.db, s.nextId, s.txns[x]);
  }

  /** A fill only moves stock between the shelf and the rows of its SKU, as committed now. */
  lemma FillCommitsConserve(s: State, x: nat, k: string)
    requires Good(s) && Enabled(s, x, Finish) && s.txns[x].op.FillOp?
    ensures var db' := Next(s, x, Finish).db;
      && OnShelf(db', k) + Held(db'.reservations, k) == OnShelf(s.db, k) + Held(s.db.reservations, k)
      && (k != s.txns[x].op.sku ==> OnShelf(db', k) == OnShelf(s.db, k))
      && RowsOk(db'.reservations) && CatalogOk(db')
  {
    var t := s.txns[x];
    assert TxnOk(s.db, s.nextId, t);
    var batch := t.batch[..|t.done|];
    assert Updates(s.db.reservations, batch, t.done, t.op.sku);
    UpdatesMoveStock(s.db.reservations, batch, t.done, t.op.sku, k);
  }

  lemma ProduceKeepsDb(s: State, x: nat)
    requires Good(s) && Enabled(s, x, Finish) && s.txns[x].op.ProduceOp?
    ensures DbOk(Next(s, x, Finish).db, s.nextId)
  {
    var event := s.txns[x].op.event;
    var db' := Next(s, x, Finish).db;
    ProduceCommitsOntoCurrentStock(s, x);
    forall k: string ensures Conserved(db', k) {
      assert Conserved(s.db, k);
      MadeAppend(s.db.productions, event, k);
    }
  }

  lemma ReserveKeepsDb(s: State, x: nat)
    requires Good(s) && Enabled(s, x, Finish) && s.txns[x].op.ReserveOp?
    ensures DbOk(Next(s, x, Finish).db, s.nextId)
  {
    var t := s.txns[x];
    var db' := Next(s, x, Finish).db;
    assert TxnOk(s.db, s.nextId, t);
    if t.phase.RowInserted? {
      forall k: string ensures Conserved(db', k) {
        assert Conserved(s.db, k);
        HeldAppend(s.db.reservations, t.row.value, k);
      }
    }
  }

  lemma FillKeepsDb(s: State, x: nat)
    requires Good(s) && Enabled(s, x, Finish) && s.txns[x].op.FillOp?
    ensures DbOk(Next(s, x, Finish).db, s.nextId)
  {
    hide LocksExclusive, InsertsApart, TxnOk, ApplyUpdates, Reserved, OnShelf;
    var t := s.txns[x];
    var db' := Next(s, x, Finish).db;
    FillCommitsConserve(s, x, t.op.sku);
    UpdatesArePointwise(s.db.reservations, t.done);
    forall k: string ensures Conserved(db', k) {
      assert Conserved(s.db, k);
      FillCommitsConserve(s, x, k);
    }
    assert forall i :: 0 <= i < |db'.reservations| ==> SameRow(s.db.reservations[i], db'.reservations[i]);
  }

  lemma FinishKeepsDb(s: State, x: nat)
    requires Good(s) && Enabled(s, x, Finish)
    ensures DbOk(Next(s, x, Finish).db, s.nextId)
  {
    match s.txns[x].op
    case ProduceOp(_) => ProduceKeepsDb(s, x);
    case ReserveOp(_) => ReserveKeepsDb(s, x);
    case FillOp(_) => FillKeepsDb(s, x);
  }

  /** Whatever another transaction has read stays true, because it holds the locks. */
  lemma FinishKeepsOthers(s: State, x: nat, y: nat)
    requires Good(s) && Enabled(s, x, Finish) && y in s.txns && y != x
    ensures TxnOk(Next(s, x, Finish).db, s.nextId, s.txns[y])
  {
    var t, u := s.txns[x], s.txns[y];
    var db' := Next(s, x, Finish).db;
    assert TxnOk(s.db, s.nextId, t) && TxnOk(s.db, s.nextId, u);
    assert t.locks !! u.locks;
    match u.op {
      case ProduceOp(event) =>
        FinishKeepsProduce(s, x, y);
      case ReserveOp(_) =>
        FinishKeepsReserve(s, x, y);
      case FillOp(sku) =>
        FinishKeepsFill(s, x, y);
    }
  }

  lemma FinishKeepsStock(s: State, x: nat, y: nat, sku: string)
    requires Good(s) && Enabled(s, x, Finish) && y in s.txns && y != x
    requires StockLock(sku) in s.txns[y].locks && sku in s.db.available
    ensures sku in Next(s, x, Finish).db.available
    ensures Next(s, x, Finish).db.available[sku] == s.db.available[sku]
  {
    assert TxnOk(s.db, s.nextId, s.txns[x]);
    assert s.txns[x].locks !! s.txns[y].locks;
  }

  lemma FinishKeepsProduce(s: State, x: nat, y: nat)
    requires Good(s) && Enabled(s, x, Finish) && y in s.txns && y != x && s.txns[y].op.ProduceOp?
    ensures TxnOk(Next(s, x, Finish).db, s.nextId, s.txns[y])
  {
    var t, u := s.txns[x], s.txns[y];
    var db' := Next(s, x, Finish).db;
    assert TxnOk(s.db, s.nextId, t) && TxnOk(s.db, s.nextId, u) && Apart(t, u);
    if u.phase.StockRead? || u.phase.StockSaved? {
      FinishKeepsStock(s, x, y, u.op.event.sku);
    }
  }

  lemma FinishKeepsReserve(s: State, x: nat, y: nat)
    requires Good(s) && Enabled(s, x, Finish) && y in s.txns && y != x && s.txns[y].op.ReserveOp?
    ensures TxnOk(Next(s, x, Finish).db, s.nextId, s.txns[y])
  {
    var t, u := s.txns[x], s.txns[y];
    assert TxnOk(s.db, s.nextId, t) && TxnOk(s.db, s.nextId, u) && Apart(t, u);
    if t.op.FillOp? {
      UpdatesArePointwise(s.db.reservations, t.done);
      var db' := Next(s, x, Finish).db;
      assert forall i :: 0 <= i < |db'.reservations| ==> SameRow(s.db.reservations[i], db'.reservations[i]);
    }
  }

  lemma FinishKeepsFill(s: State, x: nat, y: nat)
    requires Good(s) && Enabled(s, x, Finish) && y in s.txns && y != x && s.txns[y].op.FillOp?
    ensures TxnOk(Next(s, x, Finish).db, s.nextId, s.txns[y])
  {
    var t, u := s.txns[x], s.txns[y];
    var db' := Next(s, x, Finish).db;
    assert TxnOk(s.db, s.nextId, t) && TxnOk(s.db, s.nextId, u);
    assert t.locks !! u.locks;
    if !u.phase.Began? {
      FinishKeepsStock(s, x, y, u.op.sku);
    }
    forall k | 0 <= k < |u.batch| ensures u.batch[k] in db'.reservations {
      FinishKeepsBatchRow(s, x, y, k);
    }
  }

  lemma FinishKeepsBatchRow(s: State, x: nat, y: nat, k: nat)
    requires Good(s) && Enabled(s, x, Finish) && y in s.txns && y != x
    requires s.txns[y].op.FillOp? && k < |s.txns[y].batch|
    ensures s.txns[y].batch[k] in Next(s, x, Finish).db.reservations
  {
    var t, u := s.txns[x], s.txns[y];
    var db' := Next(s, x, Finish).db;
    hide DbOk, InsertsApart, Reserved;
    assert TxnOk(s.db, s.nextId, t) && TxnOk(s.db, s.nextId, u);
    assert t.locks !! u.locks;
    assert u.batch[k] in s.db.reservations;
    var i :| 0 <= i < |s.db.reservations| && s.db.reservations[i] == u.batch[k];
    if t.op.FillOp? {
      UpdatesArePointwise(s.db.reservations, t.done);
      forall j | 0 <= j < |t.done| ensures t.done[j].id != u.batch[k].id {
        assert SameRow(t.batch[j], t.done[j]);
        assert ReservationLock(t.batch[j].id) in t.locks && ReservationLock(u.batch[k].id) in u.locks;
      }
    }
    assert db'.reservations[i] == u.batch[k];
  }

  lemma FinishKeepsGood(s: State, x: nat)
    requires Good(s) && Enabled(s, x, Finish)
    ensures Good(Next(s, x, Finish))
  {
    FinishKeepsDb(s, x);
    forall y | y in s.txns && y != x ensures TxnOk(Next(s, x, Finish).db, s.nextId, s.txns[y]) {
      FinishKeepsOthers(s, x, y);
    }
  }

  lemma CreateKeepsGood(s: State, x: nat, product: Product)
    requires Good(s) && Enabled(s, x, CreateProduct(product))
    ensures Good(Next(s, x, CreateProduct(product)))
  {
    var s' := Next(s, x, CreateProduct(product));
    NothingHeld(s.db.reservations, product.sku);
    NothingMade(s.db.productions, product.sku);
    forall k: string ensures Conserved(s'.db, k) {
      assert Conserved(s.db, k);
    }
    forall y | y in s.txns ensures TxnOk(s'.db, s'.nextId, s.txns[y]) {
      assert TxnOk(s.db, s.nextId, s.txns[y]);
    }
  }

  lemma StepKeepsGood(s: State, x: nat, a: Action)
    requires Good(s) && Enabled(s, x, a)
    ensures Good(Next(s, x, a))
  {
    match a
    case CreateProduct(product) => CreateKeepsGood(s, x, product);
    case Finish => FinishKeepsGood(s, x);
    case Begin(op) =>
    case Abort =>
    case Do(c) => MoveKeepsGood(s, x, c);
  }

  // ----- whole runs -----

  datatype Step = Step(txn: nat, action: Action)

  predicate Possible(s: State, run: seq<Step>)
    decreases |run|
  {
    run != [] ==> Enabled(s, run[0].txn, run[0].action) && Possible(Next(s, run[0].txn, run[0].action), run[1..])
  }

  function After(s: State, run: seq<Step>): State
    requires Possible(s, run)
    decreases |run|
  {
    if run == [] then s else After(Next(s, run[0].txn, run[0].action), run[1..])
  }

  lemma {:induction false} RunKeepsGood(s: State, run: seq<Step>)
    requires Good(s) && Possible(s, run)
    ensures Good(After(s, run))
    decreases |run|
  {
    if run != [] {
      StepKeepsGood(s, run[0].txn, run[0].action);
      RunKeepsGood(Next(s, run[0].txn, run[0].action), run[1..]);
    }
  }

  /** Conservation under any interleaving, with aborts anywhere; and no request id produces twice. */
  lemma ConcurrentConservation(run: seq<Step>, sku: string)
    requires Possible(Initial, run)
    ensures var db := After(Initial, run).db;
      && OnShelf(db, sku) + Held(db.reservations, sku) == Made(db.productions, sku)
      && OnShelf(db, sku) >= 0
      && RowsOk(db.reservations)
      && DistinctProductionRequests(db.productions)
  {
    EmptyTablesOk();
    RunKeepsGood(Initial, run);
    assert Conserved(After(Initial, run).db, sku);
  }
}
