/**
 Progress: whenever no other transaction holds a lock it needs, a Produce, Reserve or
 FillReserves can run to its commit by its own steps, whatever else is in flight, and then
 the committed tables are those of the call made alone. Said of runs, field by field.
 */
module InventoryProgress {
  import opened Common
  import opened Allocation
  import opened InventoryTables
  import opened InventoryConcurrency
  import opened InventoryOrder
  import opened InventorySerial

  /** No other transaction holds a lock on the rows of the SKU. */
  predicate Unblocked(s: State, x: nat, sku: string) {
    forall y :: y in s.txns && y != x ==>
      && ProductLock(sku) !in s.txns[y].locks && StockLock(sku) !in s.txns[y].locks
      && (forall i :: 0 <= i < |s.db.reservations| && s.db.reservations[i].sku == sku ==>
            ReservationLock(s.db.reservations[i].id) !in s.txns[y].locks)
  }

  predicate StepsOfOne(run: seq<Step>, x: nat) {
    forall i :: 0 <= i < |run| ==> run[i].txn == x
  }

  /** Everything but transaction `x` is as it was. */
  predicate OnlyOwn(s: State, s': State, x: nat) {
    && s'.db == s.db && s'.answers == s.answers && s'.nextId == s.nextId && s'.clock == s.clock
    && s'.txns - {x} == s.txns - {x}
  }

  // ----- putting runs together -----

  lemma RunOneMore(s: State, x: nat, a: Action, rest: seq<Step>)
    requires Enabled(s, x, a) && Possible(Next(s, x, a), rest)
    ensures Possible(s, [Step(x, a)] + rest) && After(s, [Step(x, a)] + rest) == After(Next(s, x, a), rest)
  {
    assert ([Step(x, a)] + rest)[1..] == rest;
  }

  lemma {:induction false} RunAppend(s: State, first: seq<Step>, rest: seq<Step>)
    requires Possible(s, first) && Possible(After(s, first), rest)
    ensures Possible(s, first + rest) && After(s, first + rest) == After(After(s, first), rest)
    decreases |first|
  {
    if first == [] {
      assert first + rest == rest;
    } else {
      RunAppend(Next(s, first[0].txn, first[0].action), first[1..], rest);
      assert (first + rest)[1..] == first[1..] + rest;
    }
  }

  lemma {:induction false} RunKeepsSerial(s: State, run: seq<Step>)
    requires Serial(s) && Possible(s, run)
    ensures Serial(After(s, run))
    decreases |run|
  {
    if run != [] {
      hide Serial;
      StepKeepsSerial(s, run[0].txn, run[0].action);
      RunKeepsSerial(Next(s, run[0].txn, run[0].action), run[1..]);
    }
  }

  lemma StillUnblocked(s: State, s': State, x: nat, sku: string)
    requires Unblocked(s, x, sku) && OnlyOwn(s, s', x)
    ensures Unblocked(s', x, sku)
  {
    forall y | y in s'.txns && y != x ensures y in s.txns && s'.txns[y] == s.txns[y] {
      assert y in s'.txns - {x};
      assert (s.txns - {x})[y] == (s'.txns - {x})[y];
    }
  }

  lemma OwnSteps(s: State, x: nat, c: RepoCall)
    requires Enabled(s, x, Do(c)) && !c.InsertRow?
    ensures OnlyOwn(s, Next(s, x, Do(c)), x)
  {
  }

  // ----- FillReserves -----

  /** The locks of a Fill that has not locked the stock yet are those of its batch. */
  ghost predicate OnlyBatchLocks(t: Txn) {
    forall id: nat :: ReservationLock(id) in t.locks ==> exists r :: r in t.batch && r.id == id
  }

  lemma QueueIdsDiffer(rows: seq<Reservation>, sku: string, k: nat, l: nat)
    requires DistinctIds(rows) && k < OpenCount(rows, sku) && l < OpenCount(rows, sku) && k != l
    ensures Queue(rows, sku)[k].id != Queue(rows, sku)[l].id
  {
    var p, q := Position(rows, sku, k), Position(rows, sku, l);
    assert p != q;
    if p < q { assert rows[p].id != rows[q].id; } else { assert rows[q].id != rows[p].id; }
  }

  lemma OlderStandsBefore(queue: seq<Reservation>, k: nat, r: Reservation)
    requires CreatedInOrder(queue) && k < |queue| && r in queue && r.created < queue[k].created
    ensures r in queue[..k]
  {
    var l :| 0 <= l < |queue| && queue[l] == r;
    assert l < k;
    assert queue[..k][l] == queue[l];
  }

  lemma NextIsOldest(rows: seq<Reservation>, sku: string, k: nat)
    requires SkuInOrder(rows) && sku != "" && k < OpenCount(rows, sku)
    ensures OlderRead(rows, sku, Queue(rows, sku)[..k], Queue(rows, sku)[k].created)
  {
    var queue := Queue(rows, sku);
    SkuQueueInOrder(rows, sku);
    hide Queue, Rank, CreatedInOrder, SkuInOrder;
    forall i | 0 <= i < |rows| && Selected(rows[i], sku) && rows[i].created < queue[k].created
      ensures rows[i] in queue[..k]
    {
      OlderStandsBefore(queue, k, rows[i]);
    }
  }

  /** The next row of the queue is not locked by the Fill itself. */
  lemma NotYetLocked(rows: seq<Reservation>, t: Txn, sku: string)
    requires DistinctIds(rows) && OnlyBatchLocks(t) && |t.batch| < OpenCount(rows, sku)
    requires t.batch == Queue(rows, sku)[..|t.batch|]
    ensures ReservationLock(Queue(rows, sku)[|t.batch|].id) !in t.locks
  {
    hide DistinctIds, Queue, Rank;
    var r := Queue(rows, sku)[|t.batch|];
    forall l | 0 <= l < |t.batch| ensures t.batch[l].id != r.id {
      QueueIdsDiffer(rows, sku, |t.batch|, l);
    }
  }

  lemma StillOnlyBatchLocks(t: Txn, r: Reservation)
    requires OnlyBatchLocks(t)
    ensures OnlyBatchLocks(t.(batch := t.batch + [r], locks := t.locks + {ReservationLock(r.id)}))
  {
    var t' := t.(batch := t.batch + [r], locks := t.locks + {ReservationLock(r.id)});
    forall id: nat | ReservationLock(id) in t'.locks ensures exists q :: q in t'.batch && q.id == id {
      if ReservationLock(id) in t.locks {
        var q :| q in t.batch && q.id == id;
        assert q in t'.batch;
      } else {
        assert r in t'.batch && r.id == id;
      }
    }
  }

  lemma TablesInOrder(s: State)
    requires Serial(s)
    ensures SkuInOrder(s.db.reservations) && DistinctIds(s.db.reservations)
  {
    DbFacts(s);
  }

  lemma GatherEnabled(s: State, x: nat, sku: string)
    requires Serial(s) && Unblocked(s, x, sku) && x in s.txns
    requires s.txns[x].op == FillOp(sku) && s.txns[x].phase == Began && OnlyBatchLocks(s.txns[x])
    requires |s.txns[x].batch| < Min(100, OpenCount(s.db.reservations, sku))
    ensures var p := Position(s.db.reservations, sku, |s.txns[x].batch|);
      Enabled(s, x, Do(GatherRow(p))) && OnlyBatchLocks(Next(s, x, Do(GatherRow(p))).txns[x])
  {
    hide Serial, Ordered, Position, Queue, Rank, OlderRead, OnlyBatchLocks, SkuInOrder, DistinctIds;
    var t, rows := s.txns[x], s.db.reservations;
    var p := Position(rows, sku, |t.batch|);
    TablesInOrder(s);
    FillSku(s, x);
    BatchNow(s, x);
    NextIsOldest(rows, sku, |t.batch|);
    NotYetLocked(rows, t, sku);
    StillOnlyBatchLocks(t, rows[p]);
  }

  lemma FillSku(s: State, x: nat)
    requires Serial(s) && x in s.txns && s.txns[x].op.FillOp?
    ensures s.txns[x].op.sku != ""
  {
    FillFacts(s, x);
  }

  lemma BatchNow(s: State, x: nat)
    requires Serial(s) && x in s.txns && s.txns[x].op.FillOp?
    ensures var queue := Queue(s.db.reservations, s.txns[x].op.sku);
      |s.txns[x].batch| <= |queue| && s.txns[x].batch == queue[..|s.txns[x].batch|]
  {
    BatchIsFront(s, x);
  }

  lemma {:induction false} GatherRun(s: State, x: nat, sku: string) returns (run: seq<Step>)
    requires Serial(s) && Unblocked(s, x, sku) && x in s.txns
    requires s.txns[x].op == FillOp(sku) && s.txns[x].phase == Began && OnlyBatchLocks(s.txns[x])
    requires |s.txns[x].batch| <= Min(100, OpenCount(s.db.reservations, sku))
    ensures Possible(s, run) && StepsOfOne(run, x)
    ensures var s' := After(s, run);
      && Serial(s') && OnlyOwn(s, s', x) && x in s'.txns
      && s'.txns[x].op == FillOp(sku) && s'.txns[x].phase == Began
      && |s'.txns[x].batch| == Min(100, OpenCount(s.db.reservations, sku))
    decreases Min(100, OpenCount(s.db.reservations, sku)) - |s.txns[x].batch|
  {
    hide Serial, Enabled, Unblocked, OnlyBatchLocks, OpenCount;
    run := [];
    if |s.txns[x].batch| < Min(100, OpenCount(s.db.reservations, sku)) {
      GatherEnabled(s, x, sku);
      var c := GatherRow(Position(s.db.reservations, sku, |s.txns[x].batch|));
      var s1 := GatherMoves(s, x, sku, c);
      var rest := GatherRun(s1, x, sku);
      RunOneMore(s, x, Do(c), rest);
      run := [Step(x, Do(c))] + rest;
    }
  }

  lemma GatherMoves(s: State, x: nat, sku: string, c: RepoCall) returns (s1: State)
    requires Serial(s) && Unblocked(s, x, sku) && Enabled(s, x, Do(c)) && c.GatherRow?
    requires s.txns[x].op == FillOp(sku) && s.txns[x].phase == Began
    ensures s1 == Next(s, x, Do(c)) && Serial(s1) && Unblocked(s1, x, sku) && OnlyOwn(s, s1, x) && x in s1.txns
    ensures s1.txns[x].op == FillOp(sku) && s1.txns[x].phase == Began
    ensures |s1.txns[x].batch| == |s.txns[x].batch| + 1
  {
    hide Serial, Unblocked;
    s1 := Next(s, x, Do(c));
    StepKeepsSerial(s, x, Do(c));
    OwnSteps(s, x, c);
    StillUnblocked(s, s1, x, sku);
  }

  lemma GrantMoves(s: State, x: nat) returns (s2: State)
    requires Serial(s) && x in s.txns && s.txns[x].op.FillOp? && s.txns[x].phase == StockRead
    requires |s.txns[x].done| < |s.txns[x].batch| && s.txns[x].available != 0
    ensures Enabled(s, x, Do(SaveGrant)) && Enabled(Next(s, x, Do(SaveGrant)), x, Do(UpdateReservation))
    ensures s2 == Next(Next(s, x, Do(SaveGrant)), x, Do(UpdateReservation))
    ensures Serial(s2) && OnlyOwn(s, s2, x) && x in s2.txns
    ensures s2.txns[x].op == s.txns[x].op && s2.txns[x].phase == StockRead
    ensures s2.txns[x].batch == s.txns[x].batch && |s2.txns[x].done| == |s.txns[x].done| + 1
  {
    hide Serial;
    var s1 := Next(s, x, Do(SaveGrant));
    StepKeepsSerial(s, x, Do(SaveGrant));
    s2 := Next(s1, x, Do(UpdateReservation));
    StepKeepsSerial(s1, x, Do(UpdateReservation));
    assert s2.txns - {x} == s.txns - {x};
  }

  lemma DoneWithinBatch(s: State, x: nat)
    requires Serial(s) && x in s.txns && s.txns[x].op.FillOp?
    ensures |s.txns[x].done| <= |s.txns[x].batch|
  {
    FillFacts(s, x);
  }

  lemma {:induction false} GrantRun(s: State, x: nat) returns (run: seq<Step>)
    requires Serial(s) && x in s.txns && s.txns[x].op.FillOp? && s.txns[x].phase == StockRead
    requires |s.txns[x].done| <= |s.txns[x].batch|
    ensures Possible(s, run) && StepsOfOne(run, x)
    ensures var s' := After(s, run);
      && Serial(s') && OnlyOwn(s, s', x) && x in s'.txns
      && s'.txns[x].op == s.txns[x].op && s'.txns[x].phase == StockRead && s'.txns[x].batch == s.txns[x].batch
      && (|s'.txns[x].done| == |s'.txns[x].batch| || s'.txns[x].available == 0)
    decreases |s.txns[x].batch| - |s.txns[x].done|
  {
    hide Serial, Enabled;
    run := [];
    if |s.txns[x].done| < |s.txns[x].batch| && s.txns[x].available != 0 {
      var s2 := GrantMoves(s, x);
      var rest := GrantRun(s2, x);
      RunOneMore(Next(s, x, Do(SaveGrant)), x, Do(UpdateReservation), rest);
      RunOneMore(s, x, Do(SaveGrant), [Step(x, Do(UpdateReservation))] + rest);
      run := [Step(x, Do(SaveGrant))] + ([Step(x, Do(UpdateReservation))] + rest);
    }
  }

  lemma BeginsFill(s: State, x: nat, sku: string) returns (s1: State)
    requires Serial(s) && x !in s.txns && x !in s.answers && sku in s.db.available && Unblocked(s, x, sku)
    ensures Enabled(s, x, Begin(FillOp(sku))) && s1 == Next(s, x, Begin(FillOp(sku)))
    ensures Serial(s1) && OnlyOwn(s, s1, x) && x in s1.txns && Unblocked(s1, x, sku)
    ensures s1.txns[x].op == FillOp(sku) && s1.txns[x].phase == Began && s1.txns[x].batch == []
    ensures OnlyBatchLocks(s1.txns[x])
  {
    SkuIsNamed(s, sku);
    hide Serial, Unblocked;
    s1 := Next(s, x, Begin(FillOp(sku)));
    StepKeepsSerial(s, x, Begin(FillOp(sku)));
    assert s1.txns - {x} == s.txns - {x};
    StillUnblocked(s, s1, x, sku);
  }

  lemma SkuIsNamed(s: State, sku: string)
    requires Serial(s) && sku in s.db.available
    ensures sku != "" && sku in s.db.products
  {
  }

  lemma LocksStock(s: State, x: nat, sku: string) returns (s1: State)
    requires Serial(s) && x in s.txns && s.txns[x].op == FillOp(sku) && s.txns[x].phase == Began
    requires sku in s.db.available && Unblocked(s, x, sku)
    ensures Enabled(s, x, Do(LockStock)) && s1 == Next(s, x, Do(LockStock))
    ensures Serial(s1) && OnlyOwn(s, s1, x) && x in s1.txns
    ensures s1.txns[x].op == FillOp(sku) && s1.txns[x].phase == StockRead && s1.txns[x].batch == s.txns[x].batch
  {
    hide Serial;
    s1 := Next(s, x, Do(LockStock));
    StepKeepsSerial(s, x, Do(LockStock));
    OwnSteps(s, x, LockStock);
  }

  lemma FinishesFill(s: State, x: nat, sku: string) returns (s1: State)
    requires Serial(s) && x in s.txns && s.txns[x].op == FillOp(sku) && s.txns[x].phase == StockRead
    requires |s.txns[x].done| == |s.txns[x].batch| || s.txns[x].available == 0
    requires |s.txns[x].batch| == Min(100, OpenCount(s.db.reservations, sku)) && sku in s.db.available
    ensures Enabled(s, x, Finish) && s1 == Next(s, x, Finish)
    ensures s1.db == FillTables(s.db, sku, 100) && s1.txns == s.txns - {x} && s1.answers == s.answers
  {
    hide Serial, Fill, Rank;
    s1 := Next(s, x, Finish);
    FillIsSerial(s, x);
    if OpenCount(s.db.reservations, sku) < 100 {
      FillSaturates(s.db.available[sku], s.db.reservations, sku, |s.txns[x].batch|, 100);
    }
  }

  /**
   A FillReserves of any SKU can run to its commit while no one else holds the rows of the
   SKU, and leaves one pass over the 100 oldest open reservations.
   */
  lemma FillCanComplete(s: State, x: nat, sku: string) returns (run: seq<Step>)
    requires Serial(s) && x !in s.txns && x !in s.answers && sku in s.db.available && Unblocked(s, x, sku)
    ensures Possible(s, run) && StepsOfOne(run, x)
    ensures After(s, run).db == FillTables(s.db, sku, 100)
    ensures After(s, run).txns == s.txns && After(s, run).answers == s.answers
  {
    hide Serial, Enabled, Next, Unblocked, OnlyBatchLocks, OpenCount, FillTables;
    var s1 := BeginsFill(s, x, sku);
    NotNegative(s.db.reservations, sku);
    var gather := GatherRun(s1, x, sku);
    var s2 := After(s1, gather);
    StillUnblocked(s1, s2, x, sku);
    var s3 := LocksStock(s2, x, sku);
    DoneWithinBatch(s3, x);
    var grants := GrantRun(s3, x);
    var s4 := After(s3, grants);
    var s5 := FinishesFill(s4, x, sku);
    RunOneMore(s4, x, Finish, []);
    RunAppend(s3, grants, [Step(x, Finish)] + []);
    RunOneMore(s2, x, Do(LockStock), grants + ([Step(x, Finish)] + []));
    var rest := [Step(x, Do(LockStock))] + (grants + ([Step(x, Finish)] + []));
    RunAppend(s1, gather, rest);
    RunOneMore(s, x, Begin(FillOp(sku)), gather + rest);
    run := [Step(x, Begin(FillOp(sku)))] + (gather + rest);
    assert s4.txns - {x} == s.txns - {x} == s.txns;
  }

  lemma NotNegative(rows: seq<Reservation>, sku: string)
    ensures 0 <= Min(100, OpenCount(rows, sku))
  {
  }

  // ----- Produce and Reserve -----

  lemma FourSteps(s: State, x: nat, a: Action, b: Action, c: Action, d: Action)
    requires Enabled(s, x, a) && Enabled(Next(s, x, a), x, b) && Enabled(Next(Next(s, x, a), x, b), x, c)
    requires Enabled(Next(Next(Next(s, x, a), x, b), x, c), x, d)
    ensures var run := [Step(x, a), Step(x, b), Step(x, c), Step(x, d)];
      Possible(s, run) && After(s, run) == Next(Next(Next(Next(s, x, a), x, b), x, c), x, d)
  {
    hide Enabled, Next;
    var s1 := Next(s, x, a);
    var s2 := Next(s1, x, b);
    var s3 := Next(s2, x, c);
    RunOneMore(s3, x, d, []);
    RunOneMore(s2, x, c, [Step(x, d)]);
    RunOneMore(s1, x, b, [Step(x, c), Step(x, d)]);
    RunOneMore(s, x, a, [Step(x, b), Step(x, c), Step(x, d)]);
    assert [Step(x, c), Step(x, d)] == [Step(x, c)] + [Step(x, d)];
    assert [Step(x, b), Step(x, c), Step(x, d)] == [Step(x, b)] + [Step(x, c), Step(x, d)];
    assert [Step(x, a), Step(x, b), Step(x, c), Step(x, d)] == [Step(x, a)] + [Step(x, b), Step(x, c), Step(x, d)];
  }

  /** The state with transaction `x` as given. */
  function With(s: State, x: nat, t: Txn): State {
    s.(txns := s.txns[x := t])
  }

  lemma WithTwice(s: State, x: nat, t: Txn, u: Txn)
    ensures With(With(s, x, t), x, u) == With(s, x, u)
    ensures x !in s.txns ==> With(s, x, t).txns - {x} == s.txns
  {
  }

  lemma Begins(s: State, x: nat, op: Op)
    requires x !in s.txns && x !in s.answers && OpOk(op)
    ensures Enabled(s, x, Begin(op)) && Next(s, x, Begin(op)) == With(s, x, Txn(op, Began, {}, 0, [], [], None))
  {
  }

  lemma InsertsEvent(s: State, x: nat, event: ProductionEvent)
    requires x in s.txns && s.txns[x] == Txn(ProduceOp(event), Began, {}, 0, [], [], None)
    requires event.sku in s.db.products && !KnownProduction(s.db, event.requestId)
    requires forall y :: y in s.txns && y != x && s.txns[y].op.ProduceOp? ==>
      s.txns[y].op.event.requestId != event.requestId
    ensures Enabled(s, x, Do(InsertEvent))
    ensures Next(s, x, Do(InsertEvent)) == With(s, x, Txn(ProduceOp(event), EventInserted, {}, 0, [], [], None))
  {
  }

  lemma LocksProducedStock(s: State, x: nat, event: ProductionEvent)
    requires x in s.txns && s.txns[x] == Txn(ProduceOp(event), EventInserted, {}, 0, [], [], None)
    requires event.sku in s.db.available && Unblocked(s, x, event.sku)
    ensures Enabled(s, x, Do(LockStock))
    ensures Next(s, x, Do(LockStock)) == With(s, x,
      Txn(ProduceOp(event), StockRead, {ProductLock(event.sku), StockLock(event.sku)}, s.db.available[event.sku], [], [], None))
  {
    assert {} + {ProductLock(event.sku), StockLock(event.sku)} == {ProductLock(event.sku), StockLock(event.sku)};
  }

  lemma SavesProducedStock(s: State, x: nat, event: ProductionEvent, locks: set<Lock>, stock: int)
    requires x in s.txns && s.txns[x] == Txn(ProduceOp(event), StockRead, locks, stock, [], [], None)
    requires event.sku in s.db.available && s.db.available[event.sku] == stock
    ensures Enabled(s, x, Do(SaveStock)) && Enabled(Next(s, x, Do(SaveStock)), x, Finish)
    ensures Next(Next(s, x, Do(SaveStock)), x, Finish) == State(
      Tables(s.db.products, s.db.available[event.sku := stock + event.quantity], s.db.productions + [event], s.db.reservations),
      s.txns - {x}, s.answers, s.nextId, s.clock)
  {
  }

  /**
   A Produce of a known SKU under a new request id can run to its commit while no one else
   holds the rows of the SKU or an uncommitted event of the request id, and adds its quantity.
   */
  lemma ProduceCanComplete(s: State, x: nat, event: ProductionEvent) returns (run: seq<Step>)
    requires Serial(s) && x !in s.txns && x !in s.answers && Unblocked(s, x, event.sku)
    requires event.requestId != "" && event.quantity >= 1 && event.sku in s.db.available
    requires !KnownProduction(s.db, event.requestId)
    requires forall y :: y in s.txns && s.txns[y].op.ProduceOp? ==> s.txns[y].op.event.requestId != event.requestId
    ensures Possible(s, run) && StepsOfOne(run, x)
    ensures After(s, run).db == Tables(
      s.db.products, s.db.available[event.sku := s.db.available[event.sku] + event.quantity],
      s.db.productions + [event], s.db.reservations)
    ensures After(s, run).txns == s.txns && After(s, run).answers == s.answers
  {
    hide Serial, Enabled, Next, Possible, After, KnownProduction;
    SkuIsNamed(s, event.sku);
    var stock, locks := s.db.available[event.sku], {ProductLock(event.sku), StockLock(event.sku)};
    var t1 := Txn(ProduceOp(event), Began, {}, 0, [], [], None);
    var t2 := Txn(ProduceOp(event), EventInserted, {}, 0, [], [], None);
    var t3 := Txn(ProduceOp(event), StockRead, locks, stock, [], [], None);
    var s1, s2, s3 := With(s, x, t1), With(s, x, t2), With(s, x, t3);
    WithTwice(s, x, t1, t2);
    WithTwice(s, x, t2, t3);
    WithTwice(s, x, t3, t3);
    Begins(s, x, ProduceOp(event));
    InsertsEvent(s1, x, event);
    LocksProducedStock(s2, x, event);
    SavesProducedStock(s3, x, event, locks, stock);
    FourSteps(s1, x, Do(InsertEvent), Do(LockStock), Do(SaveStock), Finish);
    var rest := [Step(x, Do(InsertEvent)), Step(x, Do(LockStock)), Step(x, Do(SaveStock)), Step(x, Finish)];
    RunOneMore(s, x, Begin(ProduceOp(event)), rest);
    run := [Step(x, Begin(ProduceOp(event)))] + rest;
  }

  lemma LocksProduct(s: State, x: nat, request: ReservationRequest)
    requires x in s.txns && s.txns[x] == Txn(ReserveOp(request), Began, {}, 0, [], [], None)
    requires request.sku in s.db.products && Unblocked(s, x, request.sku)
    ensures Enabled(s, x, Do(LockProduct))
    ensures Next(s, x, Do(LockProduct))
      == With(s, x, Txn(ReserveOp(request), ProductLocked, {ProductLock(request.sku)}, 0, [], [], None))
  {
    assert {} + {ProductLock(request.sku)} == {ProductLock(request.sku)};
  }

  lemma LooksUpNothing(s: State, x: nat, request: ReservationRequest, locks: set<Lock>)
    requires x in s.txns && s.txns[x] == Txn(ReserveOp(request), ProductLocked, locks, 0, [], [], None)
    requires !KnownReservation(s.db, request.requestId)
    ensures Enabled(s, x, Do(LookUpRequest))
    ensures Next(s, x, Do(LookUpRequest)) == With(s, x, Txn(ReserveOp(request), RequestUnknown, locks, 0, [], [], None))
  {
  }

  lemma LooksUpRow(s: State, x: nat, request: ReservationRequest, locks: set<Lock>, i: nat)
    requires x in s.txns && s.txns[x] == Txn(ReserveOp(request), ProductLocked, locks, 0, [], [], None)
    requires i < |s.db.reservations| && Unblocked(s, x, request.sku)
    requires s.db.reservations[i].requestId == request.requestId && s.db.reservations[i].sku == request.sku
    requires FindReservation(s.db.reservations, request.requestId) == Some(s.db.reservations[i])
    ensures Enabled(s, x, Do(LookUpRequest)) && Enabled(Next(s, x, Do(LookUpRequest)), x, Finish)
    ensures Next(Next(s, x, Do(LookUpRequest)), x, Finish) == State(
      s.db, s.txns - {x}, s.answers[x := Answer(request, s.db.reservations[i].id)], s.nextId, s.clock)
  {
  }

  lemma InsertsRow(s: State, x: nat, request: ReservationRequest, locks: set<Lock>, now: int)
    requires x in s.txns && s.txns[x] == Txn(ReserveOp(request), RequestUnknown, locks, 0, [], [], None) && s.clock < now
    ensures Enabled(s, x, Do(InsertRow(now))) && Enabled(Next(s, x, Do(InsertRow(now))), x, Finish)
    ensures Next(Next(s, x, Do(InsertRow(now))), x, Finish) == State(
      Tables(s.db.products, s.db.available, s.db.productions, s.db.reservations
        + [Reservation(s.nextId, request.requestId, request.requester, request.sku, Open, 0, request.quantity, now)]),
      s.txns - {x}, s.answers[x := Answer(request, s.nextId)], s.nextId + 1, now)
  {
  }

  /**
   A Reserve under a new request id can run to its commit while no one else holds the rows of
   the SKU; it appends the row that was asked for and answers with it.
   */
  lemma ReserveCanComplete(s: State, x: nat, request: ReservationRequest, now: int) returns (run: seq<Step>)
    requires Serial(s) && x !in s.txns && x !in s.answers && Unblocked(s, x, request.sku)
    requires request.requestId != "" && request.quantity >= 1 && request.sku in s.db.products && s.clock < now
    requires !KnownReservation(s.db, request.requestId)
    ensures Possible(s, run) && StepsOfOne(run, x)
    ensures var row := Reservation(s.nextId, request.requestId, request.requester, request.sku,
                                   Open, 0, request.quantity, now);
      After(s, run).db == Tables(s.db.products, s.db.available, s.db.productions, s.db.reservations + [row])
    ensures After(s, run).txns == s.txns && After(s, run).answers == s.answers[x := Answer(request, s.nextId)]
  {
    hide Serial, Enabled, Next, Possible, After, KnownReservation;
    ProductIsNamed(s, request.sku);
    var locks := {ProductLock(request.sku)};
    var t1 := Txn(ReserveOp(request), Began, {}, 0, [], [], None);
    var t2 := Txn(ReserveOp(request), ProductLocked, locks, 0, [], [], None);
    var t3 := Txn(ReserveOp(request), RequestUnknown, locks, 0, [], [], None);
    var s1, s2, s3 := With(s, x, t1), With(s, x, t2), With(s, x, t3);
    WithTwice(s, x, t1, t2);
    WithTwice(s, x, t2, t3);
    WithTwice(s, x, t3, t3);
    Begins(s, x, ReserveOp(request));
    LocksProduct(s1, x, request);
    StillUnknown(s, s2, request.requestId);
    LooksUpNothing(s2, x, request, locks);
    InsertsRow(s3, x, request, locks, now);
    FourSteps(s1, x, Do(LockProduct), Do(LookUpRequest), Do(InsertRow(now)), Finish);
    var rest := [Step(x, Do(LockProduct)), Step(x, Do(LookUpRequest)), Step(x, Do(InsertRow(now))), Step(x, Finish)];
    RunOneMore(s, x, Begin(ReserveOp(request)), rest);
    run := [Step(x, Begin(ReserveOp(request)))] + rest;
  }

  lemma StillUnknown(s: State, s': State, requestId: string)
    requires s'.db == s.db
    ensures KnownReservation(s'.db, requestId) == KnownReservation(s.db, requestId)
  {
  }

  lemma ProductIsNamed(s: State, sku: string)
    requires Serial(s) && sku in s.db.products
    ensures sku != ""
  {
  }

  /** A Reserve whose request id has a row of its SKU changes no table and answers with that row. */
  lemma DuplicateReserveCanComplete(s: State, x: nat, request: ReservationRequest, i: nat) returns (run: seq<Step>)
    requires Serial(s) && x !in s.txns && x !in s.answers && Unblocked(s, x, request.sku)
    requires request.requestId != "" && request.quantity >= 1 && request.sku in s.db.products
    requires i < |s.db.reservations| && s.db.reservations[i].requestId == request.requestId
    requires forall k :: 0 <= k < |s.db.reservations| && s.db.reservations[k].requestId == request.requestId ==>
      k == i && s.db.reservations[k].sku == request.sku
    ensures Possible(s, run) && StepsOfOne(run, x)
    ensures After(s, run).db == s.db
    ensures After(s, run).txns == s.txns
    ensures After(s, run).answers == s.answers[x := Answer(request, s.db.reservations[i].id)]
  {
    hide Serial, Enabled, Next, Possible, After;
    ProductIsNamed(s, request.sku);
    FindsTheRow(s.db.reservations, request.requestId, i);
    var locks := {ProductLock(request.sku)};
    var t1 := Txn(ReserveOp(request), Began, {}, 0, [], [], None);
    var t2 := Txn(ReserveOp(request), ProductLocked, locks, 0, [], [], None);
    var s1, s2 := With(s, x, t1), With(s, x, t2);
    WithTwice(s, x, t1, t2);
    WithTwice(s, x, t2, t2);
    Begins(s, x, ReserveOp(request));
    LocksProduct(s1, x, request);
    LooksUpRow(s2, x, request, locks, i);
    FourSteps(s, x, Begin(ReserveOp(request)), Do(LockProduct), Do(LookUpRequest), Finish);
    run := [Step(x, Begin(ReserveOp(request))), Step(x, Do(LockProduct)), Step(x, Do(LookUpRequest)), Step(x, Finish)];
  }

  lemma FindsTheRow(rows: seq<Reservation>, requestId: string, i: nat)
    requires i < |rows| && rows[i].requestId == requestId
    requires forall k :: 0 <= k < |rows| && rows[k].requestId == requestId ==> k == i
    ensures FindReservation(rows, requestId) == Some(rows[i])
  {
    hide FindReservation;
    var found := FindReservation(rows, requestId);
    var k :| 0 <= k < |rows| && rows[k] == found.value;
  }

  /** An abort, possible at any moment, leaves nothing behind. */
  lemma AbortLeavesNothing(s: State, x: nat)
    requires x in s.txns
    ensures Enabled(s, x, Abort)
    ensures Next(s, x, Abort) == State(s.db, s.txns - {x}, s.answers, s.nextId, s.clock)
  {
  }

  /** Registering an unknown product adds it without stock. */
  lemma CreateCanComplete(s: State, x: nat, product: Product)
    requires product.sku != "" && product.sku !in s.db.products
    ensures Enabled(s, x, CreateProduct(product))
    ensures Next(s, x, CreateProduct(product)).db == Tables(
      s.db.products[product.sku := product], s.db.available[product.sku := 0], s.db.productions, s.db.reservations)
  {
  }

  /** Whatever committed between, a row of a committed Reserve says what its request asked for. */
  lemma ReserveCommitsTheRequest(s: State, x: nat)
    requires Serial(s) && Enabled(s, x, Finish) && s.txns[x].op.ReserveOp? && s.txns[x].phase == RowInserted
    ensures var rows, rows' := s.db.reservations, Next(s, x, Finish).db.reservations;
      |rows'| == |rows| + 1 && rows'[..|rows|] == rows
    ensures var row, request := Next(s, x, Finish).db.reservations[|s.db.reservations|], s.txns[x].op.request;
      && row.requestId == request.requestId && row.requester == request.requester && row.sku == request.sku
      && row.requested == request.quantity && row.reserved == 0 && row.state == Open
      && Next(s, x, Finish).answers[x] == Answer(request, row.id)
  {
    hide DbOk, LocksExclusive, InsertsApart, GrantsOk, FillOrdered, RowsOrdered, InsertAlone, InsertOrdered;
    assert TxnOk(s.db, s.nextId, s.txns[x]);
  }
}
