/**
 The inventory repository over PostgreSQL as one connection sees it: committed tables,
 one open transaction with its pending writes, savepoints, and calls that may fail.
 */
module Persistence {
  import opened Common
  import opened Allocation
  import opened InventoryTables

  datatype Error =
    | InvalidInput
    | NotFound
    | Constraint       // a UNIQUE or REFERENCES violation
    | Failure          // the storage call failed
    | PublishFailure   // the broker refused the message after the commit
    | FillFailure      // FillReserves failed after the commit

  /** The outside world: a clock that moves forward and calls that may fail. */
  class Environment {
    var clock: int
    ghost var faults: nat       // failed storage and broker calls so far
    ghost var cacheFaults: nat  // failed cache calls so far

    constructor ()
      ensures faults == 0 && cacheFaults == 0
    {
      clock, faults, cacheFaults := 0, 0, 0;
    }

    /** A storage or broker call was made and it was fine, or it was not. */
    twostate predicate Answered(fine: bool)
      reads this
    {
      && clock == old(clock)
      && cacheFaults == old(cacheFaults)
      && faults == old(faults) + (if fine then 0 else 1)
    }

    method Flaky() returns (failed: bool)
      modifies this`faults
      ensures Answered(!failed)
    {
      failed := *;
      if failed {
        faults := faults + 1;
      }
    }

    method FlakyCache() returns (failed: bool)
      modifies this`cacheFaults
      ensures cacheFaults == old(cacheFaults) + (if failed then 1 else 0)
    {
      failed := *;
      if failed {
        cacheFaults := cacheFaults + 1;
      }
    }

    method Now() returns (now: int)
      modifies this`clock
      ensures now == clock && old(clock) < clock
    {
      var gap: int := *;
      clock := clock + 1 + Max(0, gap);
      now := clock;
    }
  }

  // ----- what the SQL statements select -----

  function Matching(rows: seq<Reservation>, sku: string, state: Option<ReserveState>): seq<Reservation> {
    if rows == [] then []
    else (if (sku == "" || rows[0].sku == sku) && (state.None? || rows[0].state == state.value) then [rows[0]] else [])
         + Matching(rows[1..], sku, state)
  }

  predicate SortedByCreated(rows: seq<Reservation>) {
    forall i, j :: 0 <= i < j < |rows| ==> rows[i].created <= rows[j].created
  }

  function InsertByCreated(r: Reservation, rows: seq<Reservation>): seq<Reservation> {
    if rows == [] || r.created <= rows[0].created then [r] + rows
    else [rows[0]] + InsertByCreated(r, rows[1..])
  }

  /** ORDER BY created ASC. */
  function OrderByCreated(rows: seq<Reservation>): seq<Reservation> {
    if rows == [] then [] else InsertByCreated(rows[0], OrderByCreated(rows[1..]))
  }

  lemma {:induction false} InsertKeepsRows(r: Reservation, rows: seq<Reservation>)
    ensures multiset(InsertByCreated(r, rows)) == multiset(rows) + multiset{r}
  {
    if rows != [] && r.created > rows[0].created {
      InsertKeepsRows(r, rows[1..]);
      assert rows == [rows[0]] + rows[1..];
    }
  }

  lemma SortedBehind(r: Reservation, rows: seq<Reservation>)
    requires SortedByCreated(rows)
    requires forall x :: x in rows ==> r.created <= x.created
    ensures SortedByCreated([r] + rows)
  {
  }

  lemma InsertedAfter(r: Reservation, head: Reservation, rows: seq<Reservation>)
    requires SortedByCreated([head] + rows) && head.created <= r.created
    ensures forall x :: x in InsertByCreated(r, rows) ==> head.created <= x.created
  {
    InsertKeepsRows(r, rows);
    forall x | x in InsertByCreated(r, rows) ensures head.created <= x.created {
      assert x in multiset(InsertByCreated(r, rows));
      if x in rows {
        var i :| 0 <= i < |rows| && rows[i] == x;
        assert ([head] + rows)[0].created <= ([head] + rows)[i + 1].created;
      }
    }
  }

  lemma {:induction false} InsertByCreatedSorts(r: Reservation, rows: seq<Reservation>)
    requires SortedByCreated(rows)
    ensures SortedByCreated(InsertByCreated(r, rows))
  {
    if rows != [] && r.created > rows[0].created {
      assert rows == [rows[0]] + rows[1..];
      InsertByCreatedSorts(r, rows[1..]);
      InsertedAfter(r, rows[0], rows[1..]);
      SortedBehind(rows[0], InsertByCreated(r, rows[1..]));
    } else {
      SortedBehind(r, rows);
    }
  }

  /** The ordering keeps every row and nothing else. */
  lemma {:induction false} OrderByCreatedSorts(rows: seq<Reservation>)
    ensures SortedByCreated(OrderByCreated(rows)) && multiset(OrderByCreated(rows)) == multiset(rows)
  {
    if rows != [] {
      OrderByCreatedSorts(rows[1..]);
      InsertByCreatedSorts(rows[0], OrderByCreated(rows[1..]));
      InsertKeepsRows(rows[0], OrderByCreated(rows[1..]));
      assert rows == [rows[0]] + rows[1..];
    }
  }

  /** LIMIT and OFFSET. */
  function Page(rows: seq<Reservation>, limit: nat, offset: nat): seq<Reservation> {
    var rest := if offset <= |rows| then rows[offset..] else [];
    if limit <= |rest| then rest[..limit] else rest
  }

  /** A page holds the rows from `offset` on, at most `limit` of them. */
  lemma PageMeans(rows: seq<Reservation>, limit: nat, offset: nat)
    ensures |Page(rows, limit, offset)| == Min(limit, Max(0, |rows| - offset))
    ensures forall k :: 0 <= k < |Page(rows, limit, offset)| ==> Page(rows, limit, offset)[k] == rows[offset + k]
  {
  }

  /** The filter keeps exactly the rows that match, as often as they occur. */
  lemma {:induction false} MatchingMeans(rows: seq<Reservation>, sku: string, state: Option<ReserveState>, r: Reservation)
    ensures multiset(Matching(rows, sku, state))[r]
      == if (sku == "" || r.sku == sku) && (state == None || state == Some(r.state)) then multiset(rows)[r] else 0
  {
    if rows != [] {
      assert rows == [rows[0]] + rows[1..];
      MatchingMeans(rows[1..], sku, state, r);
    }
  }

  function SelectReservations(rows: seq<Reservation>, sku: string, state: Option<ReserveState>, limit: nat, offset: nat)
    : seq<Reservation>
  {
    Page(OrderByCreated(Matching(rows, sku, state)), limit, offset)
  }

  lemma {:induction false} OrderedStaysPut(rows: seq<Reservation>)
    requires CreatedInOrder(rows)
    ensures OrderByCreated(rows) == rows
  {
    if rows != [] {
      OrderedStaysPut(rows[1..]);
    }
  }

  lemma {:induction false} MatchingOpenIsQueue(rows: seq<Reservation>, sku: string)
    ensures Matching(rows, sku, Some(Open)) == Queue(rows, sku)
  {
    if rows != [] {
      MatchingOpenIsQueue(rows[1..], sku);
    }
  }

  lemma OrderedBehind(r: Reservation, rows: seq<Reservation>)
    requires CreatedInOrder(rows)
    requires forall x :: x in rows ==> r.created < x.created
    ensures CreatedInOrder([r] + rows)
  {
  }

  lemma {:induction false} QueueInOrder(rows: seq<Reservation>, sku: string)
    requires CreatedInOrder(rows)
    ensures CreatedInOrder(Queue(rows, sku))
    ensures forall r :: r in Queue(rows, sku) ==> r in rows
  {
    if rows != [] {
      QueueInOrder(rows[1..], sku);
      OrderedBehind(rows[0], Queue(rows[1..], sku));
    }
  }

  /** The batch query of FillReserves reads the front of the queue. */
  lemma BatchQuery(rows: seq<Reservation>, sku: string, limit: nat)
    requires CreatedInOrder(rows)
    ensures SelectReservations(rows, sku, Some(Open), limit, 0)
         == Queue(rows, sku)[..Min(limit, OpenCount(rows, sku))]
  {
    MatchingOpenIsQueue(rows, sku);
    QueueInOrder(rows, sku);
    OrderedStaysPut(Queue(rows, sku));
  }

  function RowOf(t: Tables, sku: string): Option<ProductInventory> {
    if sku in t.products && sku in t.available
    then Some(ProductInventory(t.products[sku], t.available[sku])) else None
  }

  class Repository {
    const env: Environment
    var committed: Tables
    var pending: Tables
    var open: bool
    var savepoints: seq<Tables>
    var nextId: nat

    constructor (env: Environment)
      ensures this.env == env && committed == EmptyTables && !open && nextId == 1
    {
      this.env := env;
      committed, pending, open, savepoints, nextId := EmptyTables, EmptyTables, false, [], 1;
    }

    function View(inTx: bool): Tables
      reads this
    {
      if inTx then pending else committed
    }

    /** Identity values handed out so far are below `nextId`. */
    predicate IdsBelowNext(t: Tables)
      reads this
    {
      forall i :: 0 <= i < |t.reservations| ==> t.reservations[i].id < nextId
    }

    method BeginTransaction() returns (err: Option<Error>)
      requires !open
      modifies this`open, this`pending, this`savepoints, env`faults
      ensures env.Answered(err.None?) && (err.Some? ==> err == Some(Failure))
      ensures open <==> err.None?
      ensures err.None? ==> pending == committed && savepoints == []
    {
      var failed := env.Flaky();
      if failed { return Some(Failure); }
      open, pending, savepoints := true, committed, [];
      return None;
    }

    method Commit() returns (err: Option<Error>)
      requires open
      modifies this`open, this`committed, env`faults
      ensures env.Answered(err.None?) && (err.Some? ==> err == Some(Failure))
      ensures err.None? ==> !open && committed == old(pending)
      ensures err.Some? ==> open && committed == old(committed)
    {
      var failed := env.Flaky();
      if failed { return Some(Failure); }
      open, committed := false, pending;
      return None;
    }

    /** A rollback that fails is only logged; either way the pending writes are gone. */
    method Rollback()
      requires open
      modifies this`open
      ensures !open
    {
      open := false;
    }

    method Savepoint() returns (err: Option<Error>)
      requires open
      modifies this`savepoints, env`faults
      ensures env.Answered(err.None?) && (err.Some? ==> err == Some(Failure))
      ensures savepoints == if err.None? then old(savepoints) + [pending] else old(savepoints)
    {
      var failed := env.Flaky();
      if failed { return Some(Failure); }
      savepoints := savepoints + [pending];
      return None;
    }

    method ReleaseSavepoint() returns (err: Option<Error>)
      requires open && savepoints != []
      modifies this`savepoints, env`faults
      ensures env.Answered(err.None?) && (err.Some? ==> err == Some(Failure))
      ensures savepoints == if err.None? then old(savepoints)[..|old(savepoints)| - 1] else old(savepoints)
    {
      var failed := env.Flaky();
      if failed { return Some(Failure); }
      savepoints := savepoints[..|savepoints| - 1];
      return None;
    }

    method RollbackToSavepoint()
      requires open && savepoints != []
      modifies this`savepoints, this`pending
      ensures pending == old(savepoints)[|old(savepoints)| - 1]
      ensures savepoints == old(savepoints)[..|old(savepoints)| - 1]
    {
      pending := savepoints[|savepoints| - 1];
      savepoints := savepoints[..|savepoints| - 1];
    }

    method GetProduct(sku: string, inTx: bool) returns (product: Option<Product>, err: Option<Error>)
      modifies env`faults
      ensures env.Answered(err != Some(Failure))
      ensures err == Some(Failure) || err == if sku in View(inTx).products then None else Some(NotFound)
      ensures product == if err.None? then Some(View(inTx).products[sku]) else None
    {
      var failed := env.Flaky();
      if failed { return None, Some(Failure); }
      if sku !in View(inTx).products { return None, Some(NotFound); }
      return Some(View(inTx).products[sku]), None;
    }

    method SaveProduct(product: Product) returns (err: Option<Error>)
      requires open
      modifies this`pending, env`faults
      ensures env.Answered(err != Some(Failure))
      ensures err == Some(Failure) || err == if UpcTaken(old(pending), product) then Some(Constraint) else None
      ensures pending == if err.None?
        then old(pending).(products := old(pending).products[product.sku := product]) else old(pending)
    {
      var failed := env.Flaky();
      if failed { return Some(Failure); }
      if UpcTaken(pending, product) { return Some(Constraint); }
      pending := pending.(products := pending.products[product.sku := product]);
      return None;
    }

    method SaveProductInventory(sku: string, available: int) returns (err: Option<Error>)
      requires open
      modifies this`pending, env`faults
      ensures env.Answered(err != Some(Failure))
      ensures err == Some(Failure) || err == if sku in pending.products then None else Some(Constraint)
      ensures pending == if err.None?
        then old(pending).(available := old(pending).available[sku := available]) else old(pending)
    {
      var failed := env.Flaky();
      if failed { return Some(Failure); }
      if sku !in pending.products { return Some(Constraint); }
      pending := pending.(available := pending.available[sku := available]);
      return None;
    }

    method GetProductInventory(sku: string, inTx: bool) returns (pi: Option<ProductInventory>, err: Option<Error>)
      modifies env`faults
      ensures env.Answered(err != Some(Failure))
      ensures err == Some(Failure) || err == if RowOf(View(inTx), sku).Some? then None else Some(NotFound)
      ensures pi == if err.None? then RowOf(View(inTx), sku) else None
    {
      var failed := env.Flaky();
      if failed { return None, Some(Failure); }
      pi := RowOf(View(inTx), sku);
      err := if pi.Some? then None else Some(NotFound);
    }

    method GetProductionEventByRequestID(requestId: string) returns (event: Option<ProductionEvent>, err: Option<Error>)
      modifies env`faults
      ensures env.Answered(err != Some(Failure))
      ensures err == Some(Failure) || err == if KnownProduction(committed, requestId) then None else Some(NotFound)
      ensures event.Some? <==> err.None?
      ensures event.Some? ==> event.value in committed.productions && event.value.requestId == requestId
    {
      var failed := env.Flaky();
      if failed { return None, Some(Failure); }
      if !KnownProduction(committed, requestId) { return None, Some(NotFound); }
      var i :| 0 <= i < |committed.productions| && committed.productions[i].requestId == requestId;
      return Some(committed.productions[i]), None;
    }

    method SaveProductionEvent(event: ProductionEvent) returns (err: Option<Error>)
      requires open
      modifies this`pending, env`faults
      ensures env.Answered(err != Some(Failure))
      ensures err == Some(Failure)
        || err == if KnownProduction(old(pending), event.requestId) || event.sku !in old(pending).products
                  then Some(Constraint) else None
      ensures pending == if err.None?
        then old(pending).(productions := old(pending).productions + [event]) else old(pending)
    {
      var failed := env.Flaky();
      if failed { return Some(Failure); }
      if KnownProduction(pending, event.requestId) || event.sku !in pending.products { return Some(Constraint); }
      pending := pending.(productions := pending.productions + [event]);
      return None;
    }

    method GetReservationByRequestID(requestId: string, inTx: bool) returns (row: Option<Reservation>, err: Option<Error>)
      modifies env`faults
      ensures env.Answered(err != Some(Failure))
      ensures err == Some(Failure)
        || err == if KnownReservation(View(inTx), requestId) then None else Some(NotFound)
      ensures row == if err.None? then FindReservation(View(inTx).reservations, requestId) else None
    {
      var failed := env.Flaky();
      if failed { return None, Some(Failure); }
      row := FindReservation(View(inTx).reservations, requestId);
      err := if row.Some? then None else Some(NotFound);
    }

    /** The identity column numbers the row; a number is spent even when the insert fails. */
    method SaveReservation(rr: ReservationRequest, now: int) returns (row: Reservation, err: Option<Error>)
      requires open
      modifies this`pending, this`nextId, env`faults
      ensures env.Answered(err != Some(Failure))
      ensures nextId == old(nextId) + 1
      ensures row == NewReservation(old(nextId), rr, now)
      ensures err == Some(Failure)
        || err == if KnownReservation(old(pending), rr.requestId) || rr.sku !in old(pending).products
                  then Some(Constraint) else None
      ensures pending == if err.None?
        then old(pending).(reservations := old(pending).reservations + [row]) else old(pending)
    {
      row := NewReservation(nextId, rr, now);
      nextId := nextId + 1;
      var failed := env.Flaky();
      if failed { return row, Some(Failure); }
      if KnownReservation(pending, rr.requestId) || rr.sku !in pending.products { return row, Some(Constraint); }
      pending := pending.(reservations := pending.reservations + [row]);
      return row, None;
    }

    method UpdateReservation(id: nat, state: ReserveState, reserved: int) returns (err: Option<Error>)
      requires open
      modifies this`pending, env`faults
      ensures env.Answered(err.None?) && (err.Some? ==> err == Some(Failure))
      ensures pending == if err.None?
        then old(pending).(reservations := UpdateRow(old(pending).reservations, id, state, reserved))
        else old(pending)
    {
      var failed := env.Flaky();
      if failed { return Some(Failure); }
      pending := pending.(reservations := UpdateRow(pending.reservations, id, state, reserved));
      return None;
    }

    method GetReservations(sku: string, state: Option<ReserveState>, limit: nat, offset: nat, inTx: bool)
      returns (rows: seq<Reservation>, err: Option<Error>)
      modifies env`faults
      ensures env.Answered(err.None?) && (err.Some? ==> err == Some(Failure))
      ensures err.None? ==> rows == SelectReservations(View(inTx).reservations, sku, state, limit, offset)
    {
      var failed := env.Flaky();
      if failed { return [], Some(Failure); }
      return SelectReservations(View(inTx).reservations, sku, state, limit, offset), None;
    }
  }
}
