/**
 The committed tables of the inventory service, the effect of each transaction on
 them, and the invariants every transaction keeps.
 */
module InventoryTables {
  import opened Common
  import opened Allocation

  datatype Product = Product(sku: string, upc: string, name: string)

  datatype ProductInventory = ProductInventory(product: Product, available: int)

  datatype ProductionRequest = ProductionRequest(requestId: string, quantity: int)

  datatype ProductionEvent = ProductionEvent(requestId: string, sku: string, quantity: int, created: int)

  datatype ReservationRequest = ReservationRequest(sku: string, requestId: string, requester: string, quantity: int)

  datatype Tables = Tables(
    products: map<string, Product>,
    available: map<string, int>,
    productions: seq<ProductionEvent>,
    reservations: seq<Reservation>)

  const EmptyTables := Tables(map[], map[], [], [])

  /** FillReserves looks at this many open reservations. */
  const BATCH: nat := 100

  /** Everything ever produced of one SKU. */
  function Made(productions: seq<ProductionEvent>, sku: string): int {
    if productions == [] then 0
    else (if productions[0].sku == sku then productions[0].quantity else 0) + Made(productions[1..], sku)
  }

  function OnShelf(t: Tables, sku: string): int {
    if sku in t.available then t.available[sku] else 0
  }

  // ----- invariants -----

  predicate CatalogOk(t: Tables) {
    && t.products.Keys == t.available.Keys
    && (forall s :: s in t.products ==> t.products[s].sku == s)
    && (forall s :: s in t.available ==> t.available[s] >= 0)
  }

  predicate CreatedInOrder(rows: seq<Reservation>) {
    forall i, j :: 0 <= i < j < |rows| ==> rows[i].created < rows[j].created
  }

  predicate DistinctReservationRequests(rows: seq<Reservation>) {
    forall i, j :: 0 <= i < j < |rows| ==> rows[i].requestId != rows[j].requestId
  }

  predicate QueueOk(t: Tables) {
    && RowsOk(t.reservations)
    && DistinctIds(t.reservations)
    && DistinctReservationRequests(t.reservations)
    && CreatedInOrder(t.reservations)
    && (forall i :: 0 <= i < |t.reservations| ==>
          t.reservations[i].sku in t.products && t.reservations[i].requestId != "")
  }

  predicate DistinctProductionRequests(productions: seq<ProductionEvent>) {
    forall i, j :: 0 <= i < j < |productions| ==> productions[i].requestId != productions[j].requestId
  }

  predicate ProductionsOk(t: Tables) {
    && DistinctProductionRequests(t.productions)
    && (forall i :: 0 <= i < |t.productions| ==>
          && t.productions[i].requestId != ""
          && t.productions[i].quantity >= 1
          && t.productions[i].sku in t.products)
  }

  /** available + reserved = produced, for one SKU. */
  predicate Conserved(t: Tables, sku: string) {
    OnShelf(t, sku) + Held(t.reservations, sku) == Made(t.productions, sku)
  }

  ghost predicate Balanced(t: Tables) {
    forall s: string :: Conserved(t, s)
  }

  ghost predicate Consistent(t: Tables) {
    && CatalogOk(t)
    && QueueOk(t)
    && Fifo(t.reservations)
    && ProductionsOk(t)
    && Balanced(t)
  }

  /** The empty SKU is left out because the query of FillReserves takes it for "any SKU". */
  ghost predicate Inv(t: Tables) {
    Consistent(t) && "" !in t.products
  }

  /** What no call ever undoes: rows stay, stock stays reserved, Closed is final. */
  predicate Evolves(t: Tables, t': Tables) {
    && (forall s :: s in t.products ==> s in t'.products && t'.products[s] == t.products[s])
    && t.productions <= t'.productions
    && |t.reservations| <= |t'.reservations|
    && (forall i :: 0 <= i < |t.reservations| ==> RowEvolves(t.reservations[i], t'.reservations[i]))
  }

  lemma EvolvesTransitive(a: Tables, b: Tables, c: Tables)
    requires Evolves(a, b) && Evolves(b, c)
    ensures Evolves(a, c)
  {
    forall i | 0 <= i < |a.reservations|
      ensures RowEvolves(a.reservations[i], c.reservations[i])
    {
      assert RowEvolves(a.reservations[i], b.reservations[i]);
      assert RowEvolves(b.reservations[i], c.reservations[i]);
    }
  }

  // ----- committed transactions -----

  function NewReservation(id: nat, rr: ReservationRequest, now: int): Reservation {
    Reservation(id, rr.requestId, rr.requester, rr.sku, Open, 0, rr.quantity, now)
  }

  predicate KnownProduction(t: Tables, requestId: string) {
    exists i :: 0 <= i < |t.productions| && t.productions[i].requestId == requestId
  }

  predicate KnownReservation(t: Tables, requestId: string) {
    exists i :: 0 <= i < |t.reservations| && t.reservations[i].requestId == requestId
  }

  function FindReservation(rows: seq<Reservation>, requestId: string): (r: Option<Reservation>)
    ensures r.Some? ==> r.value in rows && r.value.requestId == requestId
    ensures r.Some? <==> exists i :: 0 <= i < |rows| && rows[i].requestId == requestId
  {
    if rows == [] then None
    else if rows[0].requestId == requestId then Some(rows[0])
    else
      assert forall i :: 0 < i < |rows| ==> rows[i] == rows[1..][i - 1];
      FindReservation(rows[1..], requestId)
  }

  /** Another SKU has the UPC. */
  predicate UpcTaken(t: Tables, product: Product) {
    exists s :: s in t.products && s != product.sku && t.products[s].upc == product.upc
  }

  datatype Transaction =
    | CreateTx(product: Product)
    | ProduceTx(event: ProductionEvent)
    | ReserveTx(row: Reservation)
    | FillTx(sku: string, limit: nat)

  /** What the code and the table constraints check before a transaction can commit. */
  predicate Allowed(t: Tables, x: Transaction) {
    match x
    case CreateTx(product) => product.sku != "" && product.sku !in t.products
    case ProduceTx(event) =>
      && event.requestId != "" && event.quantity >= 1
      && event.sku in t.available
      && !KnownProduction(t, event.requestId)
    case ReserveTx(row) =>
      && row.requestId != "" && row.sku != "" && row.requested >= 1
      && row.reserved == 0 && row.state.Open?
      && row.sku in t.products
      && !KnownReservation(t, row.requestId)
      && (forall i :: 0 <= i < |t.reservations| ==>
            t.reservations[i].id < row.id && t.reservations[i].created < row.created)
    case FillTx(sku, limit) => sku in t.available
  }

  function Registered(t: Tables, product: Product): Tables {
    t.(products := t.products[product.sku := product], available := t.available[product.sku := 0])
  }

  /** The stock row the transaction updates is there. */
  predicate Applicable(t: Tables, x: Transaction) {
    && (x.ProduceTx? ==> x.event.sku in t.available)
    && (x.FillTx? ==> x.sku in t.available)
  }

  function Commit(t: Tables, x: Transaction): Tables
    requires Applicable(t, x)
  {
    match x
    case CreateTx(product) => Registered(t, product)
    case ProduceTx(event) =>
      t.(productions := t.productions + [event],
         available := t.available[event.sku := t.available[event.sku] + event.quantity])
    case ReserveTx(row) => t.(reservations := t.reservations + [row])
    case FillTx(sku, limit) => FillTables(t, sku, limit)
  }

  function FillTables(t: Tables, sku: string, limit: nat): Tables
    requires sku in t.available
  {
    var f := Fill(t.available[sku], t.reservations, sku, limit);
    t.(available := t.available[sku := f.available], reservations := f.rows)
  }

  lemma {:induction false} MadeAppend(productions: seq<ProductionEvent>, e: ProductionEvent, s: string)
    ensures Made(productions + [e], s) == Made(productions, s) + (if e.sku == s then e.quantity else 0)
  {
    if productions != [] {
      assert (productions + [e])[1..] == productions[1..] + [e];
      MadeAppend(productions[1..], e, s);
    } else {
      assert (productions + [e])[1..] == [];
    }
  }

  lemma {:induction false} NothingHeld(rows: seq<Reservation>, sku: string)
    requires forall i :: 0 <= i < |rows| ==> rows[i].sku != sku
    ensures Held(rows, sku) == 0
  {
    if rows != [] {
      NothingHeld(rows[1..], sku);
    }
  }

  lemma {:induction false} NothingMade(productions: seq<ProductionEvent>, sku: string)
    requires forall i :: 0 <= i < |productions| ==> productions[i].sku != sku
    ensures Made(productions, sku) == 0
  {
    if productions != [] {
      NothingMade(productions[1..], sku);
    }
  }

  /** Registering any unknown SKU, the empty one included, keeps the tables consistent. */
  lemma CreateKeepsConsistent(t: Tables, product: Product)
    requires Consistent(t) && product.sku !in t.products
    ensures Consistent(Registered(t, product)) && Evolves(t, Registered(t, product))
  {
    var t' := Registered(t, product);
    NothingHeld(t.reservations, product.sku);
    NothingMade(t.productions, product.sku);
    forall s: string ensures Conserved(t', s) {
      assert Conserved(t, s);
    }
  }

  lemma CreateKeepsInv(t: Tables, product: Product)
    requires Inv(t) && Allowed(t, CreateTx(product))
    ensures Inv(Commit(t, CreateTx(product))) && Evolves(t, Commit(t, CreateTx(product)))
  {
    CreateKeepsConsistent(t, product);
  }

  lemma ProduceKeepsInv(t: Tables, event: ProductionEvent)
    requires Inv(t) && Allowed(t, ProduceTx(event))
    ensures Inv(Commit(t, ProduceTx(event))) && Evolves(t, Commit(t, ProduceTx(event)))
  {
    var t' := Commit(t, ProduceTx(event));
    forall s: string ensures Conserved(t', s) {
      assert Conserved(t, s);
      MadeAppend(t.productions, event, s);
    }
  }

  lemma ReserveKeepsInv(t: Tables, row: Reservation)
    requires Inv(t) && Allowed(t, ReserveTx(row))
    ensures Inv(Commit(t, ReserveTx(row))) && Evolves(t, Commit(t, ReserveTx(row)))
  {
    hide QueueOk, Fifo;
    var t' := Commit(t, ReserveTx(row));
    ReserveKeepsQueue(t, row);
    forall s: string ensures Conserved(t', s) {
      assert Conserved(t, s);
      HeldAppend(t.reservations, row, s);
    }
    assert forall i :: 0 <= i < |t.reservations| ==> t'.reservations[i] == t.reservations[i];
  }

  lemma ReserveKeepsQueue(t: Tables, row: Reservation)
    requires QueueOk(t) && Fifo(t.reservations) && Allowed(t, ReserveTx(row))
    ensures QueueOk(Commit(t, ReserveTx(row))) && Fifo(Commit(t, ReserveTx(row)).reservations)
  {
    assert forall i :: 0 <= i < |t.reservations| ==> t.reservations[i].requestId != row.requestId;
  }

  lemma FillKeepsQueue(t: Tables, sku: string, limit: nat)
    requires CatalogOk(t) && QueueOk(t) && sku in t.available
    ensures var t' := FillTables(t, sku, limit);
      CatalogOk(t') && QueueOk(t') && Evolves(t, t')
  {
    var t' := FillTables(t, sku, limit);
    FillEvolves(t.available[sku], t.reservations, sku, limit);
    assert t'.products.Keys == t'.available.Keys;
    forall i | 0 <= i < |t.reservations|
      ensures t'.reservations[i] ==
              t.reservations[i].(state := t'.reservations[i].state, reserved := t'.reservations[i].reserved)
    {
      assert RowEvolves(t.reservations[i], t'.reservations[i]);
    }
  }

  lemma FillKeepsInv(t: Tables, sku: string, limit: nat)
    requires Inv(t) && Allowed(t, FillTx(sku, limit))
    ensures Inv(FillTables(t, sku, limit)) && Evolves(t, FillTables(t, sku, limit))
  {
    var t' := FillTables(t, sku, limit);
    FillKeepsQueue(t, sku, limit);
    FillKeepsFifo(t.available[sku], t.reservations, sku, limit);
    forall s: string ensures Conserved(t', s) {
      assert Conserved(t, s);
      FillConserves(t.available[sku], t.reservations, sku, limit, s);
    }
  }

  /** Every committed transaction keeps conservation, order, lifecycle and uniqueness. */
  lemma CommitKeepsInv(t: Tables, x: Transaction)
    requires Inv(t) && Allowed(t, x)
    ensures Inv(Commit(t, x)) && Evolves(t, Commit(t, x))
  {
    match x
    case CreateTx(product) => CreateKeepsInv(t, product);
    case ProduceTx(event) => ProduceKeepsInv(t, event);
    case ReserveTx(row) => ReserveKeepsInv(t, row);
    case FillTx(sku, limit) => FillKeepsInv(t, sku, limit);
  }

  predicate Executable(t: Tables, xs: seq<Transaction>)
    decreases |xs|
  {
    xs != [] ==> Allowed(t, xs[0]) && Executable(Commit(t, xs[0]), xs[1..])
  }

  function Execute(t: Tables, xs: seq<Transaction>): Tables
    requires Executable(t, xs)
    decreases |xs|
  {
    if xs == [] then t else Execute(Commit(t, xs[0]), xs[1..])
  }

  lemma ExecuteOneMore(t: Tables, x: Transaction, rest: seq<Transaction>)
    requires Allowed(t, x) && Executable(Commit(t, x), rest)
    ensures Executable(t, [x] + rest) && Execute(t, [x] + rest) == Execute(Commit(t, x), rest)
  {
    assert ([x] + rest)[1..] == rest;
  }

  /** The same over whole runs, whichever transactions committed and in whatever order. */
  lemma {:induction false} ExecuteKeepsInv(t: Tables, xs: seq<Transaction>)
    requires Inv(t) && Executable(t, xs)
    ensures Inv(Execute(t, xs)) && Evolves(t, Execute(t, xs))
    decreases |xs|
  {
    if xs != [] {
      CommitKeepsInv(t, xs[0]);
      ExecuteKeepsInv(Commit(t, xs[0]), xs[1..]);
      EvolvesTransitive(t, Commit(t, xs[0]), Execute(t, xs));
    }
  }

  /** Recording one production raises shelf and reserved stock of its SKU, together, by its quantity. */
  lemma StockGrows(t: Tables, t': Tables, event: ProductionEvent)
    requires Balanced(t) && Balanced(t') && t'.productions == t.productions + [event]
    ensures OnShelf(t', event.sku) + Held(t'.reservations, event.sku)
         == OnShelf(t, event.sku) + Held(t.reservations, event.sku) + event.quantity
  {
    assert Conserved(t, event.sku) && Conserved(t', event.sku);
    MadeAppend(t.productions, event, event.sku);
  }

  /** The invariants in plain terms. */
  lemma InvMeans(t: Tables, sku: string)
    requires Inv(t)
    ensures (if sku in t.available then t.available[sku] else 0) + Held(t.reservations, sku) == Made(t.productions, sku)
    ensures sku in t.available <==> sku in t.products
    ensures sku in t.available ==> t.available[sku] >= 0 && t.products[sku].sku == sku
    ensures forall i :: 0 <= i < |t.reservations| ==>
      && 0 <= t.reservations[i].reserved <= t.reservations[i].requested && t.reservations[i].requested >= 1
      && (t.reservations[i].state == Closed <==> t.reservations[i].reserved == t.reservations[i].requested)
    ensures forall i, j :: 0 <= i < j < |t.reservations| ==>
      && t.reservations[i].id != t.reservations[j].id && t.reservations[i].requestId != t.reservations[j].requestId
      && t.reservations[i].created < t.reservations[j].created
      && (t.reservations[i].sku == t.reservations[j].sku && t.reservations[j].reserved > 0 ==> t.reservations[i].state == Closed)
    ensures forall i, j :: 0 <= i < j < |t.productions| ==> t.productions[i].requestId != t.productions[j].requestId
  {
    assert Conserved(t, sku);
    assert forall i :: 0 <= i < |t.reservations| ==> RowOk(t.reservations[i]);
  }

  /** What no call undoes, in plain terms. */
  lemma EvolvesMeans(t: Tables, t': Tables)
    requires Evolves(t, t')
    ensures forall s :: s in t.products ==> s in t'.products && t'.products[s] == t.products[s]
    ensures |t.productions| <= |t'.productions|
      && forall k :: 0 <= k < |t.productions| ==> t'.productions[k] == t.productions[k]
    ensures |t.reservations| <= |t'.reservations|
      && forall i :: 0 <= i < |t.reservations| ==>
           var r, r' := t.reservations[i], t'.reservations[i];
           && r'.id == r.id && r'.requestId == r.requestId && r'.requester == r.requester && r'.sku == r.sku
           && r'.requested == r.requested && r'.created == r.created
           && r'.reserved >= r.reserved && (r.state == Closed ==> r' == r)
  {
    assert forall i :: 0 <= i < |t.reservations| ==> RowEvolves(t.reservations[i], t'.reservations[i]);
  }

  lemma EmptyTablesOk()
    ensures Inv(EmptyTables)
  {
    assert forall s: string :: Conserved(EmptyTables, s);
  }

  /** What one request id added to the stock. */
  function Contribution(productions: seq<ProductionEvent>, requestId: string): int {
    if productions == [] then 0
    else (if productions[0].requestId == requestId then productions[0].quantity else 0)
         + Contribution(productions[1..], requestId)
  }

  lemma {:induction false} NoContribution(productions: seq<ProductionEvent>, requestId: string)
    requires forall i :: 0 <= i < |productions| ==> productions[i].requestId != requestId
    ensures Contribution(productions, requestId) == 0
  {
    if productions != [] {
      NoContribution(productions[1..], requestId);
    }
  }

  lemma {:induction false} SingleContribution(productions: seq<ProductionEvent>, k: nat)
    requires DistinctProductionRequests(productions) && k < |productions|
    ensures Contribution(productions, productions[k].requestId) == productions[k].quantity
  {
    if k == 0 {
      NoContribution(productions[1..], productions[0].requestId);
    } else {
      SingleContribution(productions[1..], k - 1);
    }
  }

  /** A request id that has contributed its quantity never contributes again. */
  lemma ContributesOnce(t: Tables, t': Tables, k: nat)
    requires ProductionsOk(t') && Evolves(t, t') && k < |t.productions|
    ensures Contribution(t'.productions, t.productions[k].requestId) == t.productions[k].quantity
  {
    assert t'.productions[k] == t.productions[k];
    SingleContribution(t'.productions, k);
  }

  // ----- repeated batches -----

  function RepeatFill(t: Tables, sku: string, limit: nat, k: nat): (r: Tables)
    requires sku in t.available
    ensures r.available.Keys == t.available.Keys
  {
    if k == 0 then t else FillTables(RepeatFill(t, sku, limit, k - 1), sku, limit)
  }

  lemma {:induction false} RepeatFillIsPasses(t: Tables, sku: string, limit: nat, k: nat)
    requires sku in t.available
    ensures var f := Passes(k, t.available[sku], t.reservations, sku, limit);
      RepeatFill(t, sku, limit, k)
        == t.(available := t.available[sku := f.available], reservations := f.rows)
  {
    hide Fill;
    if k > 0 {
      RepeatFillIsPasses(t, sku, limit, k - 1);
    } else {
      assert t.available[sku := t.available[sku]] == t.available;
    }
  }

  lemma QueueOfInv(t: Tables)
    requires Inv(t)
    ensures RowsOk(t.reservations) && CatalogOk(t)
  {
  }

  /**
   After ceil(n / 100) successful passes over n open reservations the tables are those of
   one unbounded pass over the whole queue, and further passes change nothing.
   */
  lemma BatchRefinesUnbounded(t: Tables, sku: string, more: nat)
    requires Inv(t) && sku in t.available
    ensures var n := OpenCount(t.reservations, sku);
      RepeatFill(t, sku, BATCH, (n + BATCH - 1) / BATCH + more)
        == FillTables(t, sku, |t.reservations|)
  {
    var n := OpenCount(t.reservations, sku);
    var k := (n + BATCH - 1) / BATCH;
    assert n <= k * BATCH;
    CoveringFillsAreUnbounded(t, sku, k, more);
  }

  lemma CoveringFillsAreUnbounded(t: Tables, sku: string, k: nat, more: nat)
    requires Inv(t) && sku in t.available && OpenCount(t.reservations, sku) <= k * BATCH
    ensures RepeatFill(t, sku, BATCH, k + more) == FillTables(t, sku, |t.reservations|)
  {
    hide Inv, Fill, Passes, RepeatFill, OpenCount, RowsOk;
    QueueOfInv(t);
    RepeatFillIsPasses(t, sku, BATCH, k + more);
    BatchesReachTheUnboundedFill(k, t.available[sku], t.reservations, sku, BATCH, more);
  }

  /**
   One FillReserves serves the 100 oldest open reservations: each gets its shortfall or what
   the ones ahead of it left over, and every row behind them is untouched.
   */
  lemma OneHundredPerFill(t: Tables, sku: string, p: nat)
    requires Inv(t) && sku in t.available && p < |t.reservations|
    ensures var r, t' := t.reservations[p], FillTables(t, sku, BATCH);
      && |t'.reservations| == |t.reservations|
      && t'.reservations[p] ==
         if r.state == Open && r.sku == sku && Rank(t.reservations, sku, p) < 100
         then
           var grant := Min(r.requested - r.reserved, Max(0, t.available[sku] - Ahead(t.reservations, sku, p)));
           r.(reserved := r.reserved + grant, state := if r.reserved + grant == r.requested then Closed else Open)
         else r
  {
    InvMeans(t, sku);
    FillClosedForm(t.available[sku], t.reservations, sku, BATCH, p);
  }

  lemma {:induction false} NoneOpen(rows: seq<Reservation>, sku: string)
    requires OpenCount(rows, sku) == 0
    ensures forall i :: 0 <= i < |rows| && rows[i].sku == sku ==> rows[i].state == Closed
  {
    if rows != [] {
      assert OpenCount(rows[1..], sku) == 0;
      NoneOpen(rows[1..], sku);
      assert forall i :: 0 < i < |rows| ==> rows[i] == rows[1..][i - 1];
    }
  }

  /** With at most 100 open reservations, one FillReserves leaves no stock or no open reservation. */
  lemma OneFillLeavesNothingIdle(t: Tables, sku: string)
    requires Inv(t) && sku in t.available && OpenCount(t.reservations, sku) <= 100
    ensures var t' := FillTables(t, sku, BATCH);
      || t'.available[sku] == 0
      || forall i :: 0 <= i < |t'.reservations| && t'.reservations[i].sku == sku ==> t'.reservations[i].state == Closed
  {
    FillAndIdleStock(t, sku, sku);
    var t' := FillTables(t, sku, BATCH);
    if t'.available[sku] != 0 { NoneOpen(t'.reservations, sku); }
  }

  // ----- idle stock -----

  predicate NoIdleStock(t: Tables, sku: string) {
    sku in t.available ==> NoIdle(t.available[sku], t.reservations, sku)
  }

  lemma {:induction false} FillLeavesOthersOpen(available: int, rows: seq<Reservation>, sku: string, budget: nat, s: string)
    requires sku != "" && s != "" && s != sku
    ensures OpenCount(Fill(available, rows, sku, budget).rows, s) == OpenCount(rows, s)
    decreases |rows|
  {
    if rows != [] {
      var f := Fill(available, rows, sku, budget);
      if Selected(rows[0], sku) && budget > 0 && available != 0 {
        var amount := Min(Shortfall(rows[0]), available);
        assert f.rows[1..] == Fill(available - amount, rows[1..], sku, budget - 1).rows;
        FillLeavesOthersOpen(available - amount, rows[1..], sku, budget - 1, s);
      } else {
        assert f.rows[1..] == Fill(available, rows[1..], sku, budget).rows;
        FillLeavesOthersOpen(available, rows[1..], sku, budget, s);
      }
    }
  }

  /** A pass restores "no idle stock" for its SKU exactly when the batch was enough, and never disturbs another SKU. */
  lemma FillAndIdleStock(t: Tables, sku: string, s: string)
    requires Inv(t) && sku in t.available && s in t.available
    ensures var t' := FillTables(t, sku, BATCH);
      NoIdleStock(t', s) <==>
        if s == sku
        then OpenCount(t.reservations, s) <= BATCH || t.available[s] <= BatchDemand(t.reservations, s, BATCH)
        else NoIdleStock(t, s)
  {
    if s == sku {
      NoIdleAfterFill(t.available[sku], t.reservations, sku, BATCH);
    } else {
      FillLeavesOthersOpen(t.available[sku], t.reservations, sku, BATCH, s);
    }
  }

  /** A call that runs to completion without any failure. */
  datatype Call = CreateCall(product: Product) | ProduceCall(event: ProductionEvent) | ReserveCall(row: Reservation)

  predicate CallAllowed(t: Tables, c: Call) {
    match c
    case CreateCall(product) => product.sku in t.products || Allowed(t, CreateTx(product))
    case ProduceCall(event) => KnownProduction(t, event.requestId) || Allowed(t, ProduceTx(event))
    case ReserveCall(row) => KnownReservation(t, row.requestId) || Allowed(t, ReserveTx(row))
  }

  /** The tables between the call's own commit and its FillReserves. */
  function Recorded(t: Tables, c: Call): Tables
    requires CallAllowed(t, c)
  {
    match c
    case CreateCall(product) => if product.sku in t.products then t else Commit(t, CreateTx(product))
    case ProduceCall(event) => if KnownProduction(t, event.requestId) then t else Commit(t, ProduceTx(event))
    case ReserveCall(row) => if KnownReservation(t, row.requestId) then t else Commit(t, ReserveTx(row))
  }

  function Completed(t: Tables, c: Call): Tables
    requires CallAllowed(t, c) && CatalogOk(t)
  {
    match c
    case CreateCall(product) => Recorded(t, c)
    case ProduceCall(event) =>
      if KnownProduction(t, event.requestId) then t else FillTables(Recorded(t, c), event.sku, BATCH)
    case ReserveCall(row) =>
      if KnownReservation(t, row.requestId) then t else FillTables(Recorded(t, c), row.sku, BATCH)
  }

  lemma CompletedKeepsInv(t: Tables, c: Call)
    requires Inv(t) && CallAllowed(t, c)
    ensures Inv(Recorded(t, c)) && Inv(Completed(t, c)) && Evolves(t, Completed(t, c))
  {
    var r := Recorded(t, c);
    match c {
      case CreateCall(product) => if product.sku !in t.products { CreateKeepsInv(t, product); }
      case ProduceCall(event) =>
        if !KnownProduction(t, event.requestId) { ProduceKeepsInv(t, event); FillKeepsInv(r, event.sku, BATCH); }
      case ReserveCall(row) =>
        if !KnownReservation(t, row.requestId) { ReserveKeepsInv(t, row); FillKeepsInv(r, row.sku, BATCH); }
    }
    if Completed(t, c) != r {
      EvolvesTransitive(t, r, Completed(t, c));
    }
  }

  /** The call finds its product or request id already there and does nothing. */
  predicate Duplicate(t: Tables, c: Call) {
    match c
    case CreateCall(product) => product.sku in t.products
    case ProduceCall(event) => KnownProduction(t, event.requestId)
    case ReserveCall(row) => KnownReservation(t, row.requestId)
  }

  /** The call ends with a FillReserves for `sku`. */
  predicate Fills(t: Tables, c: Call, sku: string) {
    && !Duplicate(t, c)
    && match c
       case CreateCall(_) => false
       case ProduceCall(event) => event.sku == sku
       case ReserveCall(row) => row.sku == sku
  }

  /**
   With at most 100 open reservations of a SKU, a completed call leaves no idle stock of it
   if and only if there was none before or the call itself filled that SKU.
   */
  lemma CompletedLeavesNoIdleStock(t: Tables, c: Call, s: string)
    requires Inv(t) && CallAllowed(t, c) && s in t.available
    requires OpenCount(Recorded(t, c).reservations, s) <= BATCH
    ensures NoIdleStock(Completed(t, c), s) <==> NoIdleStock(t, s) || Fills(t, c, s)
  {
    CompletedKeepsInv(t, c);
    var r := Recorded(t, c);
    match c {
      case CreateCall(product) =>
      case ProduceCall(event) =>
        if !KnownProduction(t, event.requestId) {
          FillAndIdleStock(r, event.sku, s);
        }
      case ReserveCall(row) =>
        if !KnownReservation(t, row.requestId) {
          RankAppend(t.reservations, row, s);
          FillAndIdleStock(r, row.sku, s);
        }
    }
  }

  lemma CreatedStockIsNotIdle(t: Tables, c: Call, s: string)
    requires Inv(t) && CallAllowed(t, c) && s !in t.available && s in Completed(t, c).available
    ensures NoIdleStock(Completed(t, c), s)
  {
  }

  /**
   A Produce that committed, failed before its fill and is retried: the retry succeeds as a
   duplicate, and the stock stays idle beside an open reservation.
   */
  lemma DuplicateLeavesStockIdle(product: Product, event: ProductionEvent, row: Reservation)
    requires Allowed(EmptyTables, CreateTx(product)) && row.sku == event.sku == product.sku
    requires event.requestId != "" && event.quantity >= 1
    requires row.requestId != "" && row.requested >= 1 && row.reserved == 0 && row.state.Open?
    ensures var xs := [CreateTx(product), ReserveTx(row), ProduceTx(event)];
      && Executable(EmptyTables, xs)
      && var t := Execute(EmptyTables, xs);
         && CatalogOk(t) && CallAllowed(t, ProduceCall(event)) && Completed(t, ProduceCall(event)) == t
         && !NoIdleStock(t, product.sku)
  {
    var t1 := Commit(EmptyTables, CreateTx(product));
    var t2 := Commit(t1, ReserveTx(row));
    var t3 := Commit(t2, ProduceTx(event));
    assert t3.productions[0].requestId == event.requestId;
    assert t3.reservations == [row];
    assert Selected(row, product.sku) && Rank([row][1..], product.sku, 0) == 0;
    assert OpenCount([row], product.sku) == 1;
    ExecuteOneMore(t2, ProduceTx(event), []);
    ExecuteOneMore(t1, ReserveTx(row), [ProduceTx(event)]);
    ExecuteOneMore(EmptyTables, CreateTx(product), [ReserveTx(row), ProduceTx(event)]);
    assert [ReserveTx(row), ProduceTx(event)] == [ReserveTx(row)] + [ProduceTx(event)];
    assert [CreateTx(product), ReserveTx(row), ProduceTx(event)]
        == [CreateTx(product)] + [ReserveTx(row), ProduceTx(event)];
  }

  predicate RunAllowed(t: Tables, calls: seq<Call>)
    decreases |calls|
  {
    calls != [] ==>
      CatalogOk(t) && CallAllowed(t, calls[0]) && RunAllowed(Completed(t, calls[0]), calls[1..])
  }

  function Run(t: Tables, calls: seq<Call>): Tables
    requires RunAllowed(t, calls)
    decreases |calls|
  {
    if calls == [] then t else Run(Completed(t, calls[0]), calls[1..])
  }

  /** No SKU ever has more than 100 open reservations along the run. */
  predicate NeverCrowded(t: Tables, calls: seq<Call>, s: string)
    requires RunAllowed(t, calls)
    decreases |calls|
  {
    calls != [] ==>
      && OpenCount(Recorded(t, calls[0]).reservations, s) <= BATCH
      && NeverCrowded(Completed(t, calls[0]), calls[1..], s)
  }

  /** Over a whole run of successful calls: invariants hold, nothing is undone, no stock idles. */
  lemma {:induction false} RunKeepsInvAndNoIdleStock(t: Tables, calls: seq<Call>, s: string)
    requires Inv(t) && RunAllowed(t, calls)
    ensures Inv(Run(t, calls)) && Evolves(t, Run(t, calls))
    ensures NoIdleStock(t, s) && NeverCrowded(t, calls, s) ==> NoIdleStock(Run(t, calls), s)
    decreases |calls|
  {
    if calls != [] {
      var t1 := Completed(t, calls[0]);
      CompletedKeepsInv(t, calls[0]);
      if NoIdleStock(t, s) && NeverCrowded(t, calls, s) {
        if s in t.available {
          CompletedLeavesNoIdleStock(t, calls[0], s);
        } else if s in t1.available {
          CreatedStockIsNotIdle(t, calls[0], s);
        }
      }
      RunKeepsInvAndNoIdleStock(t1, calls[1..], s);
      EvolvesTransitive(t, t1, Run(t, calls));
    }
  }

  // ----- the empty SKU -----

  /**
   GetReservations drops its SKU filter for an empty SKU, so a product registered under ""
   would hand its stock to reservations of other SKUs. Conservation then survives exactly
   when there was no stock to hand out or nobody waiting for any.
   */
  lemma EmptySkuFill(t: Tables)
    requires CatalogOk(t) && QueueOk(t) && Balanced(t) && "" in t.available
    ensures Balanced(FillTables(t, "", BATCH))
      <==> t.available[""] == 0 || OpenCount(t.reservations, "") == 0
  {
    var t' := FillTables(t, "", BATCH);
    if t.available[""] == 0 || OpenCount(t.reservations, "") == 0 {
      FillIdle(t.available[""], t.reservations, "", BATCH);
      forall s: string ensures Conserved(t', s) {
        assert Conserved(t, s);
      }
    } else {
      FillTotalGranted(t.available[""], t.reservations, "", BATCH);
      SomeDemand(t.reservations, "", BATCH);
      FillKeepsQueue(t, "", BATCH);
      NothingHeld(t.reservations, "");
      NothingHeld(t'.reservations, "");
      assert Conserved(t, "");
      assert !Conserved(t', "");
    }
  }

  /** Stock under "" beside a reservation of another SKU. */
  function NamelessStock(nameless: Product, product: Product, row: Reservation, event: ProductionEvent): Tables {
    Tables(map["" := nameless, product.sku := product], map["" := event.quantity, product.sku := 0], [event], [row])
  }

  /** It takes four commits to get there: two products, a reservation, and a production of "". */
  lemma NamelessStockIsReached(nameless: Product, product: Product, row: Reservation, event: ProductionEvent)
    requires nameless.sku == "" && product.sku != ""
    requires row.sku == product.sku && row.requestId != "" && row.requested >= 1
    requires row.reserved == 0 && row.state.Open?
    requires event.sku == "" && event.requestId != "" && event.quantity >= 1
    ensures var t0 := Registered(EmptyTables, nameless);
      && Allowed(t0, CreateTx(product))
      && var t1 := Commit(t0, CreateTx(product));
      && Allowed(t1, ReserveTx(row))
      && var t2 := Commit(t1, ReserveTx(row));
      && Allowed(t2, ProduceTx(event))
      && Commit(t2, ProduceTx(event)) == NamelessStock(nameless, product, row, event)
  {
    var t1 := Commit(Registered(EmptyTables, nameless), CreateTx(product));
    assert t1.available[""] == 0;
    var t2 := Commit(t1, ReserveTx(row));
    assert t2.reservations == [row] && [] + [event] == [event];
  }

  /** The next fill of "" then breaks conservation. */
  lemma EmptySkuBreaksConservation(nameless: Product, product: Product, row: Reservation, event: ProductionEvent)
    requires nameless.sku == "" && product.sku != ""
    requires row.sku == product.sku && row.requestId != "" && row.requested >= 1
    requires row.reserved == 0 && row.state.Open?
    requires event.sku == "" && event.requestId != "" && event.quantity >= 1
    ensures var t := NamelessStock(nameless, product, row, event);
      Consistent(t) && !Balanced(FillTables(t, "", BATCH))
  {
    hide Consistent, Balanced, FillTables;
    var t := NamelessStock(nameless, product, row, event);
    TwoSkusConsistent(t, product, row, event);
    EmptySkuFill(t);
  }

  lemma TwoSkusConsistent(t: Tables, product: Product, row: Reservation, event: ProductionEvent)
    requires t.products.Keys == t.available.Keys == {"", product.sku} && product.sku != ""
    requires t.products[""].sku == "" && t.products[product.sku] == product
    requires t.available[""] == event.quantity && t.available[product.sku] == 0
    requires t.productions == [event] && t.reservations == [row]
    requires row.sku == product.sku && row.requestId != "" && row.requested >= 1
    requires row.reserved == 0 && row.state.Open?
    requires event.sku == "" && event.requestId != "" && event.quantity >= 1
    ensures Consistent(t) && CatalogOk(t) && QueueOk(t) && Balanced(t)
    ensures OpenCount(t.reservations, "") == 1
  {
    assert [row][1..] == [] && [event][1..] == [];
    forall s: string ensures Conserved(t, s) {
      assert Held([row], s) == 0;
      assert Made([event], s) == if s == "" then event.quantity else 0;
    }
    assert Selected(row, "") && Rank([row][1..], "", 0) == 0;
  }

  lemma {:induction false} SomeDemand(rows: seq<Reservation>, sku: string, budget: nat)
    requires RowsOk(rows) && budget > 0 && OpenCount(rows, sku) > 0
    ensures BatchDemand(rows, sku, budget) > 0
  {
    if Selected(rows[0], sku) {
      BatchDemandNonNegative(rows[1..], sku, budget - 1);
    } else {
      SomeDemand(rows[1..], sku, budget);
    }
  }
}
