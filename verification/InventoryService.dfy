/**
 The inventory service, one call at a time, with a failure possible at every storage,
 broker and cache call.
 */
module InventoryService {
  import opened Common
  import opened Allocation
  import opened InventoryTables
  import opened Persistence
  import opened MemoryCaching

  /** Five minutes, in nanoseconds. */
  const DEFAULT_CACHE_TTL: int := 300_000_000_000

  function ProductCacheKey(sku: string): string {
    "inv:product:" + sku + ":v1"
  }

  lemma ProductCacheKeyInjective(a: string, b: string)
    ensures ProductCacheKey(a) == ProductCacheKey(b) ==> a == b
    ensures |ProductCacheKey(a)| == |a| + 15
    ensures ProductCacheKey(a)[..12] == "inv:product:" && ProductCacheKey(a)[12 + |a|..] == ":v1"
  {
    var prefix := "inv:product:";
    assert |ProductCacheKey(a)| == |prefix| + |a| + 3 && |ProductCacheKey(b)| == |prefix| + |b| + 3;
    assert a == ProductCacheKey(a)[|prefix|..|prefix| + |a|];
    assert b == ProductCacheKey(b)[|prefix|..|prefix| + |b|];
  }

  function EventOf(sku: string, pr: ProductionRequest, now: int): ProductionEvent {
    ProductionEvent(pr.requestId, sku, pr.quantity, now)
  }

  predicate ValidProduction(pr: ProductionRequest) {
    pr.requestId != "" && pr.quantity >= 1
  }

  predicate ValidReservation(rr: ReservationRequest) {
    rr.requestId != "" && rr.requester != "" && rr.sku != "" && rr.quantity >= 1
  }

  /** The call committed its own transaction before it failed. */
  predicate FailedLate(err: Option<Error>) {
    err == Some(PublishFailure) || err == Some(FillFailure)
  }

  function CreatedTables(t: Tables, product: Product): Tables {
    if product.sku in t.products then t else Registered(t, product)
  }

  /** How a Produce call may leave the tables, given how it ended. */
  predicate ProduceOutcome(t: Tables, event: ProductionEvent, err: Option<Error>, t': Tables) {
    if FailedLate(err) then
      Allowed(t, ProduceTx(event)) && t' == Commit(t, ProduceTx(event))
    else if err.None? then
      CatalogOk(t) && CallAllowed(t, ProduceCall(event)) && t' == Completed(t, ProduceCall(event))
    else t' == t
  }

  predicate ReserveOutcome(t: Tables, row: Reservation, err: Option<Error>, t': Tables) {
    if FailedLate(err) then
      Allowed(t, ReserveTx(row)) && t' == Commit(t, ReserveTx(row))
    else if err.None? then
      CatalogOk(t) && CallAllowed(t, ReserveCall(row)) && t' == Completed(t, ReserveCall(row))
    else t' == t
  }

  type Entries = map<string, CacheEntry<ProductInventory>>

  /** A cached row is of the registered product and, unless an invalidation was missed, the row of `t`. */
  ghost predicate Fresh(t: Tables, entries: Entries, stale: set<string>) {
    && (forall s :: ProductCacheKey(s) in entries ==>
          s in t.products && entries[ProductCacheKey(s)].value.product == t.products[s])
    && (forall s :: ProductCacheKey(s) in entries && s !in stale ==>
          RowOf(t, s) == Some(entries[ProductCacheKey(s)].value))
  }

  /** Dropping a cached row, or noting that it may be stale, never spoils the others. */
  lemma FreshAfterPublish(t: Tables, sku: string, e: Entries, stale: set<string>, e': Entries, stale': set<string>)
    requires Fresh(t, e, stale)
    requires e' == e || e' == e - {ProductCacheKey(sku)}
    requires stale - {sku} <= stale'
    requires stale <= stale' || ProductCacheKey(sku) !in e'
    ensures Fresh(t, e', stale')
  {
  }

  /** Once the row of `sku` is dropped or marked, only the other SKUs have to agree. */
  lemma FreshForChangedRow(t: Tables, t': Tables, sku: string, e: Entries, stale: set<string>)
    requires Fresh(t, e, stale)
    requires ProductCacheKey(sku) !in e || sku in stale
    requires forall s :: s != sku ==> RowOf(t, s) == RowOf(t', s)
    requires t'.products == t.products
    ensures Fresh(t', e, stale)
  {
  }

  /** Registering a SKU gives it a row and changes no other. */
  lemma CreateKeepsFresh(t: Tables, product: Product, e: Entries, stale: set<string>)
    requires Fresh(t, e, stale) && product.sku !in t.products
    ensures Fresh(Registered(t, product), e, stale)
  {
    var t' := Registered(t, product);
    assert forall s :: s != product.sku ==> RowOf(t, s) == RowOf(t', s);
  }

  /** The row a successful Reserve answers with: the one already there, or the new one. */
  function ReservationFor(t: Tables, rr: ReservationRequest, id: nat, now: int): Option<Reservation> {
    if KnownReservation(t, rr.requestId) then FindReservation(t.reservations, rr.requestId)
    else Some(NewReservation(id, rr, now))
  }

  /** What a Produce leaves behind once its own transaction has committed, in plain terms. */
  lemma ProduceMeans(t: Tables, event: ProductionEvent, err: Option<Error>, t': Tables)
    requires Inv(t) && Inv(t') && ProduceOutcome(t, event, err, t')
    requires FailedLate(err) || (err.None? && !KnownProduction(t, event.requestId))
    ensures t'.productions == t.productions + [event]
    ensures OnShelf(t', event.sku) + Held(t'.reservations, event.sku)
         == OnShelf(t, event.sku) + Held(t.reservations, event.sku) + event.quantity
  {
    StockGrows(t, t', event);
  }

  /** What a Reserve leaves behind once its own transaction has committed, in plain terms. */
  lemma ReserveMeans(t: Tables, row: Reservation, err: Option<Error>, t': Tables)
    requires Inv(t) && ReserveOutcome(t, row, err, t')
    requires FailedLate(err) || (err.None? && !KnownReservation(t, row.requestId))
    ensures |t'.reservations| == |t.reservations| + 1
    ensures RowEvolves(row, t'.reservations[|t.reservations|])
  {
    var u := Commit(t, ReserveTx(row));
    ReserveKeepsInv(t, row);
    FillKeepsInv(u, row.sku, BATCH);
    FillEvolves(u.available[row.sku], u.reservations, row.sku, BATCH);
    assert u.reservations[|t.reservations|] == row;
    assert RowEvolves(u.reservations[|t.reservations|], FillTables(u, row.sku, BATCH).reservations[|t.reservations|]);
  }

  lemma InvIsConsistent(t: Tables)
    requires Inv(t)
    ensures Consistent(t) && "" !in t.products
  {
  }

  lemma HasRow(t: Tables, sku: string)
    requires Inv(t)
    ensures sku in t.products ==> RowOf(t, sku).Some?
  {
  }

  lemma Unchanged(t: Tables)
    requires Inv(t)
    ensures Evolves(t, t) && CatalogOk(t)
  {
  }

  lemma ProduceAndFill(t: Tables, event: ProductionEvent)
    requires Inv(t) && Allowed(t, ProduceTx(event))
    ensures var u := Commit(t, ProduceTx(event));
      var v := FillTables(u, event.sku, BATCH);
      && Inv(u) && Evolves(t, u) && Evolves(t, v)
      && ProduceOutcome(t, event, None, v)
      && (forall s :: s != event.sku ==> RowOf(t, s) == RowOf(u, s))
  {
    var u := Commit(t, ProduceTx(event));
    ProduceKeepsInv(t, event);
    FillKeepsInv(u, event.sku, BATCH);
    EvolvesTransitive(t, u, FillTables(u, event.sku, BATCH));
  }

  lemma ReserveAndFill(t: Tables, row: Reservation)
    requires Inv(t) && Allowed(t, ReserveTx(row))
    ensures var u := Commit(t, ReserveTx(row));
      var v := FillTables(u, row.sku, BATCH);
      && Inv(u) && Evolves(t, u) && Evolves(t, v)
      && ReserveOutcome(t, row, None, v)
      && (forall s :: RowOf(t, s) == RowOf(u, s))
  {
    var u := Commit(t, ReserveTx(row));
    ReserveKeepsInv(t, row);
    FillKeepsInv(u, row.sku, BATCH);
    EvolvesTransitive(t, u, FillTables(u, row.sku, BATCH));
  }

  class Service {
    const env: Environment
    const repo: Repository
    const cache: MemoryCache<ProductInventory>
    const caching: bool
    const cacheTTL: int
    ghost var history: map<int, Tables>  // the committed tables at the moments a read filled the cache
    ghost var stale: set<string>         // SKUs whose cached row may have missed an invalidation

    constructor (caching: bool, ttl: int)
      ensures Valid() && fresh(env) && fresh(repo) && fresh(cache)
      ensures repo.committed == EmptyTables && stale == {} && env.faults == 0 && env.cacheFaults == 0
      ensures this.caching == caching
      ensures cacheTTL == if ttl > 0 then ttl else 300_000_000_000
    {
      var world := new Environment();
      var tables := new Repository(world);
      env, repo := world, tables;
      cache := new MemoryCache();
      this.caching := caching;
      cacheTTL := if ttl > 0 then ttl else DEFAULT_CACHE_TTL;
      history, stale := map[], {};
    }

    ghost predicate Valid()
      reads this, env, repo, cache
    {
      && repo.env == env && !repo.open && cacheTTL > 0
      && Inv(repo.committed)
      && repo.IdsBelowNext(repo.committed)
      && CreatedByNow(repo.committed)
      && CacheRecorded()
      && FreshFor(repo.committed)
    }

    /** The clock has passed the creation of every row. */
    predicate CreatedByNow(t: Tables)
      reads this, env
    {
      forall i :: 0 <= i < |t.reservations| ==> t.reservations[i].created <= env.clock
    }

    /** Every cached row was the committed row at the moment it was stored. */
    ghost predicate CacheRecorded()
      reads this, env, cache
    {
      && (!caching ==> cache.entries == map[])
      && (forall t :: t in history ==> t <= env.clock)
      && (forall s :: ProductCacheKey(s) in cache.entries ==> StoredAt(s, cache.entries[ProductCacheKey(s)]))
    }

    ghost predicate StoredAt(sku: string, e: CacheEntry<ProductInventory>)
      reads this
    {
      && e.expireAt.Some?
      && e.expireAt.value - cacheTTL in history
      && RowOf(history[e.expireAt.value - cacheTTL], sku) == Some(e.value)
    }

    ghost predicate FreshFor(t: Tables)
      reads this, cache
    {
      Fresh(t, cache.entries, stale)
    }

    /** History only grows, and what it gains are the committed tables of now. */
    twostate predicate HistoryGrows()
      reads this, repo, env
    {
      && (forall t :: t in old(history) ==> t in history && history[t] == old(history)[t])
      && (forall t :: t in history && t !in old(history) ==> old(env.clock) < t && history[t] == repo.committed)
    }

    /** A call for `sku` leaves the cache as it was, or without the row of `sku`. */
    twostate predicate OnlyInvalidates(sku: string)
      reads this, env, cache
    {
      && (cache.entries == old(cache.entries) || cache.entries == old(cache.entries) - {ProductCacheKey(sku)})
      && stale <= old(stale) + {sku}
      && old(stale) - {sku} <= stale
      && old(env.cacheFaults) <= env.cacheFaults
      && env.clock == old(env.clock)
    }

    method PublishInventory(sku: string) returns (err: Option<Error>)
      requires !caching ==> cache.entries == map[]
      modifies env, cache, this`stale
      ensures env.faults == old(env.faults) + (if err.None? then 0 else 1)
      ensures OnlyInvalidates(sku)
      ensures env.cacheFaults == old(env.cacheFaults) ==> stale <= old(stale)
      ensures ProductCacheKey(sku) !in cache.entries || stale >= old(stale)
      ensures err.None? ==> ProductCacheKey(sku) !in cache.entries || sku in stale
      ensures err.Some? ==> stale == old(stale)
    {
      var refused := env.Flaky();
      if refused { return Some(Failure); }
      if caching {
        var unreachable := env.FlakyCache();
        if unreachable {
          stale := stale + {sku};
        } else {
          cache.Delete(ProductCacheKey(sku));
          stale := stale - {sku};
        }
      }
      return None;
    }

    method PublishReservation() returns (err: Option<Error>)
      modifies env`faults
      ensures env.Answered(err.None?)
    {
      var refused := env.Flaky();
      err := if refused then Some(Failure) else None;
    }

    /** The body of the FillReserves loop for one reservation, inside its savepoint. */
    method FillOne(sku: string, row: Reservation, available: int, ghost p: nat)
      returns (left: int, err: Option<Error>)
      requires repo.env == env && repo.open && repo.savepoints != []
      requires sku in repo.pending.products && sku in repo.pending.available
      requires available == repo.pending.available[sku]
      requires DistinctIds(repo.pending.reservations)
      requires p < |repo.pending.reservations| && repo.pending.reservations[p] == row
      requires !caching ==> cache.entries == map[]
      modifies repo`pending, repo`savepoints, env, cache, this`stale
      ensures env.faults >= old(env.faults) && (err.None? <==> env.faults == old(env.faults))
      ensures OnlyInvalidates(sku)
      ensures env.cacheFaults == old(env.cacheFaults) ==> stale <= old(stale)
      ensures ProductCacheKey(sku) !in cache.entries || stale >= old(stale)
      ensures err.None? ==> ProductCacheKey(sku) !in cache.entries || sku in stale
      ensures err.None? ==>
        var g := GrantAt(Filled(old(repo.pending.available[sku]), old(repo.pending.reservations)), p);
        && left == g.available
        && repo.pending == old(repo.pending).(
             available := old(repo.pending.available)[sku := g.available], reservations := g.rows)
    {
      var reservation := row;
      var reserveAmount := reservation.requested - reservation.reserved;
      if reserveAmount > available {
        reserveAmount := available;
      }
      left := available - reserveAmount;
      reservation := reservation.(reserved := reservation.reserved + reserveAmount);
      if reservation.reserved == reservation.requested {
        reservation := reservation.(state := Closed);
      }

      err := repo.SaveProductInventory(sku, left);
      if err.Some? { repo.RollbackToSavepoint(); return; }
      UpdateRowIsPointwise(repo.pending.reservations, p, reservation.state, reservation.reserved);
      err := repo.UpdateReservation(reservation.id, reservation.state, reservation.reserved);
      if err.Some? { repo.RollbackToSavepoint(); return; }
      err := repo.ReleaseSavepoint();
      if err.Some? { repo.RollbackToSavepoint(); return; }

      err := PublishInventory(sku);
      if err.Some? { return; }
      err := PublishReservation();
    }

    /** The FillReserves loop: `i` reservations were dealt with when it stopped. */
    method FillBatch(sku: string, openReservations: seq<Reservation>, stock: int, ghost t: Tables)
      returns (ghost i: nat, err: Option<Error>)
      requires repo.env == env && repo.open && sku in t.available && Inv(t)
      requires repo.pending == FillTables(t, sku, 0) && stock == repo.pending.available[sku]
      requires |openReservations| <= OpenCount(t.reservations, sku)
      requires openReservations == Queue(t.reservations, sku)[..|openReservations|]
      requires FreshFor(t) && FreshFor(repo.pending)
      requires !caching ==> cache.entries == map[]
      modifies repo`pending, repo`savepoints, env, cache, this`stale
      ensures env.faults >= old(env.faults) && (err.None? <==> env.faults == old(env.faults))
      ensures OnlyInvalidates(sku) && FreshFor(t)
      ensures env.cacheFaults == old(env.cacheFaults) ==> stale <= old(stale)
      ensures err.None? ==> i <= |openReservations| && FreshFor(repo.pending)
      ensures err.None? ==> repo.pending == FillTables(t, sku, i)
      ensures err.None? && i < |openReservations| ==> repo.pending.available[sku] == 0
    {
      hide Inv, FillTables, Fill, Fresh, Position, Queue, OpenCount, DistinctIds, GrantAt;
      err := None;
      var n, available := 0, stock;
      FillTouchesOneRow(t, sku, 0);
      while n < |openReservations|
        invariant 0 <= n <= |openReservations|
        invariant env.faults == old(env.faults) && err.None?
        invariant repo.pending == FillTables(t, sku, n)
        invariant sku in repo.pending.available && available == repo.pending.available[sku]
        invariant OnlyInvalidates(sku) && FreshFor(t) && FreshFor(repo.pending)
        invariant env.cacheFaults == old(env.cacheFaults) ==> stale <= old(stale)
        invariant !caching ==> cache.entries == map[]
      {
        i := n;
        err := repo.Savepoint();
        if err.Some? { return; }
        if available == 0 { break; }
        FillNext(t, sku, n);
        FillTouchesOneRow(t, sku, n);
        FillTouchesOneRow(t, sku, n + 1);
        ghost var entries, missed := cache.entries, stale;
        available, err := FillOne(sku, openReservations[n], available, Position(t.reservations, sku, n));
        FreshAfterPublish(t, sku, entries, missed, cache.entries, stale);
        if err.Some? { return; }
        FreshForChangedRow(t, repo.pending, sku, cache.entries, stale);
        n := n + 1;
      }
      i := n;
    }

    /** FillReserves as a transaction: all of the pass is committed, or none of it. */
    method FillTransaction(sku: string) returns (err: Option<Error>)
      requires repo.env == env && !repo.open && Inv(repo.committed) && FreshFor(repo.committed)
      requires !caching ==> cache.entries == map[]
      modifies env, repo`open, repo`committed, repo`pending, repo`savepoints, cache, this`stale
      ensures !repo.open && FreshFor(repo.committed)
      ensures err.None? ==> (
        && sku in old(repo.committed.available)
        && repo.committed == FillTables(old(repo.committed), sku, BATCH))
      ensures err.Some? ==> repo.committed == old(repo.committed)
      ensures env.faults >= old(env.faults)
      ensures err.None? <==> sku in old(repo.committed.available) && env.faults == old(env.faults)
      ensures OnlyInvalidates(sku)
      ensures env.cacheFaults == old(env.cacheFaults) ==> stale <= old(stale)
    {
      ghost var t := repo.committed;
      err := repo.BeginTransaction();
      if err.Some? { return; }
      var openReservations;
      openReservations, err := repo.GetReservations(sku, Some(Open), BATCH, 0, true);
      if err.Some? { repo.Rollback(); return; }
      var found;
      found, err := repo.GetProductInventory(sku, true);
      if err.Some? { repo.Rollback(); return; }

      BatchQuery(t.reservations, sku, BATCH);
      FillNone(t, sku);
      ghost var i;
      i, err := FillBatch(sku, openReservations, found.value.available, t);
      if err.Some? { repo.Rollback(); return; }
      FillStops(t, sku, i, |openReservations|);
      err := repo.Commit();
      if err.Some? { repo.Rollback(); }
    }

    /**
     Moves stock to the oldest open reservations of a SKU, at most 100 of them. It commits
     one whole pass or nothing, and it commits exactly when no call it made failed.
     */
    method FillReserves(sku: string) returns (err: Option<Error>)
      requires Valid()
      modifies env, repo, cache, this`stale
      ensures Valid()
      ensures err.None? ==> (
        && sku in old(repo.committed.available)
        && repo.committed == FillTables(old(repo.committed), sku, BATCH))
      ensures err.Some? ==> repo.committed == old(repo.committed)
      ensures err.None? && OpenCount(old(repo.committed.reservations), sku) <= 100 ==>
        || repo.committed.available[sku] == 0
        || forall i :: 0 <= i < |repo.committed.reservations| && repo.committed.reservations[i].sku == sku ==>
             repo.committed.reservations[i].state == Closed
      ensures env.faults >= old(env.faults)
      ensures err.None? <==> sku in old(repo.committed.available) && env.faults == old(env.faults)
      ensures OnlyInvalidates(sku)
      ensures env.cacheFaults == old(env.cacheFaults) ==> stale <= old(stale)
      ensures repo.nextId == old(repo.nextId)
    {
      hide Fresh, Fill, Rank;
      ghost var t := repo.committed;
      err := FillTransaction(sku);
      if err.None? {
        if OpenCount(t.reservations, sku) <= 100 { OneFillLeavesNothingIdle(t, sku); }
        FillKeepsInv(t, sku, BATCH);
        assert forall i :: 0 <= i < |t.reservations| ==> RowEvolves(t.reservations[i], repo.committed.reservations[i]);
        assert |t.reservations| == |repo.committed.reservations| by {
          FillEvolves(t.available[sku], t.reservations, sku, BATCH);
        }
      }
    }

    /**
     Registering a SKU twice is a no-op; a failure leaves the tables alone. The service takes
     any SKU; after an empty one the tables are still consistent, but no longer safe to fill.
     */
    method CreateProduct(product: Product) returns (err: Option<Error>)
      requires Valid()
      modifies env, repo
      ensures Consistent(repo.committed) && !repo.open
      ensures product.sku != "" || err.Some? ==> Valid()
      ensures err.None? && product.sku !in old(repo.committed.products) ==>
        && product.sku in repo.committed.products && repo.committed.products[product.sku] == product
        && product.sku in repo.committed.available && repo.committed.available[product.sku] == 0
      ensures env.clock == old(env.clock) && repo.nextId == old(repo.nextId)
      ensures repo.committed == if err.None? then CreatedTables(old(repo.committed), product) else old(repo.committed)
      ensures env.faults >= old(env.faults)
      ensures err.None? <==>
        && env.faults == old(env.faults)
        && (product.sku in old(repo.committed).products || !UpcTaken(old(repo.committed), product))
    {
      hide Inv, Consistent, CatalogOk, Fresh;
      ghost var t := repo.committed;
      InvIsConsistent(t);
      var existing;
      existing, err := repo.GetProduct(product.sku, false);
      if err.Some? && err != Some(NotFound) { return; }
      if err.None? { return; }

      err := repo.BeginTransaction();
      if err.Some? { return; }
      err := repo.SaveProduct(product);
      if err.Some? { repo.Rollback(); return; }
      err := repo.SaveProductInventory(product.sku, 0);
      if err.Some? { repo.Rollback(); return; }
      err := repo.Commit();
      if err.Some? { repo.Rollback(); return; }
      CreateKeepsConsistent(t, product);
      if product.sku != "" { CreateKeepsInv(t, product); }
      CreateKeepsFresh(t, product, cache.entries, stale);
    }

    /** The first transaction of Produce: record the event and add it to the stock. */
    method RecordProduction(event: ProductionEvent) returns (err: Option<Error>)
      requires repo.env == env && !repo.open && Inv(repo.committed)
      requires event.requestId != "" && event.quantity >= 1
      modifies env`faults, repo`open, repo`committed, repo`pending, repo`savepoints
      ensures !repo.open && env.faults >= old(env.faults)
      ensures err.None? ==> (
        && Allowed(old(repo.committed), ProduceTx(event))
        && repo.committed == Commit(old(repo.committed), ProduceTx(event)))
      ensures err.Some? ==> repo.committed == old(repo.committed) && !FailedLate(err) && err != Some(InvalidInput)
      ensures err.None? <==> Allowed(old(repo.committed), ProduceTx(event)) && env.faults == old(env.faults)
    {
      err := repo.BeginTransaction();
      if err.Some? { return; }
      err := repo.SaveProductionEvent(event);
      if err.Some? { repo.Rollback(); return; }
      var found;
      found, err := repo.GetProductInventory(event.sku, true);
      if err.Some? { repo.Rollback(); return; }
      err := repo.SaveProductInventory(event.sku, found.value.available + event.quantity);
      if err.Some? { repo.Rollback(); return; }
      err := repo.Commit();
      if err.Some? { repo.Rollback(); return; }
    }

    /** Produce's own publish, after its commit turned `t` into the committed tables. */
    method PublishProduced(sku: string, ghost t: Tables) returns (err: Option<Error>)
      requires FreshFor(t) && CacheRecorded()
      requires forall s :: s != sku ==> RowOf(t, s) == RowOf(repo.committed, s)
      requires repo.committed.products == t.products
      modifies env, cache, this`stale
      ensures FreshFor(repo.committed) && CacheRecorded()
      ensures env.faults == old(env.faults) + (if err.None? then 0 else 1)
      ensures env.clock == old(env.clock) && env.cacheFaults >= old(env.cacheFaults)
      ensures stale <= old(stale) + {sku}
      ensures env.cacheFaults == old(env.cacheFaults) && err.None? ==> stale <= old(stale)
    {
      ghost var entries, missed := cache.entries, stale;
      err := PublishInventory(sku);
      FreshAfterPublish(t, sku, entries, missed, cache.entries, stale);
      if err.Some? {
        stale := stale + {sku};
      }
      FreshForChangedRow(t, repo.committed, sku, cache.entries, stale);
    }

    /**
     Adds stock once per request id, then fills waiting reservations. The error says how far
     the call got; it succeeds exactly when the request is valid and no call it made failed.
     */
    method Produce(sku: string, pr: ProductionRequest) returns (err: Option<Error>)
      requires Valid()
      modifies env, repo, cache, this`stale
      ensures Valid() && Evolves(old(repo.committed), repo.committed)
      ensures err == Some(InvalidInput) <==> pr.requestId == "" || pr.quantity < 1
      ensures (|| err in {Some(PublishFailure), Some(FillFailure)}
               || (err.None? && !KnownProduction(old(repo.committed), pr.requestId))) ==>
        var t, t' := old(repo.committed), repo.committed;
        && t'.productions == t.productions + [ProductionEvent(pr.requestId, sku, pr.quantity, env.clock)]
        && OnShelf(t', sku) + Held(t'.reservations, sku) == OnShelf(t, sku) + Held(t.reservations, sku) + pr.quantity
      ensures err.None? && KnownProduction(old(repo.committed), pr.requestId) ==> repo.committed == old(repo.committed)
      ensures err !in {None, Some(PublishFailure), Some(FillFailure)} ==> repo.committed == old(repo.committed)
      ensures ProduceOutcome(old(repo.committed), EventOf(sku, pr, env.clock), err, repo.committed)
      ensures env.faults >= old(env.faults)
      ensures err.None? <==>
        && ValidProduction(pr) && env.faults == old(env.faults)
        && (KnownProduction(old(repo.committed), pr.requestId) || sku in old(repo.committed.available))
      ensures stale <= old(stale) + {sku}
      ensures env.cacheFaults == old(env.cacheFaults) && err != Some(PublishFailure) ==> stale <= old(stale)
    {
      hide Inv, Evolves, FillTables, Fresh, Held, CatalogOk;
      Unchanged(repo.committed);
      if pr.requestId == "" || pr.quantity < 1 { return Some(InvalidInput); }
      var existing;
      existing, err := repo.GetProductionEventByRequestID(pr.requestId);
      if err.Some? && err != Some(NotFound) { return; }
      if err.None? { return; }

      var now := env.Now();
      var event := EventOf(sku, pr, now);
      ghost var t := repo.committed;
      err := RecordProduction(event);
      if err.Some? { return; }
      ProduceAndFill(t, event);
      err := PublishProduced(sku, t);
      if err.Some? {
        err := Some(PublishFailure);
        ProduceMeans(t, event, err, repo.committed);
        return;
      }
      err := FillReserves(sku);
      if err.Some? { err := Some(FillFailure); }
      ProduceMeans(t, event, err, repo.committed);
    }

    /** The first transaction of Reserve: find the request's row, or insert it. */
    method RecordReservation(rr: ReservationRequest) returns (row: Reservation, existed: bool, err: Option<Error>)
      requires repo.env == env && !repo.open && Inv(repo.committed)
      requires repo.IdsBelowNext(repo.committed) && CreatedByNow(repo.committed)
      requires ValidReservation(rr)
      modifies env`faults, env`clock, repo
      ensures !repo.open && env.faults >= old(env.faults) && env.clock >= old(env.clock)
      ensures env.cacheFaults == old(env.cacheFaults) && repo.nextId >= old(repo.nextId)
      ensures err.Some? ==> !FailedLate(err) && err != Some(InvalidInput)
      ensures err.None? <==> rr.sku in old(repo.committed.products) && env.faults == old(env.faults)
      ensures err.None? ==> (existed <==> KnownReservation(old(repo.committed), rr.requestId))
      ensures err.None? && existed ==>
        Some(row) == FindReservation(old(repo.committed).reservations, rr.requestId)
      ensures err.None? && !existed ==> (
        && row == NewReservation(old(repo.nextId), rr, env.clock) && repo.nextId > row.id
        && Allowed(old(repo.committed), ReserveTx(row)))
      ensures repo.committed == if err.None? && !existed
        then Commit(old(repo.committed), ReserveTx(row)) else old(repo.committed)
    {
      row, existed := NewReservation(0, rr, 0), false;
      err := repo.BeginTransaction();
      if err.Some? { return; }
      var product;
      product, err := repo.GetProduct(rr.sku, true);
      if err.Some? { repo.Rollback(); return; }
      var existing;
      existing, err := repo.GetReservationByRequestID(rr.requestId, true);
      if err.Some? && err != Some(NotFound) { repo.Rollback(); return; }
      if existing.Some? { repo.Rollback(); return existing.value, true, None; }

      var now := env.Now();
      row, err := repo.SaveReservation(rr, now);
      if err.Some? { repo.Rollback(); return; }
      err := repo.Commit();
      if err.Some? { repo.Rollback(); return; }
    }

    /** Queues demand once per request id, then fills waiting reservations. */
    method Reserve(rr: ReservationRequest) returns (res: Option<Reservation>, err: Option<Error>)
      requires Valid()
      modifies env, repo, cache, this`stale
      ensures Valid() && Evolves(old(repo.committed), repo.committed)
      ensures ReserveOutcome(old(repo.committed), NewReservation(old(repo.nextId), rr, env.clock), err, repo.committed)
      ensures env.faults >= old(env.faults)
      ensures err == Some(InvalidInput) <==> rr.requestId == "" || rr.requester == "" || rr.sku == "" || rr.quantity < 1
      ensures (err.None? && !KnownReservation(old(repo.committed), rr.requestId)) || err == Some(FillFailure) ==>
        var t, t' := old(repo.committed), repo.committed;
        && |t'.reservations| == |t.reservations| + 1
        && var row := t'.reservations[|t.reservations|];
           && row.requestId == rr.requestId && row.requester == rr.requester && row.sku == rr.sku
           && row.requested == rr.quantity && row.created == env.clock && row.id == old(repo.nextId)
      ensures res.Some? && !KnownReservation(old(repo.committed), rr.requestId) ==>
        && res.value.requestId == rr.requestId && res.value.requester == rr.requester && res.value.sku == rr.sku
        && res.value.requested == rr.quantity && res.value.reserved == 0 && res.value.state == Open
        && res.value.id == old(repo.nextId)
      ensures res.Some? && KnownReservation(old(repo.committed), rr.requestId) ==>
        && res.value in old(repo.committed.reservations) && res.value.requestId == rr.requestId
        && repo.committed == old(repo.committed)
      ensures err.Some? && err != Some(FillFailure) ==> repo.committed == old(repo.committed)
      ensures err.None? <==>
        && ValidReservation(rr) && env.faults == old(env.faults)
        && rr.sku in old(repo.committed.products)
      ensures res.Some? <==> err.None?
      ensures res.Some? ==> res == ReservationFor(old(repo.committed), rr, old(repo.nextId), env.clock)
      ensures stale <= old(stale) + {rr.sku}
      ensures env.cacheFaults == old(env.cacheFaults) ==> stale <= old(stale)
    {
      hide Inv, Evolves, FillTables;
      Unchanged(repo.committed);
      if rr.requestId == "" || rr.requester == "" || rr.sku == "" || rr.quantity < 1 {
        return None, Some(InvalidInput);
      }
      ghost var t := repo.committed;
      var row, existed;
      row, existed, err := RecordReservation(rr);
      if err.Some? { return None, err; }
      if existed { return Some(row), None; }
      ReserveAndFill(t, row);
      err := FillReserves(rr.sku);
      if err.Some? {
        err := Some(FillFailure);
        ReserveMeans(t, row, err, repo.committed);
        return None, err;
      }
      ReserveMeans(t, row, err, repo.committed);
      return Some(row), None;
    }

    /** The lookup behind the Kafka handler and the HTTP API. */
    method GetProduct(sku: string) returns (product: Option<Product>, err: Option<Error>)
      requires repo.env == env
      modifies env`faults
      ensures env.Answered(err != Some(Failure))
      ensures err == Some(Failure) || err == if sku in repo.committed.products then None else Some(NotFound)
      ensures product == if err.None? then Some(repo.committed.products[sku]) else None
    {
      product, err := repo.GetProduct(sku, false);
    }

    /**
     Read-through cache. What it returns was the committed row at some moment within the
     last cacheTTL, and is the row committed now unless an invalidation was missed.
     */
    method GetProductInventory(sku: string) returns (pi: Option<ProductInventory>, err: Option<Error>)
      requires Valid()
      modifies env, cache, this`history
      ensures Valid() && HistoryGrows()
      ensures env.faults >= old(env.faults)
      ensures pi.Some? <==> err.None?
      ensures err.None? ==>
        || pi == RowOf(repo.committed, sku)
        || exists t :: env.clock - cacheTTL <= t <= env.clock && t in history && pi == RowOf(history[t], sku)
      ensures err.None? && sku !in stale ==> pi == RowOf(repo.committed, sku)
      ensures err.None? ==> sku in repo.committed.products && pi.value.product == repo.committed.products[sku]
      ensures err.None? && sku !in stale ==>
        sku in repo.committed.available && pi.value.available == repo.committed.available[sku]
      ensures err == Some(NotFound) ==> sku !in repo.committed.products
      ensures err == Some(Failure) ==> env.faults > old(env.faults)
    {
      hide Inv;
      HasRow(repo.committed, sku);
      if caching {
        pi := ReadCache(sku);
        if pi.Some? { return pi, None; }
      }
      pi, err := repo.GetProductInventory(sku, false);
      if err.Some? { return None, err; }
      if caching {
        var unreachable := env.FlakyCache();
        if !unreachable {
          var now := env.Now();
          RememberRow(sku, pi.value, now);
        }
      }
    }

    /** A cache error reads as a miss. */
    method ReadCache(sku: string) returns (hit: Option<ProductInventory>)
      requires Valid()
      modifies env, cache
      ensures Valid()
      ensures env.faults == old(env.faults) && env.clock >= old(env.clock)
      ensures hit.Some? ==>
        exists t :: env.clock - cacheTTL <= t <= env.clock && t in history && hit == RowOf(history[t], sku)
      ensures hit.Some? && sku !in stale ==> hit == RowOf(repo.committed, sku)
      ensures hit.Some? ==> sku in repo.committed.products && hit.value.product == repo.committed.products[sku]
    {
      hide Inv;
      var key := ProductCacheKey(sku);
      var flapping := env.FlakyCache();
      if flapping { return None; }
      var now := env.Now();
      hit := cache.Get(key, now);
      if hit.Some? {
        assert StoredAt(sku, cache.entries[key]);
      }
    }

    method RememberRow(sku: string, row: ProductInventory, now: int)
      requires Valid() && caching && now == env.clock && now !in history
      requires RowOf(repo.committed, sku) == Some(row)
      modifies cache, this`history
      ensures Valid()
      ensures history == old(history)[now := repo.committed]
    {
      ghost var entries := cache.entries;
      cache.Set(ProductCacheKey(sku), row, cacheTTL, now);
      history := history[now := repo.committed];
      forall s | ProductCacheKey(s) in cache.entries
        ensures StoredAt(s, cache.entries[ProductCacheKey(s)])
        ensures s in repo.committed.products
          && cache.entries[ProductCacheKey(s)].value.product == repo.committed.products[s]
        ensures s !in stale ==> RowOf(repo.committed, s) == Some(cache.entries[ProductCacheKey(s)].value)
      {
        if ProductCacheKey(s) == ProductCacheKey(sku) {
          ProductCacheKeyInjective(s, sku);
        } else {
          assert old(StoredAt(s, entries[ProductCacheKey(s)]));
        }
      }
    }
  }

  lemma FillNone(t: Tables, sku: string)
    requires sku in t.available
    ensures FillTables(t, sku, 0) == t
  {
    FillIdle(t.available[sku], t.reservations, sku, 0);
    assert t.available[sku := t.available[sku]] == t.available;
  }

  /** What the loop needs to know about its next reservation. */
  lemma FillNext(t: Tables, sku: string, i: nat)
    requires Inv(t) && sku in t.available && i < OpenCount(t.reservations, sku)
    requires FillTables(t, sku, i).available[sku] != 0
    ensures var u, p := FillTables(t, sku, i), Position(t.reservations, sku, i);
      && DistinctIds(u.reservations) && sku in u.products
      && p < |u.reservations| && u.reservations[p] == Queue(t.reservations, sku)[i]
      && var g := GrantAt(Filled(u.available[sku], u.reservations), p);
         FillTables(t, sku, i + 1) == u.(available := u.available[sku := g.available], reservations := g.rows)
  {
    FillStaysAddressable(t, sku, i);
    hide DistinctIds, Fill, Queue;
    FillOneMore(t.available[sku], t.reservations, sku, i);
  }

  lemma FillStaysAddressable(t: Tables, sku: string, i: nat)
    requires Inv(t) && sku in t.available
    ensures DistinctIds(FillTables(t, sku, i).reservations) && sku in FillTables(t, sku, i).products
  {
    FillKeepsQueue(t, sku, i);
  }

  lemma FillTouchesOneRow(t: Tables, sku: string, i: nat)
    requires sku in t.available
    ensures sku in FillTables(t, sku, i).available && FillTables(t, sku, i).products == t.products
    ensures forall s :: s != sku ==> RowOf(t, s) == RowOf(FillTables(t, sku, i), s)
  {
  }

  lemma FillStops(t: Tables, sku: string, i: nat, n: nat)
    requires Inv(t) && sku in t.available
    requires n == Min(BATCH, OpenCount(t.reservations, sku)) && i <= n
    requires i < n ==> FillTables(t, sku, i).available[sku] == 0
    ensures FillTables(t, sku, i) == FillTables(t, sku, BATCH)
  {
    if i < n {
      FillStopsWhenEmpty(t.available[sku], t.reservations, sku, i, BATCH);
    } else if n < BATCH {
      FillSaturates(t.available[sku], t.reservations, sku, n, BATCH);
    }
  }
}
