/**
 Commands from Kafka: bounded retries around a dedupe row around Produce.
 */
module CommandHandling {
  import opened Common
  import Allocation
  import opened InventoryTables
  import opened Persistence
  import opened InventoryService

  datatype Payload =
    | RecordProduction(sku: string, requestId: string, quantity: int)
    | OtherEvent

  datatype Envelope = Envelope(eventId: string, payload: Payload)

  /** A Kafka record; `parsed` is None when its value is not an envelope at all. */
  datatype Record = Record(parsed: Option<Envelope>)

  datatype Disposition = Handled | DeadLettered | Cancelled

  /** The schemas: every identifier is present and a production is positive. */
  predicate SchemaOk(e: Envelope) {
    && e.eventId != ""
    && (e.payload.RecordProduction? ==>
          e.payload.sku != "" && e.payload.requestId != "" && e.payload.quantity >= 1)
  }

  function Validate(r: Record): Option<Envelope> {
    if r.parsed.Some? && SchemaOk(r.parsed.value) then r.parsed else None
  }

  /** The production this command asks for is committed. */
  predicate Produced(t: Tables, e: Envelope) {
    e.payload.RecordProduction? && KnownProduction(t, e.payload.requestId)
  }

  /** A command the inventory can carry out: a production of a known SKU. */
  predicate Doable(t: Tables, e: Envelope) {
    e.payload.RecordProduction? && e.payload.sku in t.products
  }

  lemma DoableForGood(t: Tables, t': Tables, e: Envelope)
    requires Evolves(t, t') && Doable(t, e)
    ensures Doable(t', e)
  {
  }

  /** The envelope asked for this production. */
  predicate Asked(e: Envelope, p: ProductionEvent) {
    && e.payload.RecordProduction?
    && p.requestId == e.payload.requestId && p.sku == e.payload.sku && p.quantity == e.payload.quantity
  }

  /** From `t` to `t'` nothing was produced, or exactly what the envelope asked for, under a new request id. */
  predicate Adds(t: Tables, t': Tables, e: Envelope) {
    || t'.productions == t.productions
    || (&& |t'.productions| == |t.productions| + 1 && t'.productions[..|t.productions|] == t.productions
        && Asked(e, t'.productions[|t.productions|])
        && !KnownProduction(t, e.payload.requestId))
  }

  lemma AddsNothing(t: Tables, e: Envelope)
    ensures Adds(t, t, e)
  {
  }

  lemma AddsOnce(t: Tables, u: Tables, v: Tables, e: Envelope)
    requires Adds(t, u, e) && Adds(u, v, e)
    ensures Adds(t, v, e)
  {
    if u.productions != t.productions {
      assert u.productions[|t.productions|].requestId == e.payload.requestId;
      assert v.productions == u.productions;
    }
  }

  /** Everything produced between `t` and `t'` was asked for by a record. */
  predicate AllAsked(t: Tables, t': Tables, records: seq<Record>) {
    forall k :: |t.productions| <= k < |t'.productions| ==> AskedBySome(records, t'.productions[k])
  }

  predicate AskedBySome(records: seq<Record>, p: ProductionEvent) {
    exists i :: 0 <= i < |records| && records[i].parsed.Some? && Asked(records[i].parsed.value, p)
  }

  lemma AskedLater(records: seq<Record>, rec: Record, p: ProductionEvent)
    ensures AskedBySome(records, p) ==> AskedBySome(records + [rec], p)
    ensures rec.parsed.Some? && Asked(rec.parsed.value, p) ==> AskedBySome(records + [rec], p)
  {
    assert (records + [rec])[|records|] == rec;
    if AskedBySome(records, p) {
      var i :| 0 <= i < |records| && records[i].parsed.Some? && Asked(records[i].parsed.value, p);
      assert (records + [rec])[i] == records[i];
    }
  }

  lemma AllAskedOneMore(t: Tables, u: Tables, v: Tables, records: seq<Record>, rec: Record)
    requires Evolves(t, u) && Evolves(u, v) && AllAsked(t, u, records)
    requires v.productions == u.productions || (rec.parsed.Some? && Adds(u, v, rec.parsed.value))
    ensures AllAsked(t, v, records + [rec])
  {
    forall k | |t.productions| <= k < |v.productions| ensures AskedBySome(records + [rec], v.productions[k]) {
      AskedLater(records, rec, v.productions[k]);
      if k < |u.productions| { assert v.productions[k] == u.productions[k]; }
    }
  }

  /** The valid envelopes among the records, in order. */
  function ValidOnes(records: seq<Record>): seq<Envelope> {
    if records == [] then []
    else ValidOnes(records[..|records| - 1])
         + (if Validate(records[|records| - 1]).Some? then [Validate(records[|records| - 1]).value] else [])
  }

  lemma OneMoreRecord(records: seq<Record>, i: nat)
    requires i < |records|
    ensures ValidOnes(records[..i + 1]) == ValidOnes(records[..i]) + ValidOnes([records[i]])
  {
    assert records[..i + 1][..i] == records[..i] && [records[i]][..0] == [];
  }

  lemma NothingAsked(t: Tables)
    ensures AllAsked(t, t, [])
  {
  }

  lemma NoRecords(records: seq<Record>)
    ensures ValidOnes(records[..0]) == []
  {
  }

  /** The service stays valid while only time passes or calls fail around it. */
  twostate lemma ValidLater(service: Service)
    requires old(service.Valid()) && unchanged(service) && unchanged(service.repo) && unchanged(service.cache)
    requires old(service.env.clock) <= service.env.clock
    ensures service.Valid()
  {
  }

  lemma ServiceTables(service: Service)
    requires service.Valid()
    ensures Inv(service.repo.committed) && Evolves(service.repo.committed, service.repo.committed)
  {
  }

  /** `n` calls of the handler with the same envelope. */
  function Times(e: Envelope, n: nat): (r: seq<Envelope>)
    ensures |r| == n
  {
    seq(n, _ => e)
  }

  lemma OnceMore(e: Envelope, n: nat)
    ensures Times(e, 0) == []
    ensures Times(e, n) + [e] == Times(e, n + 1)
  {
  }

  /** Some delivery in `log` carried this event id and its production is committed. */
  predicate EventDone(log: seq<Envelope>, eventId: string, t: Tables) {
    exists i :: 0 <= i < |log| && log[i].eventId == eventId && Produced(t, log[i])
  }

  /** Handled means done, unless a failed DELETE left the event's dedupe row stuck. */
  predicate Acknowledged(rec: Record, outcome: Disposition, stuck: set<string>, log: seq<Envelope>, t: Tables) {
    outcome.Handled? ==>
      && Validate(rec).Some?
      && (Validate(rec).value.eventId in stuck || EventDone(log, Validate(rec).value.eventId, t))
  }

  lemma KnownForGood(t: Tables, t': Tables, requestId: string)
    requires Evolves(t, t') && KnownProduction(t, requestId)
    ensures KnownProduction(t', requestId)
  {
    var i :| 0 <= i < |t.productions| && t.productions[i].requestId == requestId;
    assert t'.productions[i] == t.productions[i];
  }

  lemma DoneForGood(log: seq<Envelope>, more: seq<Envelope>, eventId: string, t: Tables, t': Tables)
    requires Evolves(t, t') && EventDone(log, eventId, t)
    ensures EventDone(log + more, eventId, t')
  {
    var i :| 0 <= i < |log| && log[i].eventId == eventId && Produced(t, log[i]);
    assert (log + more)[i] == log[i];
    KnownForGood(t, t', log[i].payload.requestId);
  }

  /** 2^0 + ... + 2^(n-1) retry intervals. */
  function Backoffs(base: int, n: nat): int {
    base * (Pow2(n) - 1)
  }

  /** The wait after attempt `n`. */
  function Backoff(base: int, n: nat): int {
    base * Pow2(n)
  }

  /** The first wait is `base`, each one doubles the one before, and `n` of them add up. */
  lemma NextBackoff(base: int, n: nat)
    ensures Backoff(base, 0) == base && Backoff(base, n + 1) == 2 * Backoff(base, n)
    ensures Backoffs(base, 0) == 0 && Backoffs(base, n) + Backoff(base, n) == Backoffs(base, n + 1)
  {
    assert base * (Pow2(n) - 1) + base * Pow2(n) == base * (2 * Pow2(n) - 1);
    assert base * (2 * Pow2(n)) == 2 * (base * Pow2(n));
  }

  /** The processed_events table as one consumer group uses it. */
  class Applier {
    const env: Environment
    const group: string
    var rows: map<(string, string), int>  // (event id, group) to processed_at
    ghost var stuck: set<string>          // events of this group whose DELETE failed

    constructor (env: Environment, group: string)
      requires group != ""
      ensures this.env == env && this.group == group && rows == map[] && stuck == {}
    {
      this.env, this.group := env, group;
      rows, stuck := map[], {};
    }

    /** INSERT ... ON CONFLICT DO NOTHING: `claimed` is one affected row. */
    method Claim(eventId: string) returns (claimed: bool, err: Option<Error>)
      modifies this`rows, env`faults, env`clock
      ensures env.faults >= old(env.faults) && env.clock >= old(env.clock) && env.cacheFaults == old(env.cacheFaults)
      ensures err.None? <==> env.faults == old(env.faults)
      ensures err.Some? ==> rows == old(rows)
      ensures err.None? ==> (claimed <==> (eventId, group) !in old(rows))
      ensures err.None? ==> rows == if claimed then old(rows)[(eventId, group) := env.clock] else old(rows)
    {
      var failed := env.Flaky();
      if failed { return false, Some(Failure); }
      if (eventId, group) in rows { return false, None; }
      var now := env.Now();
      rows := rows[(eventId, group) := now];
      return true, None;
    }

    /** DELETE of the dedupe row; best effort. */
    method Release(eventId: string)
      modifies this, env`faults
      ensures env.faults >= old(env.faults) && env.clock == old(env.clock) && env.cacheFaults == old(env.cacheFaults)
      ensures || (rows == old(rows) - {(eventId, group)} && stuck == old(stuck) && env.faults == old(env.faults))
              || (rows == old(rows) && stuck == old(stuck) + {eventId} && env.faults > old(env.faults))
    {
      var failed := env.Flaky();
      if failed {
        stuck := stuck + {eventId};
      } else {
        rows := rows - {(eventId, group)};
      }
    }

    /** Prunes the rows older than the window, of every group. */
    method CleanupOnce(window: int) returns (pruned: nat, err: Option<Error>)
      modifies this`rows, env`faults, env`clock
      ensures err.Some? ==> rows == old(rows) && pruned == 0
      ensures err.None? ==>
        rows == (map k | k in old(rows) && old(rows)[k] >= env.clock - window :: old(rows)[k])
      ensures pruned + |rows| == |old(rows)|
    {
      var now := env.Now();
      var failed := env.Flaky();
      if failed { return 0, Some(Failure); }
      var kept := map k | k in rows && rows[k] >= now - window :: rows[k];
      assert kept.Keys <= rows.Keys;
      SubsetCount(kept.Keys, rows.Keys);
      pruned, rows, err := |rows| - |kept|, kept, None;
    }
  }

  class Consumer {
    const service: Service
    const applier: Applier
    const maxRetries: nat
    const retryBase: int
    ghost var delivered: seq<Envelope>  // every valid delivery so far, oldest first
    ghost var runs: seq<Envelope>       // every call of the handler so far, oldest first

    constructor (service: Service, applier: Applier, maxRetries: int, retryBase: int)
      requires service.Valid() && applier.env == service.env && applier.rows == map[] && applier.stuck == {}
      ensures Valid() && this.service == service && this.applier == applier
      ensures this.maxRetries == if maxRetries <= 0 then 3 else maxRetries
      ensures this.retryBase == if retryBase <= 0 then 200_000_000 else retryBase
    {
      this.service, this.applier := service, applier;
      this.maxRetries := if maxRetries <= 0 then 3 else maxRetries;
      this.retryBase := if retryBase <= 0 then 200_000_000 else retryBase;
      delivered, runs := [], [];
    }

    ghost predicate Valid()
      reads this, applier, service, service.env, service.repo, service.cache
    {
      && service.Valid() && applier.env == service.env && retryBase > 0
      && RowsJustified()
    }

    /** A dedupe row stands only for an event that is done, or whose DELETE failed. */
    ghost predicate RowsJustified()
      reads this, applier, service, service.repo
    {
      forall e :: (e, applier.group) in applier.rows && e !in applier.stuck ==>
        EventDone(delivered, e, service.repo.committed)
    }

    /** The inventory command handler. */
    method HandleCommand(e: Envelope) returns (ok: bool)
      requires service.Valid() && SchemaOk(e)
      modifies this`runs, service.env, service.repo, service.cache, service`stale
      ensures service.Valid() && Evolves(old(service.repo.committed), service.repo.committed)
      ensures service.env.faults >= old(service.env.faults)
      ensures runs == old(runs) + [e]
      ensures !Doable(old(service.repo.committed), e) ==> service.repo.committed == old(service.repo.committed)
      ensures ok ==> Produced(service.repo.committed, e)
      ensures ok <==> Doable(old(service.repo.committed), e) && service.env.faults == old(service.env.faults)
      ensures Adds(old(service.repo.committed), service.repo.committed, e)
      ensures ok && !KnownProduction(old(service.repo.committed), e.payload.requestId) ==>
        var t, t', p := old(service.repo.committed), service.repo.committed, e.payload;
        && |t'.productions| == |t.productions| + 1
        && t'.productions[|t.productions|].requestId == p.requestId
        && t'.productions[|t.productions|].sku == p.sku
        && t'.productions[|t.productions|].quantity == p.quantity
        && OnShelf(t', p.sku) + Allocation.Held(t'.reservations, p.sku)
           == OnShelf(t, p.sku) + Allocation.Held(t.reservations, p.sku) + p.quantity
    {
      hide Inv, Evolves, FillTables, Allocation.Held;
      runs := runs + [e];
      ServiceTables(service);
      match e.payload {
        case OtherEvent => return false;
        case RecordProduction(sku, requestId, quantity) =>
          var product, lookupErr := service.GetProduct(sku);
          if lookupErr.Some? { return false; }
          ghost var t := service.repo.committed;
          CatalogNames(t, sku);
          var err := service.Produce(product.value.sku, ProductionRequest(requestId, quantity));
          ok := err.None?;
          if ok { ProducedIsKnown(t, service.repo.committed, requestId); }
      }
    }

    /** The dedupe row of the event is in the table. */
    predicate Claimed(e: Envelope)
      reads this, applier
    {
      (e.eventId, applier.group) in applier.rows
    }

    /**
     Runs the handler once if the event has no dedupe row; on an error the row is taken back.
     It succeeds exactly when nothing failed and the row was there or the command is doable.
     */
    method Apply(e: Envelope) returns (ok: bool)
      requires Valid() && SchemaOk(e) && e in delivered
      modifies this`runs, service.env, service.repo, service.cache, service`stale, applier
      ensures Valid() && Evolves(old(service.repo.committed), service.repo.committed)
      ensures service.env.faults >= old(service.env.faults)
      ensures ok <==>
        && service.env.faults == old(service.env.faults)
        && (old(Claimed(e)) || Doable(old(service.repo.committed), e))
      ensures !Doable(old(service.repo.committed), e) ==> service.repo.committed == old(service.repo.committed)
      ensures Adds(old(service.repo.committed), service.repo.committed, e)
      ensures runs == old(runs) || (runs == old(runs) + [e] && !old(Claimed(e)))
      ensures runs == old(runs) ==>
        && service.repo.committed == old(service.repo.committed) && applier.rows == old(applier.rows)
        && (old(Claimed(e)) || service.env.faults > old(service.env.faults))
      ensures old(applier.stuck) <= applier.stuck <= old(applier.stuck) + {e.eventId}
      ensures service.env.faults == old(service.env.faults) ==> applier.stuck == old(applier.stuck)
      ensures forall k :: k != (e.eventId, applier.group) ==>
        (k in applier.rows <==> k in old(applier.rows))
      ensures ok ==> Claimed(e)
      ensures ok ==> e.eventId in applier.stuck || EventDone(delivered, e.eventId, service.repo.committed)
      ensures !ok && e.eventId !in applier.stuck ==> !Claimed(e) || applier.rows == old(applier.rows)
      ensures !ok && service.env.faults == old(service.env.faults) ==> !Claimed(e)
    {
      hide Service.Valid, Inv, Evolves, Doable, Adds;
      ServiceTables(service);
      AddsNothing(service.repo.committed, e);
      var claimed, err := applier.Claim(e.eventId);
      ValidLater(service);
      if err.Some? { return false; }
      if !claimed { return true; }
      ghost var t := service.repo.committed;
      ok := HandleCommand(e);
      KeepJustified(t, e.eventId);
      if !ok {
        label Failed:
        applier.Release(e.eventId);
        ValidLater@Failed(service);
        return false;
      }
      ghost var i :| 0 <= i < |delivered| && delivered[i] == e;
      assert EventDone(delivered, e.eventId, service.repo.committed);
    }

    lemma KeepJustified(t: Tables, eventId: string)
      requires Evolves(t, service.repo.committed)
      requires forall e :: (e, applier.group) in applier.rows && e !in applier.stuck && e != eventId ==>
        EventDone(delivered, e, t)
      ensures forall e :: (e, applier.group) in applier.rows && e !in applier.stuck && e != eventId ==>
        EventDone(delivered, e, service.repo.committed)
    {
      forall e | (e, applier.group) in applier.rows && e !in applier.stuck && e != eventId
        ensures EventDone(delivered, e, service.repo.committed)
      {
        DoneForGood(delivered, [], e, t, service.repo.committed);
        assert delivered + [] == delivered;
      }
    }

    /** Remembering a delivery does not unsettle the rows. */
    ghost method Deliver(e: Envelope)
      requires Valid()
      modifies this`delivered
      ensures Valid() && delivered == old(delivered) + [e]
    {
      var log, t := delivered, service.repo.committed;
      Unchanged(t);
      delivered := delivered + [e];
      forall k | (k, applier.group) in applier.rows && k !in applier.stuck
        ensures EventDone(delivered, k, t)
      {
        DoneForGood(log, [e], k, t, t);
      }
    }

    /**
     Every delivery is handled, dead-lettered or cancelled. Handled means that this or an
     earlier delivery of the event id has committed its production, unless the DELETE of a
     dedupe row failed on the way. The handler runs at most once per attempt. When nothing
     fails, the first attempt decides; a doable command is given up only after a failure in
     every attempt, and one that is not doable never changes the tables.
     */
    method Dispatch(rec: Record) returns (outcome: Disposition, attempts: nat, waited: int)
      requires Valid()
      modifies this`delivered, this`runs, service.env, service.repo, service.cache, service`stale, applier
      ensures Valid() && Evolves(old(service.repo.committed), service.repo.committed)
      ensures delivered == old(delivered) + ValidOnes([rec])
      ensures attempts == 0 <==>
        || rec.parsed.None? || rec.parsed.value.eventId == ""
        || (rec.parsed.value.payload.RecordProduction? &&
            (rec.parsed.value.payload.sku == "" || rec.parsed.value.payload.requestId == ""
             || rec.parsed.value.payload.quantity < 1))
      ensures attempts == 0 ==> outcome == DeadLettered
      ensures service.repo.committed == old(service.repo.committed)
        || (rec.parsed.Some? && Adds(old(service.repo.committed), service.repo.committed, rec.parsed.value))
      ensures Validate(rec).None? ==>
        && outcome == DeadLettered && attempts == 0 && runs == old(runs)
        && service.repo.committed == old(service.repo.committed) && service.env.faults == old(service.env.faults)
      ensures Validate(rec).Some? ==> 1 <= attempts <= maxRetries + 1
      ensures Validate(rec).Some? && outcome.DeadLettered? ==> attempts == maxRetries + 1
      ensures outcome.Cancelled? ==> attempts <= maxRetries
      ensures waited == if attempts == 0 then 0 else Backoffs(retryBase, attempts - 1)
      ensures Acknowledged(rec, outcome, applier.stuck, delivered, service.repo.committed)
      ensures outcome == Handled && rec.parsed.value.eventId !in applier.stuck ==>
        exists i, k ::
          && 0 <= i < |delivered| && delivered[i].eventId == rec.parsed.value.eventId
          && delivered[i].payload.RecordProduction?
          && 0 <= k < |service.repo.committed.productions|
          && service.repo.committed.productions[k].requestId == delivered[i].payload.requestId
      ensures service.env.faults >= old(service.env.faults)
      ensures old(applier.stuck) <= applier.stuck
      ensures Validate(rec).Some? ==>
        exists n: nat :: n <= attempts && runs == old(runs) + Times(Validate(rec).value, n)
      ensures Validate(rec).Some? && !Doable(old(service.repo.committed), Validate(rec).value) ==>
        service.repo.committed == old(service.repo.committed)
      ensures Validate(rec).Some? && outcome.Handled? && runs == old(runs) ==>
        old(Claimed(Validate(rec).value)) || service.env.faults > old(service.env.faults)
      ensures Settled(rec, outcome, old(service.repo.committed), service.env.faults == old(service.env.faults))
      ensures |runs| <= |old(runs)| + maxRetries + 1
      ensures Validate(rec).Some? && !outcome.Handled? && Doable(old(service.repo.committed), Validate(rec).value) ==>
        service.env.faults >= old(service.env.faults) + attempts
      ensures Validate(rec).Some? && service.env.faults == old(service.env.faults) ==>
        var e := Validate(rec).value;
        && (outcome.Handled? <==> old(Claimed(e)) || Doable(old(service.repo.committed), e))
        && (outcome.Handled? ==> attempts == 1)
        && runs == old(runs) + Times(e, if old(Claimed(e)) then 0 else attempts)
    {
      Unchanged(service.repo.committed);
      assert [rec][..0] == [];
      var valid := Validate(rec);
      if valid.None? { return DeadLettered, 0, 0; }
      Deliver(valid.value);
      ghost var n;
      outcome, attempts, waited, n := Retry(valid.value);
    }

    /** The attempts of one valid delivery. */
    method Retry(e: Envelope) returns (outcome: Disposition, attempts: nat, waited: int, ghost n: nat)
      requires Valid() && SchemaOk(e) && e in delivered
      modifies this`runs, service.env, service.repo, service.cache, service`stale, applier
      ensures Valid() && Evolves(old(service.repo.committed), service.repo.committed)
      ensures 1 <= attempts <= maxRetries + 1
      ensures outcome.DeadLettered? ==> attempts == maxRetries + 1
      ensures outcome.Cancelled? ==> attempts <= maxRetries
      ensures waited == Backoffs(retryBase, attempts - 1)
      ensures outcome.Handled? ==>
        e.eventId in applier.stuck || EventDone(delivered, e.eventId, service.repo.committed)
      ensures service.env.faults >= old(service.env.faults) && old(applier.stuck) <= applier.stuck
      ensures n <= attempts && runs == old(runs) + Times(e, n)
      ensures !Doable(old(service.repo.committed), e) ==> service.repo.committed == old(service.repo.committed)
      ensures Adds(old(service.repo.committed), service.repo.committed, e)
      ensures outcome.Handled? && runs == old(runs) ==>
        old(Claimed(e)) || service.env.faults > old(service.env.faults)
      ensures !outcome.Handled? && Doable(old(service.repo.committed), e) ==>
        service.env.faults >= old(service.env.faults) + attempts
      ensures service.env.faults == old(service.env.faults) ==>
        && (outcome.Handled? <==> old(Claimed(e)) || Doable(old(service.repo.committed), e))
        && (outcome.Handled? ==> attempts == 1)
        && n == (if old(Claimed(e)) then 0 else attempts)
    {
      hide Evolves, Doable, Times, Backoffs, Backoff, EventDone, Inv, RowsJustified, CatalogOk, Adds, Service.Valid;
      n := 0;
      ghost var t0 := service.repo.committed;
      OnceMore(e, 0);
      NextBackoff(retryBase, 0);
      ServiceTables(service);
      AddsNothing(t0, e);
      waited := 0;
      var attempt := 0;
      while attempt <= maxRetries
        invariant attempt <= maxRetries && n <= attempt
        invariant Valid() && Evolves(t0, service.repo.committed)
        invariant waited == Backoffs(retryBase, attempt)
        invariant service.env.faults >= old(service.env.faults) && old(applier.stuck) <= applier.stuck
        invariant runs == old(runs) + Times(e, n)
        invariant Doable(t0, e) ==> service.env.faults >= old(service.env.faults) + attempt
        invariant !Doable(t0, e) ==> service.repo.committed == t0
        invariant Adds(t0, service.repo.committed, e)
        invariant service.env.faults == old(service.env.faults) ==>
          n == attempt && (Claimed(e) <==> old(Claimed(e))) && (attempt > 0 ==> !old(Claimed(e)) && !Doable(t0, e))
        decreases maxRetries - attempt
      {
        ghost var t, before := service.repo.committed, runs;
        var ok := Apply(e);
        EvolvesTransitive(t0, t, service.repo.committed);
        AddsOnce(t0, t, service.repo.committed, e);
        if Doable(t0, e) { DoableForGood(t0, t, e); }
        if runs != before {
          Regroup(old(runs), Times(e, n), [e]);
          OnceMore(e, n);
          n := n + 1;
        }
        if ok { return Handled, attempt + 1, waited, n; }
        if attempt == maxRetries { return DeadLettered, attempt + 1, waited, n; }
        var backoff := Backoff(retryBase, attempt);
        var done := *;
        if done { return Cancelled, attempt + 1, waited, n; }
        NextBackoff(retryBase, attempt);
        waited := waited + backoff;
        attempt := attempt + 1;
      }
      assert false;
    }

    /**
     One poll: dispatch every record fetched, in order. Whatever was redelivered, retried or
     failed, every committed request id has contributed its quantity exactly once at the end,
     and what had contributed before still counts once. When nothing fails, every doable
     command is handled.
     */
    method Poll(records: seq<Record>) returns (outcomes: seq<Disposition>)
      requires Valid()
      modifies this`delivered, this`runs, service.env, service.repo, service.cache, service`stale, applier
      ensures Valid() && Evolves(old(service.repo.committed), service.repo.committed)
      ensures |outcomes| == |records| && delivered == old(delivered) + ValidOnes(records)
      ensures service.env.faults >= old(service.env.faults)
      ensures forall i :: 0 <= i < |records| ==>
        Acknowledged(records[i], outcomes[i], applier.stuck, delivered, service.repo.committed)
      ensures forall i :: 0 <= i < |records| ==>
        Settled(records[i], outcomes[i], old(service.repo.committed), service.env.faults == old(service.env.faults))
      ensures AllAsked(old(service.repo.committed), service.repo.committed, records)
      ensures |runs| <= |old(runs)| + (maxRetries + 1) * |records|
      ensures ContributedOnce(service.repo.committed.productions, service.repo.committed.productions)
      ensures ContributedOnce(old(service.repo.committed.productions), service.repo.committed.productions)
    {
      hide Evolves, ValidOnes, Acknowledged, Settled, RowsJustified, Inv, CatalogOk, ContributedOnce, Adds, AllAsked, Service.Valid;
      outcomes := [];
      ServiceTables(service);
      NoRecords(records);
      NothingAsked(service.repo.committed);
      assert records[..0] == [];
      var i := 0;
      while i < |records|
        invariant 0 <= i == |outcomes| <= |records|
        invariant Valid() && Evolves(old(service.repo.committed), service.repo.committed)
        invariant delivered == old(delivered) + ValidOnes(records[..i])
        invariant service.env.faults >= old(service.env.faults)
        invariant forall j :: 0 <= j < i ==>
          Acknowledged(records[j], outcomes[j], applier.stuck, delivered, service.repo.committed)
        invariant forall j :: 0 <= j < i ==>
          Settled(records[j], outcomes[j], old(service.repo.committed), service.env.faults == old(service.env.faults))
        invariant |runs| <= |old(runs)| + (maxRetries + 1) * i
        invariant AllAsked(old(service.repo.committed), service.repo.committed, records[..i])
      {
        ghost var t, log, stuck := service.repo.committed, delivered, applier.stuck;
        ghost var faults := service.env.faults;
        var outcome, attempts, waited := Dispatch(records[i]);
        EvolvesTransitive(old(service.repo.committed), t, service.repo.committed);
        ghost var more := ValidOnes([records[i]]);
        OneMoreRecord(records, i);
        AllAskedOneMore(old(service.repo.committed), t, service.repo.committed, records[..i], records[i]);
        assert records[..i] + [records[i]] == records[..i + 1];
        Regroup(old(delivered), ValidOnes(records[..i]), more);
        KeepAcknowledged(records[..i], outcomes, stuck, log, t, more);
        KeepSettled(records[..i], outcomes, old(service.repo.committed),
                    service.env.faults == old(service.env.faults), faults == old(service.env.faults));
        SettledLater(records[i], outcome, old(service.repo.committed), t,
                     service.env.faults == old(service.env.faults), service.env.faults == faults);
        assert (maxRetries + 1) * i + (maxRetries + 1) == (maxRetries + 1) * (i + 1);
        outcomes := outcomes + [outcome];
        i := i + 1;
      }
      assert records[..i] == records;
      ServiceTables(service);
      CountedOnce(old(service.repo.committed), service.repo.committed);
    }

    /** What was acknowledged stays justified as more is delivered. */
    lemma KeepAcknowledged(records: seq<Record>, outcomes: seq<Disposition>,
                           stuck: set<string>, log: seq<Envelope>, t: Tables, more: seq<Envelope>)
      requires |outcomes| == |records| && Evolves(t, service.repo.committed)
      requires stuck <= applier.stuck && delivered == log + more
      requires forall j :: 0 <= j < |records| ==> Acknowledged(records[j], outcomes[j], stuck, log, t)
      ensures forall j :: 0 <= j < |records| ==>
        Acknowledged(records[j], outcomes[j], applier.stuck, delivered, service.repo.committed)
    {
      forall j | 0 <= j < |records|
        ensures Acknowledged(records[j], outcomes[j], applier.stuck, delivered, service.repo.committed)
      {
        assert Acknowledged(records[j], outcomes[j], stuck, log, t);
        if outcomes[j].Handled? && Validate(records[j]).value.eventId !in stuck {
          DoneForGood(log, more, Validate(records[j]).value.eventId, t, service.repo.committed);
        }
      }
    }
  }

  /** An invalid record is dead-lettered; without failures a doable command is handled. */
  predicate Settled(rec: Record, outcome: Disposition, t: Tables, faultless: bool) {
    if Validate(rec).None? then outcome.DeadLettered?
    else faultless && Doable(t, Validate(rec).value) ==> outcome.Handled?
  }

  lemma KeepSettled(records: seq<Record>, outcomes: seq<Disposition>, t: Tables, faultless: bool, before: bool)
    requires |outcomes| == |records| && (faultless ==> before)
    requires forall j :: 0 <= j < |records| ==> Settled(records[j], outcomes[j], t, before)
    ensures forall j :: 0 <= j < |records| ==> Settled(records[j], outcomes[j], t, faultless)
  {
  }

  lemma SettledLater(rec: Record, outcome: Disposition, t: Tables, t': Tables, faultless: bool, here: bool)
    requires Evolves(t, t') && Settled(rec, outcome, t', here) && (faultless ==> here)
    ensures Settled(rec, outcome, t, faultless)
  {
    if Validate(rec).Some? && Doable(t, Validate(rec).value) {
      DoableForGood(t, t', Validate(rec).value);
    }
  }

  /** Every production in `some` is counted exactly once in `all`. */
  predicate ContributedOnce(some: seq<ProductionEvent>, all: seq<ProductionEvent>) {
    forall k :: 0 <= k < |some| ==> Contribution(all, some[k].requestId) == some[k].quantity
  }

  lemma CountedOnce(t: Tables, t': Tables)
    requires Inv(t') && Evolves(t, t')
    ensures ContributedOnce(t'.productions, t'.productions) && ContributedOnce(t.productions, t'.productions)
  {
    forall k | 0 <= k < |t'.productions|
      ensures Contribution(t'.productions, t'.productions[k].requestId) == t'.productions[k].quantity
    {
      SingleContribution(t'.productions, k);
    }
  }

  lemma ProducedIsKnown(t: Tables, t': Tables, requestId: string)
    requires t' == t ==> KnownProduction(t, requestId)
    requires t' != t ==> |t'.productions| == |t.productions| + 1
                         && t'.productions[|t.productions|].requestId == requestId
    ensures KnownProduction(t', requestId)
  {
  }

  lemma CatalogNames(t: Tables, sku: string)
    requires Inv(t) && sku in t.products
    ensures t.products[sku].sku == sku && sku in t.available
  {
  }
}
