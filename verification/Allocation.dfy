/**
 Stock allocation: what one pass of FillReserves does to the reservation table.

 The table is a sequence of rows in creation order, so the query
 "open rows of this SKU, oldest first, at most `budget`" is a walk from the front.
 */
module Allocation {
  import opened Common

  datatype ReserveState = Open | Closed

  datatype Reservation = Reservation(
    id: nat,
    requestId: string,
    requester: string,
    sku: string,
    state: ReserveState,
    reserved: int,
    requested: int,
    created: int)

  /** What a pass leaves behind: remaining stock and the rewritten rows. */
  datatype Filled = Filled(available: int, rows: seq<Reservation>)

  /** The lifecycle of one row: never over-filled, and Closed exactly when full. */
  predicate RowOk(r: Reservation) {
    && r.sku != ""
    && 1 <= r.requested
    && 0 <= r.reserved <= r.requested
    && (r.state.Closed? <==> r.reserved == r.requested)
  }

  predicate RowsOk(rows: seq<Reservation>) {
    forall i :: 0 <= i < |rows| ==> RowOk(rows[i])
  }

  function Shortfall(r: Reservation): int {
    r.requested - r.reserved
  }

  /** The WHERE clause: an empty SKU drops the SKU filter. */
  predicate Selected(r: Reservation, sku: string) {
    r.state.Open? && (sku == "" || r.sku == sku)
  }

  function Granted(r: Reservation, amount: int): Reservation {
    r.(reserved := r.reserved + amount,
       state := if r.reserved + amount == r.requested then Closed else r.state)
  }

  /** One pass over at most `budget` selected rows, oldest first. */
  function Fill(available: int, rows: seq<Reservation>, sku: string, budget: nat): Filled
    decreases |rows|
  {
    if rows == [] then
      Filled(available, [])
    else if Selected(rows[0], sku) && budget > 0 && available != 0 then
      var amount := Min(Shortfall(rows[0]), available);
      var rest := Fill(available - amount, rows[1..], sku, budget - 1);
      Filled(rest.available, [Granted(rows[0], amount)] + rest.rows)
    else
      var rest := Fill(available, rows[1..], sku, budget);
      Filled(rest.available, [rows[0]] + rest.rows)
  }

  /** Stock held by the reservations of one SKU. */
  function Held(rows: seq<Reservation>, sku: string): int {
    if rows == [] then 0
    else (if rows[0].sku == sku then rows[0].reserved else 0) + Held(rows[1..], sku)
  }

  /** How many selected rows stand before position `p`. */
  function Rank(rows: seq<Reservation>, sku: string, p: nat): nat
    requires p <= |rows|
    decreases |rows|
  {
    if p == 0 then 0
    else (if Selected(rows[0], sku) then 1 else 0) + Rank(rows[1..], sku, p - 1)
  }

  /** The unmet demand that stands before position `p`. */
  function Ahead(rows: seq<Reservation>, sku: string, p: nat): int
    requires p <= |rows|
    decreases |rows|
  {
    if p == 0 then 0
    else (if Selected(rows[0], sku) then Shortfall(rows[0]) else 0) + Ahead(rows[1..], sku, p - 1)
  }

  function OpenCount(rows: seq<Reservation>, sku: string): nat {
    Rank(rows, sku, |rows|)
  }

  /** The unmet demand of the first `budget` selected rows. */
  function BatchDemand(rows: seq<Reservation>, sku: string, budget: nat): int
    decreases |rows|
  {
    if rows == [] || budget == 0 then 0
    else if Selected(rows[0], sku) then Shortfall(rows[0]) + BatchDemand(rows[1..], sku, budget - 1)
    else BatchDemand(rows[1..], sku, budget)
  }

  /** A later row of a SKU holds stock only if every earlier row of it is Closed. */
  predicate Fifo(rows: seq<Reservation>) {
    forall i, j :: 0 <= i < j < |rows| && rows[i].sku == rows[j].sku && rows[j].reserved > 0
      ==> rows[i].state.Closed?
  }

  /** How a row may change over time: only filled up, and frozen once Closed. */
  predicate RowEvolves(r: Reservation, r': Reservation) {
    && r' == r.(reserved := r'.reserved, state := r'.state)
    && r.reserved <= r'.reserved
    && (r.state.Closed? ==> r' == r)
  }

  // ----- one pass -----

  lemma {:induction false} FillIdle(available: int, rows: seq<Reservation>, sku: string, budget: nat)
    requires available == 0 || budget == 0 || OpenCount(rows, sku) == 0
    ensures Fill(available, rows, sku, budget) == Filled(available, rows)
  {
    if rows != [] {
      assert OpenCount(rows[1..], sku) <= OpenCount(rows, sku);
      FillIdle(available, rows[1..], sku, budget);
      assert [rows[0]] + rows[1..] == rows;
    }
  }

  lemma {:induction false} FillEvolves(available: int, rows: seq<Reservation>, sku: string, budget: nat)
    requires available >= 0 && RowsOk(rows)
    ensures var f := Fill(available, rows, sku, budget);
      && 0 <= f.available <= available
      && |f.rows| == |rows|
      && RowsOk(f.rows)
      && (forall i :: 0 <= i < |rows| ==> RowEvolves(rows[i], f.rows[i]))
  {
    if rows != [] {
      var amount := if Selected(rows[0], sku) && budget > 0 && available != 0
                    then Min(Shortfall(rows[0]), available) else 0;
      FillEvolves(available - amount, rows[1..], sku,
                  if Selected(rows[0], sku) && budget > 0 && available != 0 then budget - 1 else budget);
    }
  }

  /** Whatever stock leaves the shelf turns up in the rows of the same SKU. */
  lemma {:induction false} FillConserves(available: int, rows: seq<Reservation>, sku: string, budget: nat, s: string)
    requires sku != ""
    ensures var f := Fill(available, rows, sku, budget);
      && (s == sku ==> f.available + Held(f.rows, s) == available + Held(rows, s))
      && (s != sku ==> Held(f.rows, s) == Held(rows, s))
    decreases |rows|
  {
    if rows != [] {
      var f := Fill(available, rows, sku, budget);
      var tail := f.rows[1..];
      if Selected(rows[0], sku) && budget > 0 && available != 0 {
        var amount := Min(Shortfall(rows[0]), available);
        assert tail == Fill(available - amount, rows[1..], sku, budget - 1).rows;
        FillConserves(available - amount, rows[1..], sku, budget - 1, s);
      } else {
        assert tail == Fill(available, rows[1..], sku, budget).rows;
        FillConserves(available, rows[1..], sku, budget, s);
      }
    }
  }

  lemma {:induction false} AheadNonNegative(rows: seq<Reservation>, sku: string, p: nat)
    requires RowsOk(rows) && p <= |rows|
    ensures Ahead(rows, sku, p) >= 0
  {
    if p > 0 {
      AheadNonNegative(rows[1..], sku, p - 1);
    }
  }

  lemma {:induction false} FillLength(available: int, rows: seq<Reservation>, sku: string, budget: nat)
    ensures |Fill(available, rows, sku, budget).rows| == |rows|
    decreases |rows|
  {
    if rows != [] {
      if Selected(rows[0], sku) && budget > 0 && available != 0 {
        FillLength(available - Min(Shortfall(rows[0]), available), rows[1..], sku, budget - 1);
      } else {
        FillLength(available, rows[1..], sku, budget);
      }
    }
  }

  /** The pass deals with the first row, then with the rest. */
  lemma FillPastHead(available: int, rows: seq<Reservation>, sku: string, i: nat)
    requires available > 0 && rows != []
    requires Selected(rows[0], sku) ==> i > 0
    ensures var amount := if Selected(rows[0], sku) then Min(Shortfall(rows[0]), available) else 0;
      var j := if Selected(rows[0], sku) then i - 1 else i;
      var head := if Selected(rows[0], sku) then Granted(rows[0], amount) else rows[0];
      var g := Fill(available - amount, rows[1..], sku, j);
      Fill(available, rows, sku, i) == Filled(g.available, [head] + g.rows)
  {
  }

  /**
   The closed form of one pass: the row at `p` gets its shortfall or whatever the
   rows ahead of it left over, provided it is among the first `budget` selected rows.
   */
  lemma {:induction false} FillClosedForm(available: int, rows: seq<Reservation>, sku: string, budget: nat, p: nat)
    requires available >= 0 && RowsOk(rows) && p < |rows|
    ensures var f := Fill(available, rows, sku, budget);
      && |f.rows| == |rows|
      && f.rows[p] ==
         if Selected(rows[p], sku) && Rank(rows, sku, p) < budget
         then Granted(rows[p], Min(Shortfall(rows[p]), Max(0, available - Ahead(rows, sku, p))))
         else rows[p]
  {
    AheadNonNegative(rows, sku, p);
    if available == 0 || budget == 0 {
      FillIdle(available, rows, sku, budget);
    } else {
      hide Fill;
      FillLength(available, rows, sku, budget);
      FillPastHead(available, rows, sku, budget);
      if p > 0 {
        var amount := if Selected(rows[0], sku) then Min(Shortfall(rows[0]), available) else 0;
        var budget' := if Selected(rows[0], sku) then budget - 1 else budget;
        AheadNonNegative(rows[1..], sku, p - 1);
        FillClosedForm(available - amount, rows[1..], sku, budget', p - 1);
      }
    }
  }

  lemma {:induction false} BatchDemandNonNegative(rows: seq<Reservation>, sku: string, budget: nat)
    requires RowsOk(rows)
    ensures BatchDemand(rows, sku, budget) >= 0
  {
    if rows != [] && budget > 0 {
      BatchDemandNonNegative(rows[1..], sku, if Selected(rows[0], sku) then budget - 1 else budget);
    }
  }

  /** The total granted is the smaller of the stock and the demand of the batch. */
  lemma {:induction false} FillTotalGranted(available: int, rows: seq<Reservation>, sku: string, budget: nat)
    requires available >= 0 && RowsOk(rows)
    ensures available - Fill(available, rows, sku, budget).available
         == Min(available, BatchDemand(rows, sku, budget))
  {
    BatchDemandNonNegative(rows, sku, budget);
    if available == 0 || budget == 0 {
      FillIdle(available, rows, sku, budget);
    } else if rows != [] {
      if Selected(rows[0], sku) {
        BatchDemandNonNegative(rows[1..], sku, budget - 1);
        FillTotalGranted(available - Min(Shortfall(rows[0]), available), rows[1..], sku, budget - 1);
      } else {
        FillTotalGranted(available, rows[1..], sku, budget);
      }
    }
  }

  lemma {:induction false} AheadStep(rows: seq<Reservation>, sku: string, p: nat, q: nat)
    requires RowsOk(rows) && p < q <= |rows|
    ensures Selected(rows[p], sku) ==> Ahead(rows, sku, p) + Shortfall(rows[p]) <= Ahead(rows, sku, q)
    ensures Selected(rows[p], sku) ==> Rank(rows, sku, p) < Rank(rows, sku, q)
  {
    if p == 0 {
      AheadNonNegative(rows[1..], sku, q - 1);
    } else {
      AheadStep(rows[1..], sku, p - 1, q - 1);
    }
  }

  /**
   The shape of a pass: the rows it touches are the oldest selected ones, and all of them
   but the last are filled up, so at most one row is left partly filled.
   */
  lemma FillTouchesAPrefix(available: int, rows: seq<Reservation>, sku: string, budget: nat, p: nat, q: nat)
    requires available >= 0 && RowsOk(rows) && p < q < |rows|
    requires Selected(rows[p], sku)
    ensures var f := Fill(available, rows, sku, budget);
      |f.rows| == |rows| && (f.rows[q] != rows[q] ==> f.rows[p].state.Closed?)
  {
    FillClosedForm(available, rows, sku, budget, p);
    FillClosedForm(available, rows, sku, budget, q);
    AheadStep(rows, sku, p, q);
  }

  /** No overtaking: a pass keeps the first-come-first-served order. */
  lemma {:induction false} FillKeepsFifo(available: int, rows: seq<Reservation>, sku: string, budget: nat)
    requires available >= 0 && RowsOk(rows) && Fifo(rows) && sku != ""
    ensures Fifo(Fill(available, rows, sku, budget).rows)
  {
    var f := Fill(available, rows, sku, budget);
    FillEvolves(available, rows, sku, budget);
    forall i, j | 0 <= i < j < |rows| && f.rows[i].sku == f.rows[j].sku && f.rows[j].reserved > 0
      ensures f.rows[i].state.Closed?
    {
      assert RowEvolves(rows[i], f.rows[i]) && RowEvolves(rows[j], f.rows[j]);
      if rows[i].state.Open? {
        assert RowOk(rows[i]) && RowOk(rows[j]) && rows[j].reserved == 0;
        FillClosedForm(available, rows, sku, budget, i);
        FillClosedForm(available, rows, sku, budget, j);
        AheadStep(rows, sku, i, j);
      }
    }
  }

  // ----- repeated passes -----

  /** Two passes are one pass with the budgets added. */
  lemma {:induction false} FillCompose(available: int, rows: seq<Reservation>, sku: string, b1: nat, b2: nat)
    requires available >= 0 && RowsOk(rows)
    ensures var f := Fill(available, rows, sku, b1);
      Fill(f.available, f.rows, sku, b2) == Fill(available, rows, sku, b1 + b2)
    decreases |rows|, 1
  {
    if available == 0 {
      FillIdle(available, rows, sku, b1);
      FillIdle(available, rows, sku, b1 + b2);
      FillIdle(available, rows, sku, b2);
    } else if b1 == 0 {
      FillIdle(available, rows, sku, b1);
    } else if rows != [] {
      var tail := rows[1..];
      if Selected(rows[0], sku) {
        FillComposeSelected(available, rows, sku, b1, b2);
      } else {
        var f := Fill(available, rows, sku, b1);
        assert f.rows[1..] == Fill(available, tail, sku, b1).rows;
        FillCompose(available, tail, sku, b1, b2);
      }
    }
  }

  lemma {:induction false} FillComposeSelected(available: int, rows: seq<Reservation>, sku: string, b1: nat, b2: nat)
    requires available > 0 && RowsOk(rows) && rows != [] && Selected(rows[0], sku) && b1 > 0
    ensures var f := Fill(available, rows, sku, b1);
      Fill(f.available, f.rows, sku, b2) == Fill(available, rows, sku, b1 + b2)
    decreases |rows|, 0
  {
    var tail := rows[1..];
    var amount := Min(Shortfall(rows[0]), available);
    var g := Fill(available - amount, tail, sku, b1 - 1);
    var f := Fill(available, rows, sku, b1);
    assert f.rows[0] == Granted(rows[0], amount) && f.rows[1..] == g.rows && f.available == g.available;
    if amount == available {
      FillIdle(0, tail, sku, b1 - 1);
      FillIdle(0, tail, sku, b1 - 1 + b2);
      FillIdle(0, f.rows, sku, b2);
    } else {
      assert f.rows[0].state.Closed?;
      FillCompose(available - amount, tail, sku, b1 - 1, b2);
    }
  }

  /** Any two budgets that cover the whole queue give the same result. */
  lemma {:induction false} FillSaturates(available: int, rows: seq<Reservation>, sku: string, b1: nat, b2: nat)
    requires OpenCount(rows, sku) <= b1 && OpenCount(rows, sku) <= b2
    ensures Fill(available, rows, sku, b1) == Fill(available, rows, sku, b2)
    decreases |rows|
  {
    if rows != [] {
      if Selected(rows[0], sku) && available != 0 {
        FillSaturates(available - Min(Shortfall(rows[0]), available), rows[1..], sku, b1 - 1, b2 - 1);
      } else {
        FillSaturates(available, rows[1..], sku, b1, b2);
      }
    }
  }

  /** `k` successful passes in a row. */
  function Passes(k: nat, available: int, rows: seq<Reservation>, sku: string, budget: nat): Filled {
    if k == 0 then Filled(available, rows)
    else
      var f := Passes(k - 1, available, rows, sku, budget);
      Fill(f.available, f.rows, sku, budget)
  }

  lemma {:induction false} PassesAreOneFill(k: nat, available: int, rows: seq<Reservation>, sku: string, budget: nat)
    requires available >= 0 && RowsOk(rows)
    ensures Passes(k, available, rows, sku, budget) == Fill(available, rows, sku, k * budget)
  {
    if k == 0 {
      FillIdle(available, rows, sku, 0);
    } else {
      PassesAreOneFill(k - 1, available, rows, sku, budget);
      FillCompose(available, rows, sku, (k - 1) * budget, budget);
      assert (k - 1) * budget + budget == k * budget;
    }
  }

  /**
   Batch refinement: as soon as `k` batches cover the queue, `k` passes equal one
   unbounded pass over the whole queue, and any further pass changes nothing.
   */
  lemma BatchesReachTheUnboundedFill(k: nat, available: int, rows: seq<Reservation>, sku: string, budget: nat, more: nat)
    requires available >= 0 && RowsOk(rows)
    requires OpenCount(rows, sku) <= k * budget
    ensures Passes(k, available, rows, sku, budget) == Fill(available, rows, sku, |rows|)
    ensures Passes(k + more, available, rows, sku, budget) == Fill(available, rows, sku, |rows|)
  {
    PassesAreOneFill(k, available, rows, sku, budget);
    PassesAreOneFill(k + more, available, rows, sku, budget);
    assert (k + more) * budget == k * budget + more * budget;
    RankBounded(rows, sku, |rows|);
    FillSaturates(available, rows, sku, k * budget, |rows|);
    FillSaturates(available, rows, sku, (k + more) * budget, |rows|);
  }

  lemma {:induction false} RankBounded(rows: seq<Reservation>, sku: string, p: nat)
    requires p <= |rows|
    ensures Rank(rows, sku, p) <= p
  {
    if p > 0 {
      RankBounded(rows[1..], sku, p - 1);
    }
  }

  // ----- idle stock -----

  predicate NoIdle(available: int, rows: seq<Reservation>, sku: string) {
    available == 0 || OpenCount(rows, sku) == 0
  }

  lemma {:induction false} OpenCountAfterCoveringFill(available: int, rows: seq<Reservation>, sku: string, budget: nat)
    requires available >= 0 && RowsOk(rows)
    requires Fill(available, rows, sku, budget).available > 0
    ensures var f := Fill(available, rows, sku, budget);
      OpenCount(f.rows, sku) == Max(0, OpenCount(rows, sku) - budget)
  {
    var f := Fill(available, rows, sku, budget);
    if available == 0 || budget == 0 {
      FillIdle(available, rows, sku, budget);
    } else if rows != [] {
      if Selected(rows[0], sku) {
        var amount := Min(Shortfall(rows[0]), available);
        if amount == available {
          FillIdle(0, rows[1..], sku, budget - 1);
        }
        assert f.rows[1..] == Fill(available - amount, rows[1..], sku, budget - 1).rows;
        OpenCountAfterCoveringFill(available - amount, rows[1..], sku, budget - 1);
      } else {
        assert f.rows[1..] == Fill(available, rows[1..], sku, budget).rows;
        OpenCountAfterCoveringFill(available, rows[1..], sku, budget);
      }
    }
  }

  /**
   Exactly when a pass leaves no idle stock: the batch covered the queue, or the
   batch could absorb all the stock.
   */
  lemma NoIdleAfterFill(available: int, rows: seq<Reservation>, sku: string, budget: nat)
    requires available >= 0 && RowsOk(rows)
    ensures var f := Fill(available, rows, sku, budget);
      NoIdle(f.available, f.rows, sku)
      <==> OpenCount(rows, sku) <= budget || available <= BatchDemand(rows, sku, budget)
  {
    FillTotalGranted(available, rows, sku, budget);
    BatchDemandNonNegative(rows, sku, budget);
    FillEvolves(available, rows, sku, budget);
    if Fill(available, rows, sku, budget).available > 0 {
      OpenCountAfterCoveringFill(available, rows, sku, budget);
    }
  }

  // ----- the query and the row-at-a-time loop -----

  /** The rows the query returns before LIMIT: the selected rows in table order. */
  function Queue(rows: seq<Reservation>, sku: string): (q: seq<Reservation>)
    ensures |q| == OpenCount(rows, sku)
  {
    if rows == [] then []
    else (if Selected(rows[0], sku) then [rows[0]] else []) + Queue(rows[1..], sku)
  }

  /** The table position of the `i`-th row of the queue. */
  function Position(rows: seq<Reservation>, sku: string, i: nat): (p: nat)
    requires i < OpenCount(rows, sku)
    ensures p < |rows| && Selected(rows[p], sku) && rows[p] == Queue(rows, sku)[i]
    ensures Rank(rows, sku, p) == i
  {
    if Selected(rows[0], sku) && i == 0 then 0
    else 1 + Position(rows[1..], sku, if Selected(rows[0], sku) then i - 1 else i)
  }

  /** The result of granting stock to the row at `p` on top of `f`. */
  function GrantAt(f: Filled, p: nat): Filled
    requires p < |f.rows|
  {
    var amount := Min(Shortfall(f.rows[p]), f.available);
    Filled(f.available - amount, f.rows[p := Granted(f.rows[p], amount)])
  }

  /** Widening the budget by one row touches exactly that row. */
  lemma {:induction false} FillOneMore(available: int, rows: seq<Reservation>, sku: string, i: nat)
    requires available >= 0 && RowsOk(rows) && i < OpenCount(rows, sku)
    requires Fill(available, rows, sku, i).available != 0
    ensures var f := Fill(available, rows, sku, i);
      var p := Position(rows, sku, i);
      && |f.rows| == |rows| && f.rows[p] == rows[p]
      && Fill(available, rows, sku, i + 1) == GrantAt(f, p)
    decreases |rows|
  {
    FillEvolves(available, rows, sku, i);
    if available == 0 {
      FillIdle(available, rows, sku, i);
    } else if Selected(rows[0], sku) && i == 0 {
      FillIdle(available, rows, sku, 0);
      FillIdle(available - Min(Shortfall(rows[0]), available), rows[1..], sku, 0);
    } else {
      FillOneMoreBehindHead(available, rows, sku, i);
    }
  }

  lemma {:induction false} FillOneMoreBehindHead(available: int, rows: seq<Reservation>, sku: string, i: nat)
    requires available > 0 && RowsOk(rows) && i < OpenCount(rows, sku)
    requires Fill(available, rows, sku, i).available != 0
    requires Selected(rows[0], sku) ==> i > 0
    ensures var f := Fill(available, rows, sku, i);
      var p := Position(rows, sku, i);
      && |f.rows| == |rows| && f.rows[p] == rows[p]
      && Fill(available, rows, sku, i + 1) == GrantAt(f, p)
    decreases |rows|, 0
  {
    hide Fill, Position, Rank, OpenCount, Queue, RowsOk, Granted, Shortfall, Selected, GrantAt;
    PositionPastHead(rows, sku, i);
    FillPastHead(available, rows, sku, i);
    FillPastHead(available, rows, sku, i + 1);
    var amount := if Selected(rows[0], sku) then Min(Shortfall(rows[0]), available) else 0;
    var j := if Selected(rows[0], sku) then i - 1 else i;
    var head := if Selected(rows[0], sku) then Granted(rows[0], amount) else rows[0];
    var q := Position(rows[1..], sku, j);
    FillOneMore(available - amount, rows[1..], sku, j);
    GrantBehind(rows, head, Fill(available - amount, rows[1..], sku, j), q);
  }

  lemma PositionPastHead(rows: seq<Reservation>, sku: string, i: nat)
    requires i < OpenCount(rows, sku) && RowsOk(rows)
    requires Selected(rows[0], sku) ==> i > 0
    ensures var j := if Selected(rows[0], sku) then i - 1 else i;
      && RowsOk(rows[1..]) && j < OpenCount(rows[1..], sku)
      && Position(rows, sku, i) == Position(rows[1..], sku, j) + 1
  {
  }

  lemma GrantBehind(rows: seq<Reservation>, head: Reservation, g: Filled, p: nat)
    requires p < |g.rows| == |rows| - 1 && g.rows[p] == rows[1..][p]
    ensures var h, f := GrantAt(g, p), Filled(g.available, [head] + g.rows);
      && |f.rows| == |rows| && f.rows[p + 1] == rows[p + 1]
      && GrantAt(f, p + 1) == Filled(h.available, [head] + h.rows)
  {
    var amount := Min(Shortfall(g.rows[p]), g.available);
    assert ([head] + g.rows)[p + 1 := Granted(g.rows[p], amount)]
        == [head] + g.rows[p := Granted(g.rows[p], amount)];
  }

  /** Once the stock is gone the loop may stop: a wider budget changes nothing. */
  lemma FillStopsWhenEmpty(available: int, rows: seq<Reservation>, sku: string, i: nat, budget: nat)
    requires available >= 0 && RowsOk(rows) && i <= budget
    requires Fill(available, rows, sku, i).available == 0
    ensures Fill(available, rows, sku, budget) == Fill(available, rows, sku, i)
  {
    var f := Fill(available, rows, sku, i);
    FillCompose(available, rows, sku, i, budget - i);
    FillIdle(0, f.rows, sku, budget - i);
  }

  // ----- UPDATE ... WHERE id = $1 -----

  function UpdateRow(rows: seq<Reservation>, id: nat, state: ReserveState, reserved: int): (r: seq<Reservation>)
    ensures |r| == |rows|
  {
    seq(|rows|, i requires 0 <= i < |rows| =>
      if rows[i].id == id then rows[i].(state := state, reserved := reserved) else rows[i])
  }

  predicate DistinctIds(rows: seq<Reservation>) {
    forall i, j :: 0 <= i < j < |rows| ==> rows[i].id != rows[j].id
  }

  lemma {:induction false} HeldUpdate(rows: seq<Reservation>, p: nat, r: Reservation, s: string)
    requires p < |rows| && r.sku == rows[p].sku
    ensures Held(rows[p := r], s)
         == Held(rows, s) + (if r.sku == s then r.reserved - rows[p].reserved else 0)
  {
    if p > 0 {
      assert rows[p := r][1..] == rows[1..][p - 1 := r];
      HeldUpdate(rows[1..], p - 1, r, s);
    } else {
      assert rows[p := r][1..] == rows[1..];
    }
  }

  lemma UpdateRowIsPointwise(rows: seq<Reservation>, p: nat, state: ReserveState, reserved: int)
    requires DistinctIds(rows) && p < |rows|
    ensures UpdateRow(rows, rows[p].id, state, reserved)
         == rows[p := rows[p].(state := state, reserved := reserved)]
  {
    var u := UpdateRow(rows, rows[p].id, state, reserved);
    forall i | 0 <= i < |rows| && i != p
      ensures u[i] == rows[i]
    {
      assert rows[i].id != rows[p].id by {
        if i < p { assert rows[i].id != rows[p].id; } else { assert rows[p].id != rows[i].id; }
      }
    }
  }

  lemma {:induction false} HeldAppend(rows: seq<Reservation>, r: Reservation, s: string)
    ensures Held(rows + [r], s) == Held(rows, s) + (if r.sku == s then r.reserved else 0)
  {
    if rows != [] {
      assert (rows + [r])[1..] == rows[1..] + [r];
      HeldAppend(rows[1..], r, s);
    } else {
      assert (rows + [r])[1..] == [];
    }
  }

  lemma {:induction false} RankAppend(rows: seq<Reservation>, r: Reservation, s: string)
    ensures OpenCount(rows + [r], s) == OpenCount(rows, s) + (if Selected(r, s) then 1 else 0)
  {
    if rows != [] {
      assert (rows + [r])[1..] == rows[1..] + [r];
      RankAppend(rows[1..], r, s);
    } else {
      assert (rows + [r])[1..] == [];
    }
  }
}
