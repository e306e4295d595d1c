/** Rebuilding a position's inventory and profit from its persisted fills, and what the check against the
    stored position can find. */
module Reconcile {
  import opened Amounts
  import opened Ledger
  import opened Position

  datatype FillLeg = FillLeg(token: U256, quote: U256)

  datatype Reconciled = Reconciled(
    entryToken: U256, soldToken: U256, remaining: U256, entryQuote: U256, exitQuote: U256, realizedPnl: Signed,
    inventoryOk: bool, pnlOk: bool, negativeInventory: bool, oversold: bool,
    closedWithoutExitFill: bool, failedExitMarkedClosed: bool)

  predicate Ok(r: Reconciled) {
    && r.inventoryOk && r.pnlOk && !r.negativeInventory && !r.oversold
    && !r.closedWithoutExitFill && !r.failedExitMarkedClosed
  }

  function Tokens(legs: seq<FillLeg>): nat {
    if legs == [] then 0 else Tokens(legs[..|legs| - 1]) + legs[|legs| - 1].token
  }

  function Quotes(legs: seq<FillLeg>): nat {
    if legs == [] then 0 else Quotes(legs[..|legs| - 1]) + legs[|legs| - 1].quote
  }

  lemma LegStep(legs: seq<FillLeg>, i: nat)
    requires i < |legs|
    ensures Tokens(legs[..i + 1]) == Tokens(legs[..i]) + legs[i].token
    ensures Quotes(legs[..i + 1]) == Quotes(legs[..i]) + legs[i].quote
  {
    assert legs[..i + 1][..i] == legs[..i];
  }

  /** One saturating pass over the legs. */
  method SumLegs(legs: seq<FillLeg>) returns (token: U256, quote: U256)
    ensures token == Clamp(Tokens(legs)) && quote == Clamp(Quotes(legs))
  {
    token, quote := 0, 0;
    var i := 0;
    while i < |legs|
      invariant 0 <= i <= |legs|
      invariant token == Clamp(Tokens(legs[..i])) && quote == Clamp(Quotes(legs[..i]))
    {
      LegStep(legs, i);
      token := AddRaw(token, legs[i].token);
      quote := AddRaw(quote, legs[i].quote);
      i := i + 1;
    }
    assert legs[..i] == legs;
  }

  /** The entry side: the buy fills, or the position's own record when they bought nothing. */
  function EntryLeg(pos: SimulatedPosition, buys: seq<FillLeg>): FillLeg {
    if Tokens(buys) == 0 then FillLeg(pos.initial, pos.cost) else FillLeg(Clamp(Tokens(buys)), Clamp(Quotes(buys)))
  }

  method ReconcilePosition(pos: SimulatedPosition, buys: seq<FillLeg>, sells: seq<FillLeg>) returns (r: Reconciled)
    ensures var entry := EntryLeg(pos, buys);
      && r.entryToken == entry.token && r.entryQuote == entry.quote
      && r.soldToken == Clamp(Tokens(sells)) && r.exitQuote == Clamp(Quotes(sells))
      && (r.oversold <==> r.soldToken > r.entryToken) && r.remaining == SubSatRaw(r.entryToken, r.soldToken)
      && r.realizedPnl == RealizedPnlFromFills(entry.token, entry.quote, MinRaw(r.soldToken, entry.token), r.exitQuote)
      && (r.inventoryOk <==> pos.remaining == r.remaining) && (r.pnlOk <==> pos.realizedPnl == r.realizedPnl)
      && !r.negativeInventory
      && (r.closedWithoutExitFill <==> pos.status.Closed? && sells == [])
      && (r.failedExitMarkedClosed <==> pos.status.Closed? && r.remaining > 0)
  {
    hide RealizedPnlFromFills;
    var entryToken, entryQuote := SumLegs(buys);
    if entryToken == 0 {
      entryToken, entryQuote := pos.initial, pos.cost;
    }
    var sold, exitQuote := SumLegs(sells);
    var oversold := sold > entryToken;
    var remaining := if oversold then 0 else entryToken - sold;
    var pnl := RealizedPnlFromFills(entryToken, entryQuote, MinRaw(sold, entryToken), exitQuote);
    var closed := pos.status.Closed?;
    r := Reconciled(
      entryToken, sold, remaining, entryQuote, exitQuote, pnl,
      pos.remaining == remaining, pos.realizedPnl == pnl, false, oversold,
      closed && sells == [], closed && remaining > 0);
  }

  // ---------------------------------------------------------------- a position against its own fills

  function Legs(exits: seq<Exit>): seq<FillLeg> {
    seq(|exits|, i requires 0 <= i < |exits| => FillLeg(exits[i].sold, exits[i].received))
  }

  lemma {:induction false} LegTotals(exits: seq<Exit>)
    ensures Tokens(Legs(exits)) == Sold(exits) && Quotes(Legs(exits)) == Received(exits)
  {
    if exits != [] {
      LegTotals(exits[..|exits| - 1]);
      assert Legs(exits)[..|exits| - 1] == Legs(exits[..|exits| - 1]);
    }
  }

  lemma {:induction false} SomethingSold(exits: seq<Exit>)
    requires forall i :: 0 <= i < |exits| ==> exits[i].sold > 0
    ensures Sold(exits) == 0 <==> exits == []
  {
  }

  /** Reconciling a position with its opening fill and its exits: the inventory always agrees and no fault is
      found in how it closed. While no product of amounts overflows, the stored profit is above the recomputed
      one by less than the number of exits, and the check passes exactly when the per-exit floors left behind
      less than one unit. */
  method ReconcileOwnFills(pos: SimulatedPosition, ghost exits: seq<Exit>, sells: seq<FillLeg>) returns (r: Reconciled)
    requires pos.Valid() && exits == pos.exits && sells == Legs(exits)
    ensures r.inventoryOk && !r.negativeInventory && !r.oversold && !r.closedWithoutExitFill
      && !r.failedExitMarkedClosed
    ensures Ok(r) <==> pos.realizedPnl == r.realizedPnl
    ensures InBounds(pos.cost, pos.initial, exits) ==>
      var drift := Denote(pos.realizedPnl) - Denote(r.realizedPnl);
      && drift == LeftBehind(pos.cost, pos.initial, exits) / pos.initial
      && 0 <= drift && (|exits| <= 1 ==> drift == 0) && (exits != [] ==> drift < |exits|)
    ensures InBounds(pos.cost, pos.initial, exits) ==>
      (Ok(r) <==> LeftBehind(pos.cost, pos.initial, exits) < pos.initial)
  {
    hide StoredPnl, RealizedPnlFromFills, LeftBehind, Sold, Received, Tokens, Quotes, CountOf;
    LegTotals(exits);
    SomethingSold(exits);
    OneLeg(pos.initial, pos.cost);
    r := ReconcilePosition(pos, [FillLeg(pos.initial, pos.cost)], sells);
    if InBounds(pos.cost, pos.initial, exits) {
      DriftExact(pos.cost, pos.initial, exits);
    }
  }

  lemma OneLeg(token: U256, quote: U256)
    ensures Tokens([FillLeg(token, quote)]) == token && Quotes([FillLeg(token, quote)]) == quote
  {
  }

  /** Two exits of one token each from a purchase of two for one: stored profit +2, reconciled +1. */
  lemma TwoExitsCanDisagree()
    ensures var exits := [Exit(1, 1), Exit(1, 1)];
      && InBounds(1, 2, exits)
      && StoredPnl(1, 2, exits) == Signed(false, 2) && RealizedPnlFromFills(2, 1, 2, 2) == Signed(false, 1)
  {
    var exits := [Exit(1, 1), Exit(1, 1)];
    assert exits[..1] == [Exit(1, 1)];
    assert SoldCost(1, 2, 1) == 0 && SoldCost(1, 2, 2) == 1;
    ExitsAppend(1, 2, [Exit(1, 1)], Exit(1, 1));
    ExitsAppend(1, 2, [], Exit(1, 1));
    assert [] + [Exit(1, 1)] == [Exit(1, 1)] && [Exit(1, 1)] + [Exit(1, 1)] == exits;
  }
}
