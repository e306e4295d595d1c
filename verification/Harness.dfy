/** The historical simulation: a walk over snapshots that enters each token at most once and lets an exit
    policy sell out of what was bought. */
module Harness {
  import opened Amounts
  import opened Domain
  import opened Impact
  import opened Execution
  import opened Ledger
  import opened Position
  import opened Reconcile

  datatype Row<T> = Row(time: int, chain: Chain, token: string, value: T)

  /** The last of the latest rows not after `t`. */
  function LatestRow<T>(rows: seq<Row<T>>, chain: Chain, token: string, t: int): Option<Row<T>> {
    if rows == [] then None
    else
      var before, r := LatestRow(rows[..|rows| - 1], chain, token, t), rows[|rows| - 1];
      if r.chain == chain && r.token == token && r.time <= t && (before.None? || r.time >= before.value.time)
      then Some(r) else before
  }

  type TokenId = (Chain, string)

  datatype Setup = Setup(snaps: seq<Observation>, eligibleAt: map<TokenId, int>, security: seq<Row<SecurityVerdict>>,
      candidates: seq<Row<Candidate>>, entry: EntryPolicy, exit: ExitPolicy, cfg: SimConfig, notional: U256,
      started: int)

  predicate SetupOk(u: Setup) {
    ConfigOk(u.cfg) && Scales(u.exit)
  }

  /** The whole book may be read: its end is the last snapshot's time. */
  function End(u: Setup): int {
    if u.snaps == [] then u.started else u.snaps[|u.snaps| - 1].view.time
  }

  function Book(u: Setup): SnapshotBook {
    SnapshotBook(u.snaps, End(u))
  }

  function Security(u: Setup, s: Observation): Option<SecurityVerdict> {
    var r := LatestRow(u.security, s.chain, s.token, s.view.time);
    if r.Some? then Some(r.value.value) else None
  }

  function CandidateAt(u: Setup, s: Observation): Candidate {
    var r := LatestRow(u.candidates, s.chain, s.token, s.view.time);
    if r.Some? then r.value.value else DiscoveredCandidate
  }

  function EligibleSince(u: Setup, s: Observation): Option<int> {
    if (s.chain, s.token) in u.eligibleAt then Some(u.eligibleAt[(s.chain, s.token)]) else None
  }

  datatype SimulatedOrder = SimulatedOrder(
    id: nat, chain: Chain, token: string, side: Side, decision: int, amount: U256, result: ExecutionResult)

  // ---------------------------------------------------------------- the run, on values

  /** An exit to place: which position, and what its policy asks for. */
  datatype Ask = Ask(index: nat, signal: ExitSignal)

  datatype RunState = RunState(stands: seq<Stand>, orders: seq<SimulatedOrder>, entered: set<TokenId>)

  function IdOf(s: Observation): TokenId {
    (s.chain, s.token)
  }

  function EntryOrder(u: Setup, s: Observation): Order {
    Order(s.chain, s.token, Buy, s.view.time, u.notional, true, true, false)
  }

  function ExitOrder(s: Observation, sig: ExitSignal): Order {
    Order(s.chain, s.token, Sell, s.view.time, sig.amount, false, false, IsEmergency(sig.reason))
  }

  predicate Enters(u: Setup, s: Observation, draw: Draw, entered: set<TokenId>) {
    IdOf(s) !in entered
    && MayEnter(u.entry, CandidateAt(u, s), Security(u, s), EligibleSince(u, s), s.view.time, s.token, draw) == Enter
  }

  function Bought(u: Setup, s: Observation, draw: Draw, n: nat): SimulatedOrder
    requires SetupOk(u)
  {
    SimulatedOrder(n + 1, s.chain, s.token, Buy, s.view.time, u.notional,
      Simulated(Book(u), u.cfg, EntryOrder(u, s), draw))
  }

  function SoldOrder(u: Setup, s: Observation, draw: Draw, sig: ExitSignal, n: nat): SimulatedOrder
    requires SetupOk(u)
  {
    SimulatedOrder(n + 1, s.chain, s.token, Sell, s.view.time, sig.amount,
      Simulated(Book(u), u.cfg, ExitOrder(s, sig), draw))
  }

  /** Entering: an order if the token may be entered, and a position if it fills. */
  function EnterStep(u: Setup, s: Observation, draw: Draw, st: RunState): RunState
    requires SetupOk(u)
  {
    if !Enters(u, s, draw, st.entered) then st
    else
      var o := Bought(u, s, draw, |st.orders|);
      if IsFill(o.result.status)
      then RunState(st.stands + [OpenedStand(s.chain, s.token, o.result, s.creatorSells)], st.orders + [o],
        st.entered + {IdOf(s)})
      else st.(orders := st.orders + [o])
  }

  function MarkedAt(u: Setup, s: Observation, p: Stand): Stand
    requires SetupOk(u)
  {
    if (p.chain, p.token) == IdOf(s) then MarkedStand(p, s.view, u.cfg.fees) else p
  }

  function MarkStep(u: Setup, s: Observation, stands: seq<Stand>): seq<Stand>
    requires SetupOk(u)
  {
    seq(|stands|, i requires 0 <= i < |stands| => MarkedAt(u, s, stands[i]))
  }

  function Flow(s: Observation): FlowSignal {
    FlowSignal(None, None, s.netFlowNegative, s.creatorSells)
  }

  /** What the policy asks of a position at this snapshot, if it is of the snapshot's token. */
  function Signal(u: Setup, s: Observation, p: Stand): Option<ExitSignal>
    requires SetupOk(u)
  {
    if (p.chain, p.token) != IdOf(s) then None
    else Evaluate(u.exit, u.cfg.fees, p, s.view, Security(u, s), Some(Flow(s)))
  }

  /** Every signal of the first `n` positions, in their order. */
  function AsksOf(u: Setup, s: Observation, stands: seq<Stand>, n: nat): (asks: seq<Ask>)
    requires SetupOk(u) && n <= |stands|
    ensures forall m :: 0 <= m < |asks| ==> asks[m].index < n
  {
    if n == 0 then []
    else
      AsksOf(u, s, stands, n - 1)
      + if Signal(u, s, stands[n - 1]).Some? then [Ask(n - 1, Signal(u, s, stands[n - 1]).value)] else []
  }

  predicate AsksFit(asks: seq<Ask>, n: nat) {
    forall m :: 0 <= m < |asks| ==> asks[m].index < n
  }

  function ExitStep(u: Setup, s: Observation, draw: Draw, st: RunState, a: Ask): RunState
    requires SetupOk(u) && a.index < |st.stands|
  {
    var o := SoldOrder(u, s, draw, a.signal, |st.orders|);
    st.(stands := st.stands[a.index := ExitedStand(st.stands[a.index], o.result)], orders := st.orders + [o])
  }

  function ExitSteps(u: Setup, s: Observation, draw: Draw, st: RunState, asks: seq<Ask>): (r: RunState)
    requires SetupOk(u) && AsksFit(asks, |st.stands|)
    ensures |r.stands| == |st.stands| && r.entered == st.entered
  {
    if asks == [] then st
    else ExitStep(u, s, draw, ExitSteps(u, s, draw, st, asks[..|asks| - 1]), asks[|asks| - 1])
  }

  /** One snapshot: enter, mark, and place every exit asked for. */
  function RunStep(u: Setup, s: Observation, draw: Draw, st: RunState): RunState
    requires SetupOk(u)
  {
    var e := EnterStep(u, s, draw, st);
    var marked := MarkStep(u, s, e.stands);
    ExitSteps(u, s, draw, e.(stands := marked), AsksOf(u, s, marked, |marked|))
  }

  /** After the first `n` snapshots. */
  function RunTo(u: Setup, draw: Draw, n: nat): RunState
    requires SetupOk(u) && n <= |u.snaps|
  {
    if n == 0 then RunState([], [], {}) else RunStep(u, u.snaps[n - 1], draw, RunTo(u, draw, n - 1))
  }

  /** The last snapshot of a token. */
  function LastOf(snaps: seq<Observation>, k: TokenId): Option<Observation> {
    if snaps == [] then None
    else if IdOf(snaps[|snaps| - 1]) == k then Some(snaps[|snaps| - 1])
    else LastOf(snaps[..|snaps| - 1], k)
  }

  /** Whether what a position still holds could be sold at its token's last snapshot. */
  predicate Realizable(u: Setup, p: Stand)
    requires SetupOk(u)
  {
    var last := LastOf(u.snaps, (p.chain, p.token));
    last.Some? && MarkExitQuote(last.value.view, p.remaining, u.cfg.fees).Some?
  }

  // ---------------------------------------------------------------- orders against positions

  /** The fills of one token and side, in order. */
  function FillsOf(orders: seq<SimulatedOrder>, side: Side, k: TokenId): seq<FillLeg> {
    if orders == [] then []
    else
      var o := orders[|orders| - 1];
      FillsOf(orders[..|orders| - 1], side, k)
      + if o.side == side && (o.chain, o.token) == k && IsFill(o.result.status)
        then [FillLeg(o.result.filledToken, o.result.filledQuote)] else []
  }

  lemma FillsAppend(orders: seq<SimulatedOrder>, o: SimulatedOrder, side: Side, k: TokenId)
    ensures FillsOf(orders + [o], side, k)
         == FillsOf(orders, side, k)
          + if o.side == side && (o.chain, o.token) == k && IsFill(o.result.status)
            then [FillLeg(o.result.filledToken, o.result.filledQuote)] else []
  {
    assert (orders + [o])[..|orders|] == orders;
  }

  lemma FillsOfOthers(orders: seq<SimulatedOrder>, o: SimulatedOrder, side: Side, k: TokenId)
    requires (o.chain, o.token) != k || o.side != side || !IsFill(o.result.status)
    ensures FillsOf(orders + [o], side, k) == FillsOf(orders, side, k)
  {
    FillsAppend(orders, o, side, k);
    assert FillsOf(orders, side, k) + [] == FillsOf(orders, side, k);
  }

  function KeyOfPosition(p: SimulatedPosition): TokenId {
    (p.chain, p.token)
  }

  /** A position is the one buy fill of its token, and its exits are exactly the sell fills: nothing was
      clamped. It scales out at most three times and closes at most once. */
  ghost predicate Kept(p: SimulatedPosition, orders: seq<SimulatedOrder>)
    reads p
  {
    && p.Valid() && p.initial > 0 && CountOf(p.events, PartialExit) <= 3
    && FillsOf(orders, Buy, KeyOfPosition(p)) == [FillLeg(p.initial, p.cost)]
    && FillsOf(orders, Sell, KeyOfPosition(p)) == Legs(p.exits)
  }

  ghost predicate Separate(positions: seq<SimulatedPosition>) {
    && (forall i, j :: 0 <= i < j < |positions| ==> positions[i] != positions[j])
    && (forall i, j :: 0 <= i < j < |positions| ==> KeyOfPosition(positions[i]) != KeyOfPosition(positions[j]))
  }

  ghost predicate Entered(entered: set<TokenId>, positions: seq<SimulatedPosition>) {
    && (forall i :: 0 <= i < |positions| ==> KeyOfPosition(positions[i]) in entered)
    && (forall k :: k in entered ==> exists i :: 0 <= i < |positions| && KeyOfPosition(positions[i]) == k)
  }

  ghost predicate NoOthers(entered: set<TokenId>, orders: seq<SimulatedOrder>) {
    forall k :: k !in entered ==> FillsOf(orders, Buy, k) == [] && FillsOf(orders, Sell, k) == []
  }

  ghost predicate AllKept(positions: seq<SimulatedPosition>, orders: seq<SimulatedOrder>)
    reads positions
  {
    forall i :: 0 <= i < |positions| ==> Kept(positions[i], orders)
  }

  ghost predicate LedgerOk(positions: seq<SimulatedPosition>, orders: seq<SimulatedOrder>, entered: set<TokenId>)
    reads positions
  {
    Separate(positions) && Entered(entered, positions) && NoOthers(entered, orders) && AllKept(positions, orders)
  }

  // ---------------------------------------------------------------- entering

  lemma OpenedIsKept(p: SimulatedPosition, orders: seq<SimulatedOrder>, o: SimulatedOrder)
    requires p.Valid() && p.exits == [] && CountOf(p.events, PartialExit) == 0
    requires o.side == Buy && KeyOfPosition(p) == (o.chain, o.token) && IsFill(o.result.status)
    requires p.initial == o.result.filledToken > 0 && p.cost == o.result.filledQuote
    requires FillsOf(orders, Buy, KeyOfPosition(p)) == [] && FillsOf(orders, Sell, KeyOfPosition(p)) == []
    ensures Kept(p, orders + [o])
  {
    hide FillsOf, CountOf, StoredPnl, Sold, Received;
    FillsAppend(orders, o, Buy, KeyOfPosition(p));
    FillsOfOthers(orders, o, Sell, KeyOfPosition(p));
    assert [] + [FillLeg(p.initial, p.cost)] == [FillLeg(p.initial, p.cost)];
  }

  lemma OtherStaysKept(p: SimulatedPosition, orders: seq<SimulatedOrder>, o: SimulatedOrder)
    requires Kept(p, orders) && (KeyOfPosition(p) != (o.chain, o.token) || !IsFill(o.result.status))
    ensures Kept(p, orders + [o])
  {
    hide FillsOf, CountOf, StoredPnl, Sold, Received;
    FillsOfOthers(orders, o, Buy, KeyOfPosition(p));
    FillsOfOthers(orders, o, Sell, KeyOfPosition(p));
  }

  lemma NoOthersOrder(entered: set<TokenId>, orders: seq<SimulatedOrder>, o: SimulatedOrder, more: set<TokenId>)
    requires NoOthers(entered, orders) && entered <= more && ((o.chain, o.token) in more || !IsFill(o.result.status))
    ensures NoOthers(more, orders + [o])
  {
    hide FillsOf;
    forall k | k !in more ensures FillsOf(orders + [o], Buy, k) == [] && FillsOf(orders + [o], Sell, k) == [] {
      FillsOfOthers(orders, o, Buy, k);
      FillsOfOthers(orders, o, Sell, k);
    }
  }

  /** A buy that filled opens a position; the token cannot be entered again. */
  method OpenOne(s: Observation, positions: seq<SimulatedPosition>, ghost orders: seq<SimulatedOrder>,
      entered: set<TokenId>, record: SimulatedOrder, ghost stands: seq<Stand>)
    returns (positions': seq<SimulatedPosition>, entered': set<TokenId>)
    requires LedgerOk(positions, orders, entered) && Mirrors(positions, stands) && IdOf(s) !in entered
    requires record.side == Buy && (record.chain, record.token) == IdOf(s) && IsFill(record.result.status)
      && record.result.filledToken > 0
    ensures LedgerOk(positions', orders + [record], entered') && entered' == entered + {IdOf(s)}
    ensures |positions'| == |positions| + 1 && positions'[..|positions|] == positions && fresh(positions'[|positions|])
    ensures Mirrors(positions', stands + [OpenedStand(s.chain, s.token, record.result, s.creatorSells)])
  {
    hide Kept, FillsOf, Separate, Entered, CountOf;
    var p := new SimulatedPosition(|positions| + 1, s.chain, s.token, s.view.launchpad, record.result);
    p.creatorSellsAtEntry := s.creatorSells;
    positions' := positions + [p];
    entered' := entered + {IdOf(s)};
    OpenedIsKept(p, orders, record);
    NoOthersOrder(entered, orders, record, entered');
    forall i | 0 <= i < |positions| ensures Kept(positions[i], orders + [record]) {
      IsEntered(entered, positions, i);
      OtherStaysKept(positions[i], orders, record);
    }
    OneMoreEntered(entered, positions, p);
  }

  lemma IsEntered(entered: set<TokenId>, positions: seq<SimulatedPosition>, i: nat)
    requires Entered(entered, positions) && i < |positions|
    ensures KeyOfPosition(positions[i]) in entered
  {
  }

  lemma UnfilledKeeps(positions: seq<SimulatedPosition>, orders: seq<SimulatedOrder>, entered: set<TokenId>,
      record: SimulatedOrder)
    requires LedgerOk(positions, orders, entered) && !IsFill(record.result.status)
    ensures LedgerOk(positions, orders + [record], entered)
  {
    hide Kept, FillsOf, Separate, Entered, NoOthers;
    NoOthersOrder(entered, orders, record, entered);
    forall i | 0 <= i < |positions| ensures Kept(positions[i], orders + [record]) {
      OtherStaysKept(positions[i], orders, record);
    }
  }

  method TryEnter(u: Setup, s: Observation, draw: Draw, positions: seq<SimulatedPosition>, orders: seq<SimulatedOrder>,
                  entered: set<TokenId>, ghost stands: seq<Stand>)
    returns (positions': seq<SimulatedPosition>, orders': seq<SimulatedOrder>, entered': set<TokenId>)
    requires SetupOk(u) && LedgerOk(positions, orders, entered) && Mirrors(positions, stands)
    ensures LedgerOk(positions', orders', entered')
    ensures positions' == positions
      || (|positions'| == |positions| + 1 && positions'[..|positions|] == positions && fresh(positions'[|positions|]))
    ensures var st := EnterStep(u, s, draw, RunState(stands, orders, entered));
      Mirrors(positions', st.stands) && orders' == st.orders && entered' == st.entered
  {
    hide LedgerOk, Simulated, MayEnter, Security, CandidateAt, Mirrors;
    positions', orders', entered' := positions, orders, entered;
    if !Enters(u, s, draw, entered) {
      return;
    }
    var o := EntryOrder(u, s);
    var fill := SimulateSide(Book(u), u.cfg, o, draw);
    FirstFillOrNothing(Book(u), u.cfg, o, draw);
    var record := SimulatedOrder(|orders| + 1, s.chain, s.token, Buy, s.view.time, u.notional, fill);
    orders' := orders + [record];
    if IsFill(fill.status) {
      positions', entered' := OpenOne(s, positions, orders, entered, record, stands);
    } else {
      UnfilledKeeps(positions, orders, entered, record);
    }
  }

  lemma OneMoreEntered(entered: set<TokenId>, positions: seq<SimulatedPosition>, p: SimulatedPosition)
    requires Separate(positions) && Entered(entered, positions) && KeyOfPosition(p) !in entered
    requires p !in positions
    ensures Separate(positions + [p]) && Entered(entered + {KeyOfPosition(p)}, positions + [p])
  {
    var more := positions + [p];
    forall k | k in entered + {KeyOfPosition(p)} ensures exists i :: 0 <= i < |more| && KeyOfPosition(more[i]) == k {
      if k in entered {
        var i :| 0 <= i < |positions| && KeyOfPosition(positions[i]) == k;
        assert KeyOfPosition(more[i]) == k;
      } else {
        assert KeyOfPosition(more[|positions|]) == k;
      }
    }
  }

  // ---------------------------------------------------------------- marking, and asking the policy

  /** An exit to place: of a position of this token, affordable as the position stands. */
  ghost predicate AskOk(positions: seq<SimulatedPosition>, a: Ask, k: TokenId)
    reads positions
  {
    a.index < |positions|
    && var p := positions[a.index];
       KeyOfPosition(p) == k && Affordable(a.signal, p.remaining, CountOf(p.events, PartialExit)) && p.remaining > 0
  }

  /** ... and no two exits of the same position. */
  ghost predicate AsksOk(positions: seq<SimulatedPosition>, asks: seq<Ask>, from: nat, k: TokenId)
    reads positions
  {
    && (forall n :: from <= n < |asks| ==> AskOk(positions, asks[n], k))
    && (forall m, n :: from <= m < n < |asks| ==> asks[m].index < asks[n].index)
  }

  /** The positions are where the value run says. */
  ghost predicate Mirrors(positions: seq<SimulatedPosition>, stands: seq<Stand>)
    reads positions
  {
    |positions| == |stands| && forall i :: 0 <= i < |positions| ==> positions[i].Standing() == stands[i]
  }

  lemma SilentUnlessOpen(u: Setup, s: Observation, p: Stand)
    requires SetupOk(u) && ((p.chain, p.token) != IdOf(s) || !p.status.Open?)
    ensures Signal(u, s, p).None? && MarkedAt(u, s, p) == p
  {
  }

  lemma OthersAreOther(positions: seq<SimulatedPosition>, i: nat)
    requires Separate(positions) && i < |positions|
    ensures forall j :: 0 <= j < |positions| && j != i ==>
      positions[j] != positions[i] && KeyOfPosition(positions[j]) != KeyOfPosition(positions[i])
  {
  }

  /** A position of the snapshot's token that is open is marked, and its policy asked; any other is left alone. */
  method MarkOne(u: Setup, s: Observation, p: SimulatedPosition,
      ghost orders: seq<SimulatedOrder>) returns (sig: Option<ExitSignal>)
    requires SetupOk(u) && Kept(p, orders)
    modifies p
    ensures Kept(p, orders) && sig == Signal(u, s, p.Standing()) && p.Standing() == MarkedAt(u, s, old(p.Standing()))
  {
    hide FillsOf, CountOf, StoredPnl, Sold, Received, Evaluate, Security, MarkedStand;
    if p.chain == s.chain && p.token == s.token && p.status.Open? {
      p.Mark(s.view, u.cfg.fees);
      sig := Evaluate(u.exit, u.cfg.fees, p.Standing(), s.view, Security(u, s), Some(Flow(s)));
    } else {
      sig := None;
      SilentUnlessOpen(u, s, p.Standing());
    }
  }

  /** Every ask is the signal of its position, and no two are of the same position. */
  ghost predicate AreSignals(u: Setup, s: Observation, stands: seq<Stand>, asks: seq<Ask>)
    requires SetupOk(u) && AsksFit(asks, |stands|)
  {
    && (forall m :: 0 <= m < |asks| ==> Signal(u, s, stands[asks[m].index]) == Some(asks[m].signal))
    && (forall l, m :: 0 <= l < m < |asks| ==> asks[l].index < asks[m].index)
  }

  lemma {:induction false} AsksAreSignals(u: Setup, s: Observation, stands: seq<Stand>, n: nat)
    requires SetupOk(u) && n <= |stands|
    ensures AsksFit(AsksOf(u, s, stands, n), |stands|) && AreSignals(u, s, stands, AsksOf(u, s, stands, n))
  {
    hide Signal, SetupOk;
    if n > 0 {
      AsksAreSignals(u, s, stands, n - 1);
    }
  }

  lemma SignalIsOk(u: Setup, s: Observation, p: SimulatedPosition, orders: seq<SimulatedOrder>, sig: ExitSignal)
    requires SetupOk(u) && Kept(p, orders) && Signal(u, s, p.Standing()) == Some(sig)
    ensures KeyOfPosition(p) == IdOf(s) && p.remaining > 0
      && Affordable(sig, p.remaining, CountOf(p.events, PartialExit))
  {
    hide FillsOf, CountOf, StoredPnl, Sold, Received, Evaluate, Affordable, Security;
    SignalsAreAffordable(u.exit, u.cfg.fees, p.Standing(), s.view, Security(u, s), Some(Flow(s)));
  }

  lemma AsksAreOk(u: Setup, s: Observation, positions: seq<SimulatedPosition>, orders: seq<SimulatedOrder>,
      stands: seq<Stand>)
    requires SetupOk(u) && AllKept(positions, orders) && Mirrors(positions, stands)
    ensures AsksOk(positions, AsksOf(u, s, stands, |stands|), 0, IdOf(s))
  {
    hide Kept, Affordable, CountOf, Signal, SimulatedPosition.Standing, SetupOk;
    var asks := AsksOf(u, s, stands, |stands|);
    AsksAreSignals(u, s, stands, |stands|);
    assert AreSignals(u, s, stands, asks);
    forall n | 0 <= n < |asks| ensures AskOk(positions, asks[n], IdOf(s)) {
      assert positions[asks[n].index].Standing() == stands[asks[n].index];
      SignalIsOk(u, s, positions[asks[n].index], orders, asks[n].signal);
    }
  }

  /** The first `n` positions are marked, and the rest are as they were. */
  ghost predicate MarkedUpTo(u: Setup, s: Observation, positions: seq<SimulatedPosition>, stands: seq<Stand>, n: nat)
    requires SetupOk(u) && n <= |positions| == |stands|
    reads positions
  {
    forall i :: 0 <= i < |positions| ==>
      positions[i].Standing() == if i < n then MarkedAt(u, s, stands[i]) else stands[i]
  }

  method MarkAll(u: Setup, s: Observation, positions: seq<SimulatedPosition>, ghost orders: seq<SimulatedOrder>,
      ghost stands: seq<Stand>)
    returns (asks: seq<Ask>)
    requires SetupOk(u) && Separate(positions) && AllKept(positions, orders) && Mirrors(positions, stands)
    modifies set p | p in positions
    ensures AllKept(positions, orders) && AsksOk(positions, asks, 0, (s.chain, s.token))
    ensures Mirrors(positions, MarkStep(u, s, stands)) && asks == AsksOf(u, s, MarkStep(u, s, stands), |stands|)
  {
    hide Kept, Affordable, CountOf, Signal, MarkedAt, SimulatedPosition.Standing, SetupOk;
    asks := [];
    ghost var marked := MarkStep(u, s, stands);
    var i := 0;
    while i < |positions|
      invariant 0 <= i <= |positions| && AllKept(positions, orders)
      invariant MarkedUpTo(u, s, positions, stands, i) && asks == AsksOf(u, s, marked, i)
    {
      OthersAreOther(positions, i);
      var sig := MarkOne(u, s, positions[i], orders);
      if sig.Some? {
        asks := asks + [Ask(i, sig.value)];
      }
      i := i + 1;
    }
    AsksAreOk(u, s, positions, orders, marked);
  }

  // ---------------------------------------------------------------- exiting

  lemma LegsAppend(exits: seq<Exit>, e: Exit)
    ensures Legs(exits + [e]) == Legs(exits) + [FillLeg(e.sold, e.received)]
  {
  }

  /** The position's own exit, seen from its orders: a fill is one more sell leg, anything else is none. */
  lemma ExitedIsKept(p: SimulatedPosition, orders: seq<SimulatedOrder>, record: SimulatedOrder, before: seq<Exit>)
    requires p.Valid() && p.initial > 0 && CountOf(p.events, PartialExit) <= 3
    requires record.side == Sell && KeyOfPosition(p) == (record.chain, record.token)
    requires FillsOf(orders, Buy, KeyOfPosition(p)) == [FillLeg(p.initial, p.cost)]
    requires FillsOf(orders, Sell, KeyOfPosition(p)) == Legs(before)
    requires p.exits == before + if IsFill(record.result.status)
      then [Exit(record.result.filledToken, record.result.filledQuote)] else []
    ensures Kept(p, orders + [record])
  {
    hide FillsOf, CountOf, StoredPnl, Sold, Received, Legs;
    FillsOfOthers(orders, record, Buy, KeyOfPosition(p));
    FillsAppend(orders, record, Sell, KeyOfPosition(p));
    assert before + [] == before;
    assert FillsOf(orders, Sell, KeyOfPosition(p)) + [] == FillsOf(orders, Sell, KeyOfPosition(p));
    if IsFill(record.result.status) {
      LegsAppend(before, Exit(record.result.filledToken, record.result.filledQuote));
    }
  }

  method ExitOne(u: Setup, s: Observation, draw: Draw, p: SimulatedPosition, orders: seq<SimulatedOrder>,
      sig: ExitSignal)
    returns (record: SimulatedOrder)
    requires SetupOk(u) && Kept(p, orders) && KeyOfPosition(p) == (s.chain, s.token)
    requires p.remaining > 0 && Affordable(sig, p.remaining, CountOf(p.events, PartialExit))
    modifies p
    ensures Kept(p, orders + [record]) && record == SoldOrder(u, s, draw, sig, |orders|)
    ensures (record.chain, record.token) == (s.chain, s.token)
    ensures p.Standing() == ExitedStand(old(p.Standing()), record.result)
  {
    hide FillsOf, CountOf, StoredPnl, Sold, Received, Simulated, Legs;
    var o := ExitOrder(s, sig);
    var fill := SimulateSide(Book(u), u.cfg, o, draw);
    FirstFillOrNothing(Book(u), u.cfg, o, draw);
    record := SimulatedOrder(|orders| + 1, p.chain, p.token, Sell, s.view.time, sig.amount, fill);
    ghost var before := p.exits;
    p.ApplyExit(fill, sig.reason);
    ExitedIsKept(p, orders, record, before);
  }

  lemma ExitStepsOne(u: Setup, s: Observation, draw: Draw, st: RunState, asks: seq<Ask>, n: nat)
    requires SetupOk(u) && AsksFit(asks, |st.stands|) && n < |asks|
    ensures AsksFit(asks[..n], |st.stands|) && AsksFit(asks[..n + 1], |st.stands|)
    ensures ExitSteps(u, s, draw, st, asks[..n + 1])
      == ExitStep(u, s, draw, ExitSteps(u, s, draw, st, asks[..n]), asks[n])
  {
    hide ExitStep;
    assert asks[..n + 1][..n] == asks[..n];
  }

  lemma AsksOkFit(positions: seq<SimulatedPosition>, asks: seq<Ask>, k: TokenId)
    requires AsksOk(positions, asks, 0, k)
    ensures AsksFit(asks, |positions|)
  {
    hide Affordable, CountOf;
    forall m | 0 <= m < |asks| ensures asks[m].index < |positions| {
      assert AskOk(positions, asks[m], k);
    }
  }

  method ApplyAsks(u: Setup, s: Observation, draw: Draw, positions: seq<SimulatedPosition>, orders: seq<SimulatedOrder>,
                   ghost entered: set<TokenId>, asks: seq<Ask>, ghost stands: seq<Stand>)
    returns (orders': seq<SimulatedOrder>)
    requires SetupOk(u) && LedgerOk(positions, orders, entered) && Mirrors(positions, stands)
    requires AsksOk(positions, asks, 0, (s.chain, s.token)) && AsksFit(asks, |stands|)
    modifies set p | p in positions
    ensures LedgerOk(positions, orders', entered)
    ensures var st := ExitSteps(u, s, draw, RunState(stands, orders, entered), asks);
      Mirrors(positions, st.stands) && orders' == st.orders
  {
    hide Kept, Affordable, CountOf, NoOthers, Simulated, SimulatedPosition.Standing, ExitSteps, SoldOrder, ExitedStand;
    orders' := orders;
    ghost var st := RunState(stands, orders, entered);
    NoAsks(u, s, draw, st, asks);
    var n := 0;
    while n < |asks|
      invariant 0 <= n <= |asks| && LedgerOk(positions, orders', entered)
      invariant AsksOk(positions, asks, n, (s.chain, s.token))
      invariant AsksFit(asks[..n], |stands|)
        && st == ExitSteps(u, s, draw, RunState(stands, orders, entered), asks[..n])
      invariant Mirrors(positions, st.stands) && orders' == st.orders
    {
      var a := asks[n];
      ExitStepsOne(u, s, draw, RunState(stands, orders, entered), asks, n);
      assert AskOk(positions, a, (s.chain, s.token));
      var p := positions[a.index];
      assert Kept(p, orders');
      OthersAreOther(positions, a.index);
      var record := ExitOne(u, s, draw, p, orders', a.signal);
      forall j | 0 <= j < |positions| ensures Kept(positions[j], orders' + [record]) {
        if j != a.index {
          OtherStaysKept(positions[j], orders', record);
        }
      }
      NoOthersOrder(entered, orders', record, entered);
      orders' := orders' + [record];
      st := ExitStep(u, s, draw, st, a);
      n := n + 1;
    }
    assert asks[..n] == asks;
  }

  lemma NoAsks(u: Setup, s: Observation, draw: Draw, st: RunState, asks: seq<Ask>)
    requires SetupOk(u)
    ensures AsksFit(asks[..0], |st.stands|) && ExitSteps(u, s, draw, st, asks[..0]) == st
  {
  }

  // ---------------------------------------------------------------- the run

  method StepOne(u: Setup, s: Observation, draw: Draw, positions: seq<SimulatedPosition>, orders: seq<SimulatedOrder>,
                 entered: set<TokenId>, ghost st: RunState)
    returns (positions': seq<SimulatedPosition>, orders': seq<SimulatedOrder>, entered': set<TokenId>)
    requires SetupOk(u) && LedgerOk(positions, orders, entered)
    requires Mirrors(positions, st.stands) && orders == st.orders && entered == st.entered
    modifies set p | p in positions
    ensures LedgerOk(positions', orders', entered')
    ensures forall p :: p in positions' ==> p in positions || fresh(p)
    ensures var after := RunStep(u, s, draw, st);
      Mirrors(positions', after.stands) && orders' == after.orders && entered' == after.entered
  {
    hide Kept, FillsOf, Separate, Entered, NoOthers, Simulated, Signal, Enters, AsksOk, SetupOk, AllKept, EnterStep,
      ExitSteps, AsksOf;
    ghost var e := EnterStep(u, s, draw, st);
    positions', orders', entered' := TryEnter(u, s, draw, positions, orders, entered, st.stands);
    var asks := MarkAll(u, s, positions', orders', e.stands);
    AsksOkFit(positions', asks, (s.chain, s.token));
    orders' := ApplyAsks(u, s, draw, positions', orders', entered', asks, MarkStep(u, s, e.stands));
  }

  /** A position that ended the data: not sold, and marked by whether what it holds could have been. */
  function Ended(u: Setup, p: Stand): Stand
    requires SetupOk(u)
  {
    EndedStand(p, Realizable(u, p))
  }

  ghost predicate EndedUpTo(u: Setup, positions: seq<SimulatedPosition>, stands: seq<Stand>, n: nat)
    requires SetupOk(u) && n <= |positions| == |stands|
    reads positions
  {
    forall i :: 0 <= i < |positions| ==> positions[i].Standing() == if i < n then Ended(u, stands[i]) else stands[i]
  }

  method EndData(u: Setup, positions: seq<SimulatedPosition>, orders: seq<SimulatedOrder>, ghost entered: set<TokenId>,
                 ghost stands: seq<Stand>)
    requires SetupOk(u) && LedgerOk(positions, orders, entered) && Mirrors(positions, stands)
    modifies set p | p in positions
    ensures LedgerOk(positions, orders, entered)
    ensures |positions| == |stands| && EndedUpTo(u, positions, stands, |positions|)
    ensures forall i :: 0 <= i < |positions| ==> !positions[i].status.Open?
  {
    hide Kept, FillsOf, Entered, NoOthers, MarkExitQuote, SimulatedPosition.Standing, Ended;
    var i := 0;
    while i < |positions|
      invariant 0 <= i <= |positions| && LedgerOk(positions, orders, entered)
      invariant EndedUpTo(u, positions, stands, i)
      invariant forall j :: 0 <= j < i ==> !positions[j].status.Open?
    {
      var p := positions[i];
      OthersAreOther(positions, i);
      EndOne(u, p, orders);
      i := i + 1;
    }
  }

  method EndOne(u: Setup, p: SimulatedPosition, ghost orders: seq<SimulatedOrder>)
    requires SetupOk(u) && Kept(p, orders)
    modifies p
    ensures Kept(p, orders) && !p.status.Open? && p.Standing() == Ended(u, old(p.Standing()))
  {
    hide FillsOf, CountOf, StoredPnl, Sold, Received, MarkExitQuote;
    if p.status.Open? {
      var last := LastOf(u.snaps, KeyOfPosition(p));
      var mark := if last.None? then None else MarkExitQuote(last.value.view, p.remaining, u.cfg.fees);
      p.ForceEnd(End(u), mark.Some?);
    }
  }

  /** Throughout the run, and at its end: one position per token at most, each bought by that token's only buy
      fill and sold by exactly its sell fills, scaling out at most three times and closing at most once; and the
      orders and positions are those of the run on values. */
  method RunHistorical(u: Setup, draw: Draw) returns (positions: seq<SimulatedPosition>, orders: seq<SimulatedOrder>)
    requires SetupOk(u)
    ensures Separate(positions) && AllKept(positions, orders)
    ensures forall k ::
      (FillsOf(orders, Buy, k) != [] <==> exists i :: 0 <= i < |positions| && KeyOfPosition(positions[i]) == k)
    ensures forall i :: 0 <= i < |positions| ==> !positions[i].status.Open?
    ensures var run := RunTo(u, draw, |u.snaps|);
      orders == run.orders && |positions| == |run.stands| && EndedUpTo(u, positions, run.stands, |positions|)
  {
    hide Kept, FillsOf, Separate, Entered, NoOthers, RunStep;
    positions, orders := [], [];
    var entered: set<TokenId> := {};
    NothingYet();
    var i := 0;
    while i < |u.snaps|
      invariant 0 <= i <= |u.snaps| && LedgerOk(positions, orders, entered)
      invariant forall p :: p in positions ==> fresh(p)
      invariant var st := RunTo(u, draw, i);
        Mirrors(positions, st.stands) && orders == st.orders && entered == st.entered
    {
      positions, orders, entered := StepOne(u, u.snaps[i], draw, positions, orders, entered, RunTo(u, draw, i));
      i := i + 1;
    }
    EndData(u, positions, orders, entered, RunTo(u, draw, i).stands);
    BuysAreEntries(positions, orders, entered);
  }

  lemma NothingYet()
    ensures Separate([]) && Entered({}, []) && NoOthers({}, [])
  {
  }

  lemma BuysAreEntries(positions: seq<SimulatedPosition>, orders: seq<SimulatedOrder>, entered: set<TokenId>)
    requires LedgerOk(positions, orders, entered)
    ensures forall k ::
      (FillsOf(orders, Buy, k) != [] <==> exists i :: 0 <= i < |positions| && KeyOfPosition(positions[i]) == k)
  {
    hide FillsOf;
    forall k
      ensures FillsOf(orders, Buy, k) != [] <==> exists i :: 0 <= i < |positions| && KeyOfPosition(positions[i]) == k
    {
      if k in entered {
        var i :| 0 <= i < |positions| && KeyOfPosition(positions[i]) == k;
        assert Kept(positions[i], orders);
      }
    }
  }

  /** Any position of a run reconciles against its own persisted fills: inventory and closing always agree; and
      while no product of amounts overflows, the stored profit is at most three units above the recomputed one,
      for every shipped exit policy. */
  method ReconcileRun(p: SimulatedPosition, orders: seq<SimulatedOrder>) returns (r: Reconciled)
    requires Kept(p, orders)
    ensures r.inventoryOk && !r.negativeInventory && !r.oversold && !r.closedWithoutExitFill
      && !r.failedExitMarkedClosed
    ensures Ok(r) <==> p.realizedPnl == r.realizedPnl
    ensures p.cost * p.initial <= U256_MAX && Received(p.exits) <= U256_MAX ==>
      && 0 <= Denote(p.realizedPnl) - Denote(r.realizedPnl) <= 3
      && (Ok(r) <==> LeftBehind(p.cost, p.initial, p.exits) < p.initial)
  {
    hide FillsOf, CountOf, StoredPnl, Sold, Received, Legs, LeftBehind;
    var sells := FillsOf(orders, Sell, KeyOfPosition(p));
    r := ReconcileOwnFills(p, p.exits, sells);
    assert |p.exits| <= 4;
  }
}
