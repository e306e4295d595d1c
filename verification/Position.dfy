/** Simulated positions, the exit policies that ask to sell out of them, and the entry rule. */
module Position {
  import opened Amounts
  import opened Schedule
  import opened Domain
  import opened Impact
  import opened Execution
  import opened Ledger

  datatype PositionStatus = Open | Closed | ForcedEndOfData | Unrealizable | SessionEndedOpen

  datatype EventKind =
    | PositionOpened | PartialExit | EmergencySignal | PositionClosed | EndOfDataForced | ExitAttemptFailed

  datatype ExitReason =
    | Stop | TakeProfit | Trail | MomentumDecay | CreatorSold | LiquidityDanger | TimeStop | StrategyExit
    | Emergency | SecurityEmergency | EndOfData | PartialScale | UnrealizableExit

  predicate IsEmergency(r: ExitReason) {
    r.Emergency? || r.SecurityEmergency? || r.LiquidityDanger?
  }

  datatype Note =
    | NoNote | Because(reason: ExitReason) | NotFilled(reason: ExitReason, status: Status)
    | ZeroSold(reason: ExitReason) | SessionEnded | DataEnded(realizable: bool)

  /** `tokens` is the change of inventory: positive on opening, negative on an exit. */
  datatype PositionEvent = PositionEvent(
    kind: EventKind, at: int, tokens: int, quote: U256, remaining: U256, note: Note, status: Option<Status>)

  function CountOf(events: seq<PositionEvent>, kind: EventKind): nat {
    if events == [] then 0
    else CountOf(events[..|events| - 1], kind) + if events[|events| - 1].kind == kind then 1 else 0
  }

  lemma CountAppend(events: seq<PositionEvent>, e: PositionEvent, kind: EventKind)
    ensures CountOf(events + [e], kind) == CountOf(events, kind) + if e.kind == kind then 1 else 0
  {
    assert (events + [e])[..|events|] == events;
  }

  // ---------------------------------------------------------------- returns

  function ToI64(x: U256): int {
    if x <= I64_MAX then x else I64_MAX
  }

  function ReturnBps(cost: U256, value: U256): Option<int> {
    if cost == 0 then None
    else if value >= cost then Some(ToI64(DivRaw(SatMul(value - cost, BPS), cost)))
    else Some(0 - ToI64(DivRaw(SatMul(cost - value, BPS), cost)))
  }

  /** A loss is at most the whole cost, and the return has the sign of the gain. */
  lemma ReturnIsSigned(cost: U256, value: U256)
    requires cost > 0
    ensures var r := ReturnBps(cost, value);
      r.Some? && -10_000 <= r.value <= I64_MAX && (value >= cost ==> r.value >= 0) && (value <= cost ==> r.value <= 0)
  {
    if value < cost {
      var p := SatMul(cost - value, BPS);
      MulMono(cost - value, cost, BPS);
      Commutes(10_001, cost);
      DivAtLeast(p, cost, 10_001);
    } else if value == cost {
      DivAtLeast(0, cost, 1);
    }
  }

  function CaptureRatioBps(cost: U256, realized: U256, mfe: U256): Option<U32> {
    if mfe <= cost then None
    else Some(ToU32(DivRaw(SatMul(SubSatRaw(realized, cost), BPS), mfe - cost), U32_MAX))
  }

  lemma ClampAdd(total: nat, x: U256)
    ensures AddRaw(Clamp(total), x) == Clamp(total + x)
  {
  }

  // ---------------------------------------------------------------- the position

  /** Where a position stands: what the exit policies read of it. */
  datatype Stand = Stand(
    chain: Chain, token: string, openedAt: int, initial: U256, cost: U256, remaining: U256, highest: U256,
    creatorSellsAtEntry: nat, status: PositionStatus, partials: nat)

  function OpenedStand(chain: Chain, token: string, fill: ExecutionResult, creatorSells: nat): Stand {
    Stand(chain, token, if fill.fillTime.Some? then fill.fillTime.value else fill.decision,
          fill.filledToken, fill.filledQuote,
          fill.filledToken, fill.filledQuote, creatorSells, Open, 0)
  }

  function MarkedStand(p: Stand, v: View, fees: FeeModel): Stand
    requires FeesFit(fees)
  {
    var mark := MarkExitQuote(v, p.remaining, fees);
    if p.status.Open? && mark.Some? then p.(highest := MaxRaw(p.highest, mark.value)) else p
  }

  function ExitedStand(p: Stand, fill: ExecutionResult): Stand {
    var sold := MinRaw(fill.filledToken, p.remaining);
    if !IsFill(fill.status) || sold == 0 then p
    else if sold == p.remaining then p.(remaining := 0, status := Closed)
    else p.(remaining := p.remaining - sold, partials := p.partials + 1)
  }

  function EndedStand(p: Stand, realizable: bool): Stand {
    if !p.status.Open? then p else p.(status := if realizable then ForcedEndOfData else Unrealizable)
  }

  class SimulatedPosition {
    const id: nat
    const chain: Chain
    const token: string
    const launchpad: Launchpad
    const openedAt: int
    const initial: U256
    const cost: U256
    const entryPrice: U256
    const entryResearchValid: bool
    var creatorSellsAtEntry: nat
    var closedAt: Option<int>
    var remaining: U256
    var realizedQuote: U256
    var realizedPnl: Signed
    var status: PositionStatus
    var highest: U256
    var lowest: U256
    var mfe: U256
    var mae: U256
    var mfeBps: Option<int>
    var maeBps: Option<int>
    var capture: Option<U32>
    var tokenMaxReturn: Option<int>
    var events: seq<PositionEvent>
    /** The exits that sold something, in order. */
    ghost var exits: seq<Exit>

    ghost predicate Balanced()
      reads `exits, `remaining, `realizedQuote, `realizedPnl
    {
      && Sold(exits) + remaining == initial
      && (forall i :: 0 <= i < |exits| ==> exits[i].sold > 0)
      && realizedQuote == Clamp(Received(exits))
      && realizedPnl == StoredPnl(cost, initial, exits)
    }

    function Standing(): Stand
      reads this
    {
      Stand(chain, token, openedAt, initial, cost, remaining, highest, creatorSellsAtEntry, status,
        CountOf(events, PartialExit))
    }

    /** Inventory is conserved, profit is the fold of the exits, and closed means nothing is left. */
    ghost predicate Valid()
      reads this
    {
      && Balanced()
      && (status.Closed? <==> initial > 0 && remaining == 0)
      && CountOf(events, PartialExit) + CountOf(events, PositionClosed) == |exits|
      && CountOf(events, PositionClosed) == (if status.Closed? then 1 else 0)
      && mfe == highest && mae == lowest && highest >= cost
    }

    /** The part of the state only exits may change. */
    twostate predicate SameLedger()
      reads this
    {
      && remaining == old(remaining) && realizedQuote == old(realizedQuote) && realizedPnl == old(realizedPnl)
      && exits == old(exits)
    }

    constructor (n: nat, c: Chain, tok: string, pad: Launchpad, fill: ExecutionResult)
      ensures Valid() && status.Open? && exits == [] && |events| == 1
      ensures id == n && chain == c && token == tok && launchpad == pad
      ensures initial == remaining == fill.filledToken && cost == fill.filledQuote
      ensures openedAt == (if fill.fillTime.Some? then fill.fillTime.value else fill.decision)
      ensures realizedQuote == 0 && realizedPnl == Signed(false, 0) && creatorSellsAtEntry == 0
      ensures events[0].kind == PositionOpened && highest == lowest == cost
      ensures CountOf(events, PartialExit) == 0 && Standing() == OpenedStand(c, tok, fill, 0)
    {
      id, chain, token, launchpad := n, c, tok, pad;
      openedAt := if fill.fillTime.Some? then fill.fillTime.value else fill.decision;
      initial, remaining, cost := fill.filledToken, fill.filledToken, fill.filledQuote;
      entryPrice, entryResearchValid, creatorSellsAtEntry := fill.effPrice, fill.researchValid, 0;
      closedAt, realizedQuote, realizedPnl, status := None, 0, Signed(false, 0), Open;
      highest, lowest, mfe, mae := fill.filledQuote, fill.filledQuote, fill.filledQuote, fill.filledQuote;
      mfeBps, maeBps, capture, tokenMaxReturn := Some(0), Some(0), None, Some(0);
      events := [PositionEvent(
                   PositionOpened, if fill.fillTime.Some? then fill.fillTime.value else fill.decision,
                   fill.filledToken, fill.filledQuote, fill.filledToken, NoNote, Some(fill.status))];
      exits := [];
    }

    method FinalizeCapture()
      modifies `capture
      ensures capture == CaptureRatioBps(cost, realizedQuote, mfe)
    {
      capture := CaptureRatioBps(cost, realizedQuote, mfe);
    }

    method Note(e: PositionEvent)
      requires Valid() && !e.kind.PartialExit? && !e.kind.PositionClosed?
      modifies `events
      ensures Valid() && events == old(events) + [e]
      ensures CountOf(events, PartialExit) == old(CountOf(events, PartialExit))
    {
      hide StoredPnl, Sold, Received;
      CountAppend(events, e, PartialExit);
      CountAppend(events, e, PositionClosed);
      events := events + [e];
    }

    /** A fill sells no more than is left; what it sells leaves the inventory, and closes the position
        exactly when nothing is left. Anything else only leaves a note. */
    method ApplyExit(fill: ExecutionResult, reason: ExitReason)
      requires Valid()
      modifies this
      ensures Valid() && creatorSellsAtEntry == old(creatorSellsAtEntry) && highest == old(highest)
        && lowest == old(lowest)
      ensures old(status).Closed? ==> status.Closed? && SameLedger()
      ensures Standing() == ExitedStand(old(Standing()), fill)
      ensures var sold := MinRaw(fill.filledToken, old(remaining));
        if !IsFill(fill.status) || sold == 0 then
          && SameLedger() && status == old(status) && closedAt == old(closedAt)
          && CountOf(events, PartialExit) == old(CountOf(events, PartialExit))
          && |events| == |old(events)| + 1 && events[..|old(events)|] == old(events)
          && var e := events[|old(events)|];
             (e.kind.EmergencySignal? || e.kind.ExitAttemptFailed?) && e.tokens == 0 && e.quote == 0
        else
          && remaining == old(remaining) - sold && exits == old(exits) + [Exit(sold, fill.filledQuote)]
          && realizedQuote == AddRaw(old(realizedQuote), fill.filledQuote)
          && status == (if remaining == 0 then Closed else old(status))
          && CountOf(events, PartialExit) == old(CountOf(events, PartialExit)) + (if remaining == 0 then 0 else 1)
          && |events| == |old(events)| + 1 && events[..|old(events)|] == old(events)
          && var e := events[|old(events)|];
             e.kind == (if remaining == 0 then PositionClosed else PartialExit)
             && e.tokens == 0 - sold && e.quote == fill.filledQuote && e.remaining == remaining
    {
      hide StoredPnl, Sold, Received, SoldCost, CaptureRatioBps, CountOf;
      if !IsFill(fill.status) {
        Note(PositionEvent(if IsEmergency(reason) then EmergencySignal else ExitAttemptFailed, fill.decision,
                           0, 0, remaining,
                           NotFilled(reason, fill.status), Some(fill.status)));
        return;
      }
      var sold := fill.filledToken;
      if sold > remaining {
        sold := remaining;
      }
      if sold == 0 {
        Note(PositionEvent(ExitAttemptFailed, fill.decision, 0, 0, remaining, ZeroSold(reason), Some(fill.status)));
        return;
      }
      Sell(sold, fill, reason);
    }

    method Book(sold: U256, quote: U256)
      requires Balanced() && 0 < sold <= remaining
      modifies `exits, `remaining, `realizedQuote, `realizedPnl
      ensures Balanced() && remaining == old(remaining) - sold && exits == old(exits) + [Exit(sold, quote)]
        && initial > 0
      ensures realizedQuote == AddRaw(old(realizedQuote), quote)
    {
      hide StoredPnl, Sold, Received, SoldCost, SignedAdd, Difference, Clamp, AddRaw;
      ExitsAppend(cost, initial, exits, Exit(sold, quote));
      ClampAdd(Received(exits), quote);
      var pnl := Difference(quote, SoldCost(cost, initial, sold));
      remaining := remaining - sold;
      realizedQuote := AddRaw(realizedQuote, quote);
      realizedPnl := SignedAdd(realizedPnl, pnl);
      exits := exits + [Exit(sold, quote)];
    }

    method Sell(sold: U256, fill: ExecutionResult, reason: ExitReason)
      requires Valid() && 0 < sold <= remaining
      modifies this
      ensures Valid() && creatorSellsAtEntry == old(creatorSellsAtEntry) && highest == old(highest)
        && lowest == old(lowest)
      ensures remaining == old(remaining) - sold && exits == old(exits) + [Exit(sold, fill.filledQuote)]
      ensures realizedQuote == AddRaw(old(realizedQuote), fill.filledQuote)
      ensures status == if remaining == 0 then Closed else old(status)
      ensures CountOf(events, PartialExit) == old(CountOf(events, PartialExit)) + if remaining == 0 then 0 else 1
      ensures |events| == |old(events)| + 1 && events[..|old(events)|] == old(events)
      ensures var e := events[|old(events)|];
        e.kind == (if remaining == 0 then PositionClosed else PartialExit)
        && e.tokens == 0 - sold && e.quote == fill.filledQuote && e.remaining == remaining
    {
      hide Balanced, CaptureRatioBps, CountOf, AddRaw;
      Book(sold, fill.filledQuote);
      var kind := PartialExit;
      if remaining == 0 {
        status := Closed;
        closedAt := if fill.fillTime.Some? then fill.fillTime else Some(fill.decision);
        FinalizeCapture();
        kind := PositionClosed;
      }
      var e := PositionEvent(kind, if fill.fillTime.Some? then fill.fillTime.value else fill.decision,
                             0 - sold, fill.filledQuote, remaining, Because(reason), Some(fill.status));
      CountAppend(events, e, PartialExit);
      CountAppend(events, e, PositionClosed);
      events := events + [e];
    }

    method MarkReturn(v: View)
      modifies `tokenMaxReturn
      ensures old(tokenMaxReturn).Some? ==> tokenMaxReturn.Some? && tokenMaxReturn.value >= old(tokenMaxReturn).value
    {
      hide ReturnBps, SpotPrice;
      var px := SpotPrice(v);
      if px.Some? {
        var ret := ReturnBps(entryPrice, px.value);
        if ret.Some? {
          var cur := if tokenMaxReturn.Some? then tokenMaxReturn.value else I64_MIN;
          if ret.value > cur {
            tokenMaxReturn := ret;
          }
        }
      }
    }

    /** Marking follows the best and worst exit value of what is left; it never touches the ledger. */
    method Mark(v: View, fees: FeeModel)
      requires Valid() && FeesFit(fees)
      modifies `tokenMaxReturn, `highest, `lowest, `mfe, `mae, `mfeBps, `maeBps
      ensures Valid()
      ensures var mark := MarkExitQuote(v, remaining, fees);
        if old(status).Open? && mark.Some? then
          highest == MaxRaw(old(highest), mark.value)
          && lowest == (if old(lowest) == 0 then mark.value else MinRaw(old(lowest), mark.value))
        else highest == old(highest) && lowest == old(lowest)
      ensures Standing() == MarkedStand(old(Standing()), v, fees)
      ensures old(tokenMaxReturn).Some? ==> tokenMaxReturn.Some? && tokenMaxReturn.value >= old(tokenMaxReturn).value
    {
      hide StoredPnl, Sold, Received, MarkExitQuote, ReturnBps, CountOf, Clamp;
      if !status.Open? {
        return;
      }
      MarkReturn(v);
      var mark := MarkExitQuote(v, remaining, fees);
      if mark.None? {
        return;
      }
      if mark.value > highest {
        highest, mfe := mark.value, mark.value;
      }
      if lowest == 0 || mark.value < lowest {
        lowest, mae := mark.value, mark.value;
      }
      mfeBps := ReturnBps(cost, highest);
      maeBps := ReturnBps(cost, lowest);
    }

    method EndSessionOpen(at: int)
      requires Valid()
      modifies `status, `events
      ensures Valid() && SameLedger()
      ensures status == (if old(status).Open? then SessionEndedOpen else old(status))
      ensures CountOf(events, PartialExit) == old(CountOf(events, PartialExit))
    {
      hide StoredPnl, Sold, Received, CountOf;
      if !status.Open? {
        return;
      }
      status := SessionEndedOpen;
      Note(PositionEvent(EndOfDataForced, at, 0, 0, remaining, SessionEnded, None));
    }

    /** Ending the data never sells: a position that was not open is untouched. */
    method ForceEnd(at: int, realizable: bool)
      requires Valid()
      modifies `status, `events, `closedAt, `capture
      ensures Valid() && SameLedger()
      ensures status
           == (if !old(status).Open? then old(status) else if realizable then ForcedEndOfData else Unrealizable)
      ensures Standing() == EndedStand(old(Standing()), realizable)
      ensures CountOf(events, PartialExit) == old(CountOf(events, PartialExit))
      ensures !old(status).Open? ==> events == old(events) && closedAt == old(closedAt)
    {
      hide StoredPnl, Sold, Received, CountOf, CaptureRatioBps;
      if !status.Open? {
        return;
      }
      status := if realizable then ForcedEndOfData else Unrealizable;
      closedAt := Some(at);
      Note(PositionEvent(EndOfDataForced, at, 0, 0, remaining, DataEnded(realizable), None));
      FinalizeCapture();
    }
  }

  // ---------------------------------------------------------------- exit policies

  datatype SecurityVerdict = Pass | Warn | Reject | UnknownVerdict

  datatype FlowSignal = FlowSignal(
    buyerAccel: Option<int>, sellerAccel: Option<int>, netFlowNegative: bool, creatorSells: nat)

  datatype ScaleStep = ScaleStep(need: int, sellBps: U32)

  datatype ExitPolicy =
    | TimeExit(hold: int)
    | FixedTpSl(takeProfit: int, stopLoss: int)
    | Trailing(trail: U32)
    | PartialRunner(stages: seq<ScaleStep>, trail: U32)
    | FlowDecay
    | CreatorSell
    | DynamicRunner(stages: seq<ScaleStep>, trail: U32, timeCap: int)

  datatype ExitSignal = ExitSignal(reason: ExitReason, amount: U256, full: bool)

  function DefaultStages(): seq<ScaleStep> {
    [ScaleStep(4_000, 2_000), ScaleStep(8_000, 2_000), ScaleStep(20_000, 2_000)]
  }

  function ShippedExit(id: string): ExitPolicy {
    if id == "X1_TIME_2M" || id == "x1" then TimeExit(120_000)
    else if id == "X2_TIME_5M" || id == "x2" then TimeExit(300_000)
    else if id == "X3_TIME_15M" || id == "x3" then TimeExit(900_000)
    else if id == "X4_FIXED_TP_SL" || id == "x4" then FixedTpSl(10_000, 5_000)
    else if id == "X5_TRAILING" || id == "x5" then Trailing(3_000)
    else if id == "X6_PARTIAL_RUNNER" || id == "x6" then PartialRunner(DefaultStages(), 3_000)
    else if id == "X7_FLOW_DECAY" || id == "x7" then FlowDecay
    else if id == "X8_CREATOR_SELL" || id == "x8" then CreatorSell
    else if id == "X9_DYNAMIC_RUNNER" || id == "x9" then DynamicRunner(DefaultStages(), 3_000, 900_000)
    else TimeExit(300_000)
  }

  function StagesOf(p: ExitPolicy): seq<ScaleStep> {
    if p.PartialRunner? || p.DynamicRunner? then p.stages else []
  }

  /** No stage sells everything, and there are at most three. */
  predicate Scales(p: ExitPolicy) {
    |StagesOf(p)| <= 3 && forall s :: s in StagesOf(p) ==> s.sellBps < 10_000
  }

  lemma ShippedScales(id: string)
    ensures Scales(ShippedExit(id))
  {
  }

  function RunnerSignal(pos: Stand, stages: seq<ScaleStep>, trail: U32, mark: Option<U256>): Option<ExitSignal>
  {
    if mark.None? then None
    else
      var r := ReturnBps(pos.cost, mark.value);
      if r.None? then None
      else
        var partials := pos.partials;
        if partials < |stages| && r.value >= stages[partials].need then
          var sell := DivRaw(SatMul(pos.remaining, stages[partials].sellBps), BPS);
          if sell == 0 then None else Some(ExitSignal(PartialScale, sell, false))
        else
          var peak := ReturnBps(pos.cost, pos.highest);
          if peak.None? then None
          else if partials >= |stages| && peak.value > 0 && peak.value - r.value >= trail then
            Some(ExitSignal(Trail, pos.remaining, true))
          else None
  }

  function FlowSignalOf(pos: Stand, flow: Option<FlowSignal>): Option<ExitSignal>
  {
    if flow.None? then None
    else
      var f := flow.value;
      var buyersCollapse := f.buyerAccel.Some? && f.buyerAccel.value <= -2;
      var sellersUp := f.sellerAccel.Some? && f.sellerAccel.value >= 2;
      if buyersCollapse || (sellersUp && f.netFlowNegative) then Some(ExitSignal(MomentumDecay, pos.remaining, true))
        else None
  }

  function CreatorSignalOf(pos: Stand, flow: Option<FlowSignal>): Option<ExitSignal>
  {
    var sells := if flow.Some? then flow.value.creatorSells else 0;
    if sells > pos.creatorSellsAtEntry then Some(ExitSignal(CreatorSold, pos.remaining, true)) else None
  }

  function OnMark(p: ExitPolicy, pos: Stand, v: View, mark: Option<U256>, flow: Option<FlowSignal>): Option<ExitSignal>
  {
    match p
    case TimeExit(hold) => if v.time - pos.openedAt >= hold then Some(ExitSignal(TimeStop, pos.remaining, true))
      else None
    case FixedTpSl(tp, sl) =>
      if mark.None? then None
      else
        var r := ReturnBps(pos.cost, mark.value);
        if r.None? then None
        else if r.value >= tp then Some(ExitSignal(TakeProfit, pos.remaining, true))
        else if r.value <= 0 - sl then Some(ExitSignal(Stop, pos.remaining, true))
        else None
    case Trailing(trail) =>
      if mark.None? then None
      else
        var peak, now := ReturnBps(pos.cost, pos.highest), ReturnBps(pos.cost, mark.value);
        if peak.Some? && now.Some? && peak.value > 0 && peak.value - now.value >= trail then
          Some(ExitSignal(Trail, pos.remaining, true))
        else None
    case PartialRunner(stages, trail) => RunnerSignal(pos, stages, trail, mark)
    case FlowDecay => FlowSignalOf(pos, flow)
    case CreatorSell => CreatorSignalOf(pos, flow)
    case DynamicRunner(stages, trail, cap) =>
      if FlowSignalOf(pos, flow).Some? then FlowSignalOf(pos, flow)
      else if CreatorSignalOf(pos, flow).Some? then CreatorSignalOf(pos, flow)
      else if v.time - pos.openedAt >= cap then Some(ExitSignal(TimeStop, pos.remaining, true))
      else RunnerSignal(pos, stages, trail, mark)
  }

  function Evaluate(p: ExitPolicy, fees: FeeModel, pos: Stand, v: View, security: Option<SecurityVerdict>,
                    flow: Option<FlowSignal>): Option<ExitSignal>
    requires FeesFit(fees)
  {
    if !pos.status.Open? then None
    else if security == Some(Reject) then Some(ExitSignal(SecurityEmergency, pos.remaining, true))
    else OnMark(p, pos, v, MarkExitQuote(v, pos.remaining, fees), flow)
  }

  /** What a policy asks to sell is held; it is all that is held, unless it is one of the scaled partial
      exits still to come, which always leaves something. */
  predicate Affordable(sig: ExitSignal, remaining: U256, partials: nat) {
    && sig.amount <= remaining
    && (if sig.full then sig.amount == remaining else 0 < sig.amount < remaining && partials < 3)
  }

  lemma SignalsAreAffordable(p: ExitPolicy, fees: FeeModel, pos: Stand, v: View, security: Option<SecurityVerdict>,
                             flow: Option<FlowSignal>)
    requires FeesFit(fees) && Scales(p)
    ensures var sig := Evaluate(p, fees, pos, v, security, flow);
      sig.Some? ==> pos.status.Open? && Affordable(sig.value, pos.remaining, pos.partials)
  {
    hide MarkExitQuote, ReturnBps, FlowSignalOf;
    FlowIsFull(pos, flow);
    var stages, partials := StagesOf(p), pos.partials;
    if partials < |stages| {
      assert stages[partials] in stages;
      ScaleLeavesSome(pos.remaining, stages[partials].sellBps);
    }
  }

  lemma FlowIsFull(pos: Stand, flow: Option<FlowSignal>)
    ensures var s := FlowSignalOf(pos, flow); s.Some? ==> s.value == ExitSignal(MomentumDecay, pos.remaining, true)
  {
  }

  lemma ScaleLeavesSome(remaining: U256, sellBps: U32)
    requires sellBps < 10_000
    ensures DivRaw(SatMul(remaining, sellBps), BPS) <= remaining
    ensures remaining > 0 ==> DivRaw(SatMul(remaining, sellBps), BPS) < remaining
  {
    FractionShrinks(remaining, sellBps);
    if remaining > 0 {
      MulMono(sellBps, 9_999, remaining);
      DivAtLeast(SatMul(remaining, sellBps), BPS, remaining);
    }
  }

  // ---------------------------------------------------------------- the entry rule

  datatype EntryPolicy = FirstEligible | Delay30s | Delay60s | Delay120s | RandomEligible

  function EntryDelay(p: EntryPolicy): int {
    match p
    case FirstEligible => 0
    case RandomEligible => 0
    case Delay30s => 30_000
    case Delay60s => 60_000
    case Delay120s => 120_000
  }

  datatype Candidate =
    | DiscoveredCandidate | SecurityPending | SecurityRejected | DataIncomplete
    | Watching | Confirming | EligibleCandidate | Expired

  datatype EntryDecision =
    | Enter | SecurityReject | SecurityUnknown | NotEligible | NoEligibleTime | DelayNotReached | RandomControlSkip

  function MayEnter(p: EntryPolicy, candidate: Candidate, security: Option<SecurityVerdict>,
      firstEligible: Option<int>, now: int, token: string, draw: Draw): EntryDecision {
    if security == Some(Reject) then SecurityReject
    else if security.None? || security == Some(UnknownVerdict) then SecurityUnknown
    else if !candidate.EligibleCandidate? then NotEligible
    else if firstEligible.None? then NoEligibleTime
    else if now < firstEligible.value + EntryDelay(p) then DelayNotReached
    else if p.RandomEligible? && !draw(token, firstEligible.value, 0, 5_000) then RandomControlSkip
    else Enter
  }

  /** Entry needs a passing verdict; a policy that waits longer, or draws at random, enters only where the one
      that enters first would; and waiting never turns an entry into a refusal. */
  lemma EntryPoliciesNest(p: EntryPolicy, candidate: Candidate, security: Option<SecurityVerdict>,
      firstEligible: Option<int>, now: int, later: int, token: string, draw: Draw)
    requires now <= later && MayEnter(p, candidate, security, firstEligible, now, token, draw) == Enter
    ensures security == Some(Pass) || security == Some(Warn)
    ensures candidate.EligibleCandidate? && firstEligible.Some? && now >= firstEligible.value + EntryDelay(p)
    ensures MayEnter(p, candidate, security, firstEligible, later, token, draw) == Enter
    ensures forall q: EntryPolicy :: !q.RandomEligible? && EntryDelay(q) <= EntryDelay(p) ==>
      MayEnter(q, candidate, security, firstEligible, now, token, draw) == Enter
  {
    assert security.Some? && (security.value.Pass? || security.value.Warn?);
  }
}
