/** Simulated execution: delays, seeded failures and retries against a snapshot book that may not be read
    beyond a time. */
module Execution {
  import opened Amounts
  import opened Domain
  import opened Impact

  datatype Latency = Fast | Base | Slow

  datatype DelayModel = DelayModel(scenario: Latency, delays: map<(Chain, Latency), int>)

  function DefaultDelays(scenario: Latency): DelayModel {
    DelayModel(scenario, map[
      (Solana, Fast) := 500, (Solana, Latency.Base) := 2_000, (Solana, Slow) := 5_000,
      (Chain.Base, Fast) := 2_000, (Chain.Base, Latency.Base) := 4_000, (Chain.Base, Slow) := 8_000,
      (Robinhood, Fast) := 500, (Robinhood, Latency.Base) := 1_000, (Robinhood, Slow) := 2_000])
  }

  /** Three delays for each chain. */
  predicate DelaysGiven(d: DelayModel) {
    forall c: Chain, l: Latency :: (c, l) in d.delays
  }

  datatype RetryModel = RetryModel(entry: U32, exit: U32, emergency: U32, delay: int)

  function DefaultRetries(): RetryModel {
    RetryModel(1, 2, 3, 400)
  }

  function MaxAttempts(r: RetryModel, isEntry: bool, emergency: bool): nat {
    var extra := if isEntry then r.entry else if emergency then r.emergency else r.exit;
    if extra == U32_MAX then U32_MAX else extra + 1
  }

  datatype SimConfig = SimConfig(
    delay: DelayModel, fees: FeeModel, networkFee: U256, adverseBps: U32, entryFailureBps: U32, exitFailureBps: U32,
    retry: RetryModel, maxSlipBps: U32, allowSnipeWindow: bool)

  predicate ConfigOk(cfg: SimConfig) {
    DelaysGiven(cfg.delay) && FeesFit(cfg.fees)
  }

  /** The seeded failure draw: token, time, attempt, rate. */
  type Draw = (string, int, nat, U32) -> bool

  /** What the simulator reads of a token snapshot. */
  datatype Observation = Observation(
    chain: Chain, token: string, id: Option<int>, complete: bool, view: View, creatorSells: nat, netFlowNegative: bool)

  datatype SnapshotBook = SnapshotBook(snapshots: seq<Observation>, asOf: int)

  datatype Order = Order(
    chain: Chain, token: string, side: Side, decision: int, amount: U256, isQuote: bool, isEntry: bool, emergency: bool)

  datatype Outcome =
    | NoAttempt | FillTimeNotYetAvailable | SeededFailure | NoSnapshotAtFillTime | Venue(reason: Option<Reason>)

  datatype ExecutionResult = ExecutionResult(
    attempt: nat, status: Status, quality: Quality, researchValid: bool, side: Side,
    requestedQuote: U256, requestedToken: U256, filledQuote: U256, filledToken: U256, fraction: U32,
    decision: int, eligible: int, fillTime: Option<int>, refPrice: U256, effPrice: U256, impact: Option<U32>,
    slippage: U32, protocolFee: U256, snipeTax: U256, networkFee: U256, totalCost: U256, snapshotId: Option<int>,
    reason: Outcome)

  // ---------------------------------------------------------------- the book

  predicate Eligible(x: Observation, chain: Chain, token: string, cap: int) {
    x.chain == chain && x.token == token && x.view.time <= cap
  }

  /** The last of the latest. */
  function Latest(s: seq<Observation>, chain: Chain, token: string, cap: int): Option<Observation> {
    if s == [] then None
    else
      var before, x := Latest(s[..|s| - 1], chain, token, cap), s[|s| - 1];
      if Eligible(x, chain, token, cap) && (before.None? || x.view.time >= before.value.view.time) then Some(x)
        else before
  }

  function At(book: SnapshotBook, chain: Chain, token: string, time: int): Option<Observation> {
    Latest(book.snapshots, chain, token, if time <= book.asOf then time else book.asOf)
  }

  /** No matching snapshot is later than the one found; it is the last listed of its time; and there is
      none only when nothing matches. */
  lemma {:induction false} LatestIsLatest(s: seq<Observation>, chain: Chain, token: string, cap: int)
    ensures var r := Latest(s, chain, token, cap);
      if r.None? then forall x :: x in s ==> !Eligible(x, chain, token, cap)
      else
        && Eligible(r.value, chain, token, cap)
        && exists i :: 0 <= i < |s| && s[i] == r.value
             && (forall j :: 0 <= j < |s| && Eligible(s[j], chain, token, cap) ==> s[j].view.time <= r.value.view.time)
             && (forall j :: i < j < |s| && Eligible(s[j], chain, token, cap) ==> s[j].view.time < r.value.view.time)
  {
    if s != [] {
      var front, x := s[..|s| - 1], s[|s| - 1];
      LatestIsLatest(front, chain, token, cap);
      var r := Latest(s, chain, token, cap);
      assert s == front + [x];
      if r.Some? {
        if r == Latest(front, chain, token, cap) {
          var i :| 0 <= i < |front| && front[i] == r.value
            && (forall j :: 0 <= j < |front| && Eligible(front[j], chain, token, cap) ==>
               front[j].view.time <= r.value.view.time)
            && (forall j :: i < j < |front| && Eligible(front[j], chain, token, cap) ==>
               front[j].view.time < r.value.view.time);
          if Eligible(x, chain, token, cap) && x.view.time >= r.value.view.time {
            assert s[|s| - 1] == r.value;
          } else {
            assert s[i] == r.value;
          }
        } else {
          assert s[|s| - 1] == r.value;
        }
      }
    }
  }

  /** What a book shows up to a time, in its own order. */
  function Shown(s: seq<Observation>, until: int): seq<Observation> {
    if s == [] then []
    else Shown(s[..|s| - 1], until) + if s[|s| - 1].view.time <= until then [s[|s| - 1]] else []
  }

  lemma {:induction false} LaterIsUnseen(s: seq<Observation>, chain: Chain, token: string, cap: int, until: int)
    requires cap <= until
    ensures Latest(Shown(s, until), chain, token, cap) == Latest(s, chain, token, cap)
  {
    if s != [] {
      var front, x := s[..|s| - 1], s[|s| - 1];
      LaterIsUnseen(front, chain, token, cap, until);
      if x.view.time <= until {
        assert (Shown(front, until) + [x])[..|Shown(front, until)|] == Shown(front, until);
      } else {
        assert Shown(front, until) + [] == Shown(front, until);
      }
    }
  }

  // ---------------------------------------------------------------- one order

  /** Whole milliseconds; the division truncates toward zero. */
  function Delay(cfg: SimConfig, chain: Chain, emergency: bool): int
    requires ConfigOk(cfg)
  {
    var base := cfg.delay.delays[(chain, cfg.delay.scenario)];
    var quarter := if base >= 0 then base / 4 else 0 - (0 - base) / 4;
    if !emergency then base else if quarter > 50 then quarter else 50
  }

  function FillTime(cfg: SimConfig, o: Order, attempt: nat): int
    requires ConfigOk(cfg)
  {
    o.decision + Delay(cfg, o.chain, o.emergency) + attempt * cfg.retry.delay
  }

  function Fails(cfg: SimConfig, o: Order, draw: Draw, attempt: nat): bool
    requires ConfigOk(cfg)
  {
    var rate := if o.isEntry then cfg.entryFailureBps else cfg.exitFailureBps;
    rate != 0 && draw(o.token, FillTime(cfg, o, attempt), attempt, rate)
  }

  function FillOf(cfg: SimConfig, o: Order, x: Observation): VenueFill
    requires ConfigOk(cfg)
  {
    ExecutableFill(x.view, o.side, o.amount, cfg.fees, cfg.adverseBps, cfg.maxSlipBps, cfg.allowSnipeWindow)
  }

  function Empty(cfg: SimConfig, o: Order): ExecutionResult
    requires ConfigOk(cfg)
  {
    ExecutionResult(
      0, NoFill, NonResearchValid, false, o.side,
      if o.isQuote then o.amount else 0, if o.isQuote then 0 else o.amount, 0, 0, 0,
      o.decision, o.decision + Delay(cfg, o.chain, o.emergency), None, 0, 0, None,
      cfg.adverseBps, 0, 0, 0, 0, None, NoAttempt)
  }

  function Filled(cfg: SimConfig, last: ExecutionResult, x: Observation, fill: VenueFill, at: int): ExecutionResult {
    last.(snapshotId := x.id, fillTime := Some(at), status := fill.status, quality := fill.quality,
          filledQuote := fill.quote, filledToken := fill.token, fraction := fill.fraction,
          refPrice := fill.refPrice, effPrice := fill.effPrice, impact := fill.impact,
          protocolFee := fill.protocolFee, snipeTax := fill.snipeTax, networkFee := cfg.networkFee,
          totalCost := AddRaw(AddRaw(fill.protocolFee, fill.snipeTax), cfg.networkFee),
          reason := Venue(fill.reason),
          researchValid := x.complete && (fill.quality.Exact? || fill.quality.Modelled?) && IsFill(fill.status))
  }

  /** The attempts from the given one on, carrying the fields of the attempts before. */
  function Attempts(book: SnapshotBook, cfg: SimConfig, o: Order, draw: Draw, last: ExecutionResult, attempt: nat,
      max: nat)
    : ExecutionResult
    requires ConfigOk(cfg) && attempt <= max
    decreases max - attempt
  {
    if attempt == max then last.(researchValid := false)
    else
      var at := FillTime(cfg, o, attempt);
      var l := last.(eligible := at, attempt := attempt + 1);
      if at > book.asOf then
        l.(status := NoFill, reason := FillTimeNotYetAvailable, quality := Modelled, researchValid := false)
      else if Fails(cfg, o, draw, attempt) then
        Attempts(book, cfg, o, draw,
                 l.(status := Failed, reason := SeededFailure, quality := Modelled, fillTime := Some(at)), attempt + 1,
                   max)
      else
        var x := At(book, o.chain, o.token, at);
        if x.None? then
          Attempts(book, cfg, o, draw,
                   l.(status := UnavailableMarketState, reason := NoSnapshotAtFillTime, quality := NonResearchValid),
                   attempt + 1, max)
        else
          var fill := FillOf(cfg, o, x.value);
          var l' := Filled(cfg, l, x.value, fill, at);
          if IsFill(fill.status) then l' else Attempts(book, cfg, o, draw, l', attempt + 1, max)
  }

  function Simulated(book: SnapshotBook, cfg: SimConfig, o: Order, draw: Draw): ExecutionResult
    requires ConfigOk(cfg)
  {
    Attempts(book, cfg, o, draw, Empty(cfg, o), 0, MaxAttempts(cfg.retry, o.isEntry, o.emergency))
  }

  /** The retry loop, which overwrites the fields of one result as it goes. */
  method SimulateSide(book: SnapshotBook, cfg: SimConfig, o: Order, draw: Draw) returns (last: ExecutionResult)
    requires ConfigOk(cfg)
    ensures last == Simulated(book, cfg, o, draw)
  {
    hide FillTime, Fails, At, FillOf, Empty, MaxAttempts;
    var max := MaxAttempts(cfg.retry, o.isEntry, o.emergency);
    last := Empty(cfg, o);
    var attempt := 0;
    while attempt < max
      invariant 0 <= attempt <= max
      invariant Attempts(book, cfg, o, draw, last, attempt, max) == Simulated(book, cfg, o, draw)
    {
      var at := FillTime(cfg, o, attempt);
      last := last.(eligible := at, attempt := attempt + 1);
      if at > book.asOf {
        last := last.(status := NoFill, reason := FillTimeNotYetAvailable, quality := Modelled);
        break;
      }
      if Fails(cfg, o, draw, attempt) {
        last := last.(status := Failed, reason := SeededFailure, quality := Modelled, fillTime := Some(at));
        attempt := attempt + 1;
        continue;
      }
      var x := At(book, o.chain, o.token, at);
      if x.None? {
        last := last.(status := UnavailableMarketState, reason := NoSnapshotAtFillTime, quality := NonResearchValid);
        attempt := attempt + 1;
        continue;
      }
      var fill := FillOf(cfg, o, x.value);
      last := Filled(cfg, last, x.value, fill, at);
      if IsFill(fill.status) {
        return;
      }
      attempt := attempt + 1;
    }
    last := last.(researchValid := false);
  }

  // ---------------------------------------------------------------- no lookahead

  /** Both books may be read up to `horizon` and show the same snapshots up to it, in the same order. */
  predicate AgreeUpTo(a: SnapshotBook, b: SnapshotBook, horizon: int) {
    horizon <= a.asOf && horizon <= b.asOf && Shown(a.snapshots, horizon) == Shown(b.snapshots, horizon)
  }

  predicate Within(cfg: SimConfig, o: Order, horizon: int)
    requires ConfigOk(cfg)
  {
    forall n :: 0 <= n < MaxAttempts(cfg.retry, o.isEntry, o.emergency) ==> FillTime(cfg, o, n) <= horizon
  }

  /** With retries that do not go back in time, the last attempt's fill time bounds them all. */
  lemma LastAttemptIsLatest(cfg: SimConfig, o: Order)
    requires ConfigOk(cfg) && cfg.retry.delay >= 0
    ensures MaxAttempts(cfg.retry, o.isEntry, o.emergency) > 0
    ensures Within(cfg, o, FillTime(cfg, o, MaxAttempts(cfg.retry, o.isEntry, o.emergency) - 1))
  {
    var max := MaxAttempts(cfg.retry, o.isEntry, o.emergency);
    forall n | 0 <= n < max ensures FillTime(cfg, o, n) <= FillTime(cfg, o, max - 1) {
      MulMono(n, max - 1, cfg.retry.delay);
    }
  }

  /** An emergency exit waits at least 50 ms, and no longer than an ordinary one that does. */
  lemma EmergencyIsFaster(cfg: SimConfig, chain: Chain)
    requires ConfigOk(cfg)
    ensures Delay(cfg, chain, true) >= 50
    ensures Delay(cfg, chain, false) >= 50 ==> Delay(cfg, chain, true) <= Delay(cfg, chain, false)
  {
  }

  lemma DefaultDelaysGiven(scenario: Latency, chain: Chain, latency: Latency)
    ensures (chain, latency) in DefaultDelays(scenario).delays
    ensures 500 <= DefaultDelays(scenario).delays[(chain, latency)] <= 8_000
  {
    assert chain == Solana || chain == Chain.Base || chain == Robinhood;
    assert latency == Fast || latency == Latency.Base || latency == Slow;
  }

  lemma DefaultDelayBound(cfg: SimConfig, scenario: Latency, chain: Chain, emergency: bool)
    requires cfg.delay == DefaultDelays(scenario) && FeesFit(cfg.fees)
    ensures ConfigOk(cfg) && 50 <= Delay(cfg, chain, emergency) <= 8_000
  {
    hide DefaultDelays;
    forall c: Chain, l: Latency ensures (c, l) in cfg.delay.delays {
      DefaultDelaysGiven(scenario, c, l);
    }
    DefaultDelaysGiven(scenario, chain, cfg.delay.scenario);
    EmergencyIsFaster(cfg, chain);
  }

  /** With the default delays and retries, everything an order does is over 9200 ms after its decision. */
  lemma DefaultHorizon(cfg: SimConfig, scenario: Latency, o: Order)
    requires cfg.delay == DefaultDelays(scenario) && cfg.retry == DefaultRetries() && FeesFit(cfg.fees)
    ensures ConfigOk(cfg) && Within(cfg, o, o.decision + 9_200)
  {
    hide DefaultDelays, Delay, DelaysGiven;
    DefaultDelayBound(cfg, scenario, o.chain, o.emergency);
    LastAttemptIsLatest(cfg, o);
    var last := MaxAttempts(cfg.retry, o.isEntry, o.emergency) - 1;
    MulMono(last, 3, 400);
  }

  lemma {:induction false} AttemptsAgree(a: SnapshotBook, b: SnapshotBook, cfg: SimConfig, o: Order, draw: Draw,
                                         last: ExecutionResult, attempt: nat, max: nat, horizon: int)
    requires ConfigOk(cfg) && attempt <= max && AgreeUpTo(a, b, horizon)
    requires forall n :: 0 <= n < max ==> FillTime(cfg, o, n) <= horizon
    ensures Attempts(a, cfg, o, draw, last, attempt, max) == Attempts(b, cfg, o, draw, last, attempt, max)
    decreases max - attempt
  {
    hide FillTime, Fails, FillOf, Latest, Shown;
    if attempt < max {
      var at := FillTime(cfg, o, attempt);
      LaterIsUnseen(a.snapshots, o.chain, o.token, at, horizon);
      LaterIsUnseen(b.snapshots, o.chain, o.token, at, horizon);
      var l := last.(eligible := at, attempt := attempt + 1);
      var failed := l.(status := Failed, reason := SeededFailure, quality := Modelled, fillTime := Some(at));
      var missing := l.(status := UnavailableMarketState, reason := NoSnapshotAtFillTime, quality := NonResearchValid);
      var x := At(a, o.chain, o.token, at);
      if Fails(cfg, o, draw, attempt) {
        AttemptsAgree(a, b, cfg, o, draw, failed, attempt + 1, max, horizon);
      } else if x.None? {
        AttemptsAgree(a, b, cfg, o, draw, missing, attempt + 1, max, horizon);
      } else {
        AttemptsAgree(a, b, cfg, o, draw, Filled(cfg, l, x.value, FillOf(cfg, o, x.value), at), attempt + 1, max,
          horizon);
      }
    }
  }

  /** Execution does not look ahead: books that differ only after the last possible fill time give the
      same result, field by field. */
  lemma NoLookahead(a: SnapshotBook, b: SnapshotBook, cfg: SimConfig, o: Order, draw: Draw, horizon: int)
    requires ConfigOk(cfg) && Within(cfg, o, horizon) && AgreeUpTo(a, b, horizon)
    ensures Simulated(a, cfg, o, draw) == Simulated(b, cfg, o, draw)
  {
    AttemptsAgree(a, b, cfg, o, draw, Empty(cfg, o), 0, MaxAttempts(cfg.retry, o.isEntry, o.emergency), horizon);
  }

  // ------------------------------------------------ when the data end sooner

  lemma FillTimesGrow(cfg: SimConfig, o: Order, n: nat, m: nat)
    requires ConfigOk(cfg) && cfg.retry.delay >= 0 && n <= m
    ensures FillTime(cfg, o, n) <= FillTime(cfg, o, m)
  {
    MulMono(n, m, cfg.retry.delay);
  }

  lemma {:induction false} LaterAttempts(book: SnapshotBook, cfg: SimConfig, o: Order, draw: Draw,
                                         last: ExecutionResult, attempt: nat, max: nat, bound: int)
    requires ConfigOk(cfg) && attempt <= max && !IsFill(last.status)
    requires forall n :: attempt <= n < max ==> FillTime(cfg, o, n) > bound
    ensures var r := Attempts(book, cfg, o, draw, last, attempt, max);
      IsFill(r.status) ==> r.fillTime.Some? && r.fillTime.value > bound
    decreases max - attempt
  {
    hide FillTime, Fails, FillOf, At;
    if attempt < max {
      var at := FillTime(cfg, o, attempt);
      var l := last.(eligible := at, attempt := attempt + 1);
      var x := At(book, o.chain, o.token, at);
      if Fails(cfg, o, draw, attempt) {
        LaterAttempts(book, cfg, o, draw,
          l.(status := Failed, reason := SeededFailure, quality := Modelled, fillTime := Some(at)), attempt + 1, max,
          bound);
      } else if x.None? {
        LaterAttempts(book, cfg, o, draw,
          l.(status := UnavailableMarketState, reason := NoSnapshotAtFillTime, quality := NonResearchValid),
          attempt + 1, max, bound);
      } else if !IsFill(FillOf(cfg, o, x.value).status) {
        LaterAttempts(book, cfg, o, draw, Filled(cfg, l, x.value, FillOf(cfg, o, x.value), at), attempt + 1, max,
          bound);
      }
    }
  }

  lemma {:induction false} AttemptsCut(a: SnapshotBook, b: SnapshotBook, cfg: SimConfig, o: Order, draw: Draw,
                                       last: ExecutionResult, attempt: nat, max: nat)
    requires ConfigOk(cfg) && cfg.retry.delay >= 0 && attempt <= max && !IsFill(last.status)
    requires AgreeUpTo(a, b, b.asOf)
    ensures var r, cut := Attempts(a, cfg, o, draw, last, attempt, max), Attempts(b, cfg, o, draw, last, attempt, max);
      (IsFill(cut.status) <==> IsFill(r.status) && r.fillTime.Some? && r.fillTime.value <= b.asOf)
      && (IsFill(cut.status) ==> cut == r)
    decreases max - attempt
  {
    hide FillTime, Fails, FillOf, Latest, Shown;
    if attempt < max {
      var at := FillTime(cfg, o, attempt);
      if at > b.asOf {
        forall n | attempt <= n < max ensures FillTime(cfg, o, n) > b.asOf {
          FillTimesGrow(cfg, o, attempt, n);
        }
        LaterAttempts(a, cfg, o, draw, last, attempt, max, b.asOf);
      } else {
        LaterIsUnseen(a.snapshots, o.chain, o.token, at, b.asOf);
        LaterIsUnseen(b.snapshots, o.chain, o.token, at, b.asOf);
        var l := last.(eligible := at, attempt := attempt + 1);
        var failed := l.(status := Failed, reason := SeededFailure, quality := Modelled, fillTime := Some(at));
        var missing := l.(status := UnavailableMarketState, reason := NoSnapshotAtFillTime,
                          quality := NonResearchValid);
        var x := At(a, o.chain, o.token, at);
        if Fails(cfg, o, draw, attempt) {
          AttemptsCut(a, b, cfg, o, draw, failed, attempt + 1, max);
        } else if x.None? {
          AttemptsCut(a, b, cfg, o, draw, missing, attempt + 1, max);
        } else if !IsFill(FillOf(cfg, o, x.value).status) {
          AttemptsCut(a, b, cfg, o, draw, Filled(cfg, l, x.value, FillOf(cfg, o, x.value), at), attempt + 1, max);
        }
      }
    }
  }

  /** Data that end sooner give the same fill, if it came by then, and no fill otherwise. */
  lemma CutBook(a: SnapshotBook, b: SnapshotBook, cfg: SimConfig, o: Order, draw: Draw)
    requires ConfigOk(cfg) && cfg.retry.delay >= 0 && AgreeUpTo(a, b, b.asOf)
    ensures var r, cut := Simulated(a, cfg, o, draw), Simulated(b, cfg, o, draw);
      (IsFill(cut.status) <==> IsFill(r.status) && r.fillTime.Some? && r.fillTime.value <= b.asOf)
      && (IsFill(cut.status) ==> cut == r)
  {
    hide Attempts, MaxAttempts;
    AttemptsCut(a, b, cfg, o, draw, Empty(cfg, o), 0, MaxAttempts(cfg.retry, o.isEntry, o.emergency));
  }

  // ---------------------------------------------------------------- what a result says

  /** The fill an attempt would get: none on a seeded failure or without a snapshot. */
  function Tried(book: SnapshotBook, cfg: SimConfig, o: Order, draw: Draw, attempt: nat): Option<VenueFill>
    requires ConfigOk(cfg)
  {
    var x := At(book, o.chain, o.token, FillTime(cfg, o, attempt));
    if Fails(cfg, o, draw, attempt) || x.None? then None else Some(FillOf(cfg, o, x.value))
  }

  predicate Fills(book: SnapshotBook, cfg: SimConfig, o: Order, draw: Draw, attempt: nat)
    requires ConfigOk(cfg)
  {
    FillTime(cfg, o, attempt) <= book.asOf
    && var f := Tried(book, cfg, o, draw, attempt); f.Some? && IsFill(f.value.status)
  }

  /** Reached only through attempts that could be observed and did not fill. */
  predicate Reached(book: SnapshotBook, cfg: SimConfig, o: Order, draw: Draw, attempt: nat)
    requires ConfigOk(cfg)
  {
    forall n :: 0 <= n < attempt ==> FillTime(cfg, o, n) <= book.asOf && !Fills(book, cfg, o, draw, n)
  }

  predicate NothingFilled(r: ExecutionResult) {
    r.filledToken == 0 && r.filledQuote == 0 && r.protocolFee == 0 && r.snipeTax == 0 && r.fraction == 0
  }

  /** The result of filling at attempt `n`: at its own fill time, from the latest snapshot not after it. */
  ghost predicate FilledAt(book: SnapshotBook, cfg: SimConfig, o: Order, draw: Draw, r: ExecutionResult, n: nat)
    requires ConfigOk(cfg)
  {
    && Reached(book, cfg, o, draw, n) && Fills(book, cfg, o, draw, n)
    && r.attempt == n + 1 && r.fillTime == Some(FillTime(cfg, o, n)) && r.eligible == FillTime(cfg, o, n)
    && var x := At(book, o.chain, o.token, FillTime(cfg, o, n));
       var f := Tried(book, cfg, o, draw, n);
       && x.Some? && f.Some? && r.snapshotId == x.value.id
       && r.filledToken == f.value.token && r.filledQuote == f.value.quote && r.status == f.value.status
       && r.protocolFee == f.value.protocolFee && r.snipeTax == f.value.snipeTax
       && (r.researchValid ==> x.value.complete && !r.quality.NonResearchValid? && !r.quality.PartialState?)
  }

  lemma {:induction false} AttemptsOutcome(book: SnapshotBook, cfg: SimConfig, o: Order, draw: Draw,
                                           last: ExecutionResult, attempt: nat, max: nat)
    requires ConfigOk(cfg) && attempt <= max
    requires NothingFilled(last) && !IsFill(last.status) && Reached(book, cfg, o, draw, attempt)
    ensures var r := Attempts(book, cfg, o, draw, last, attempt, max);
      if IsFill(r.status) then attempt < r.attempt <= max && FilledAt(book, cfg, o, draw, r, r.attempt - 1)
      else
        && NothingFilled(r) && !r.researchValid
        && (Reached(book, cfg, o, draw, max)
            || exists n :: 0 <= n < max && Reached(book, cfg, o, draw, n) && FillTime(cfg, o, n) > book.asOf)
    decreases max - attempt
  {
    hide FillTime, Fails, FillOf, At;
    if attempt < max {
      var at := FillTime(cfg, o, attempt);
      var l := last.(eligible := at, attempt := attempt + 1);
      if at <= book.asOf {
        var x := At(book, o.chain, o.token, at);
        if Fails(cfg, o, draw, attempt) {
          AttemptsOutcome(book, cfg, o, draw,
                          l.(status := Failed, reason := SeededFailure, quality := Modelled, fillTime := Some(at)),
                            attempt + 1, max);
        } else if x.None? {
          AttemptsOutcome(book, cfg, o, draw,
                          l.(status := UnavailableMarketState, reason := NoSnapshotAtFillTime,
                            quality := NonResearchValid),
                          attempt + 1, max);
        } else {
          FillIsHonest(cfg, o, x.value);
          var fill := FillOf(cfg, o, x.value);
          if !IsFill(fill.status) {
            AttemptsOutcome(book, cfg, o, draw, Filled(cfg, l, x.value, fill, at), attempt + 1, max);
          }
        }
      }
    }
  }

  lemma FillIsHonest(cfg: SimConfig, o: Order, x: Observation)
    requires ConfigOk(cfg)
    ensures var f := FillOf(cfg, o, x);
      if IsFill(f.status) then
        f.token > 0 && f.reason.None?
        && (if o.side.Buy? then f.quote <= o.amount else f.token == o.amount && f.quote > 0)
      else f.token == 0 && f.quote == 0 && f.protocolFee == 0 && f.snipeTax == 0 && f.fraction == 0
  {
    hide ExecutableFill;
    VenueFillsAreHonest(x.view, o.side, o.amount, cfg.fees, cfg.adverseBps, cfg.maxSlipBps, cfg.allowSnipeWindow);
  }

  /** An order fills at the first attempt that can fill before an unobservable one, from the latest snapshot
      not after that attempt's own time; otherwise nothing is filled, whatever the earlier attempts left. */
  lemma FirstFillOrNothing(book: SnapshotBook, cfg: SimConfig, o: Order, draw: Draw)
    requires ConfigOk(cfg)
    ensures var r := Simulated(book, cfg, o, draw);
            var max := MaxAttempts(cfg.retry, o.isEntry, o.emergency);
      && (IsFill(r.status) ==> 0 < r.attempt <= max && FilledAt(book, cfg, o, draw, r, r.attempt - 1))
      && (!IsFill(r.status) ==> NothingFilled(r) && !r.researchValid)
      && (IsFill(r.status)
         <==> exists n :: 0 <= n < max && Reached(book, cfg, o, draw, n) && Fills(book, cfg, o, draw, n))
      && (IsFill(r.status) ==> if o.side.Buy? then r.filledQuote <= o.amount && r.filledToken > 0
                               else r.filledToken == o.amount && r.filledQuote > 0)
  {
    hide FillTime, Fails, FillOf, At, Attempts, MaxAttempts;
    var max := MaxAttempts(cfg.retry, o.isEntry, o.emergency);
    var r := Simulated(book, cfg, o, draw);
    AttemptsOutcome(book, cfg, o, draw, Empty(cfg, o), 0, max);
    if IsFill(r.status) {
      FillIsHonest(cfg, o, At(book, o.chain, o.token, FillTime(cfg, o, r.attempt - 1)).value);
    }
  }
}
