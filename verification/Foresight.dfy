/** What the decisions of a historical run may already know: nothing later than themselves, once earlier orders are
    over. Before that they can: a position is there as soon as its buy is placed, and can be sold before it fills. */
module Foresight {
  import opened Amounts
  import opened Domain
  import opened Impact
  import opened Execution
  import opened Position
  import opened Harness
  import opened RunNoLookahead
  import opened TokenBooks
  import opened TokenRuns

  // ---------------------------------------------------------------- decisions

  /** What is decided at a snapshot, whether to enter and what to sell of each position held, depends on nothing later
      than the snapshot, once the orders of the snapshots before it are over: not on how its own orders end. */
  lemma DecisionsDoNotLookAhead(u: Setup, v: Setup, draw: Draw, n: nat, until: int)
    requires SetupOk(u) && SetupOk(v) && SameUpTo(u, v, until) && InTimeOrder(u.snaps) && InTimeOrder(v.snaps)
    requires n < |u.snaps| && u.snaps[n].view.time <= until
    requires forall i :: 0 <= i < n ==> Settles(u.cfg, u.snaps[i], until)
    ensures n < |v.snaps| && u.snaps[n] == v.snaps[n] && RunTo(u, draw, n) == RunTo(v, draw, n)
    ensures var s, st := u.snaps[n], RunTo(u, draw, n);
      && (Enters(u, s, draw, st.entered) <==> Enters(v, s, draw, st.entered))
      && forall p :: p in st.stands ==> Signal(u, s, MarkedAt(u, s, p)) == Signal(v, s, MarkedAt(v, s, p))
  {
    hide RunTo, Within, SetupOk, Known, Shown, SameEligible, Enters, Signal, MarkedAt;
    RunDoesNotLookAhead(u, v, draw, n, until);
    ShownFirst(u.snaps, until);
    ShownFirst(v.snaps, until);
    assert Shown(u.snaps, until)[n] == u.snaps[n] && Shown(v.snaps, until)[n] == v.snaps[n];
    hide SameUpTo, Settles, InTimeOrder;
    var s, st := u.snaps[n], RunTo(u, draw, n);
    SameEntry(u, v, s, draw, st.entered, until);
    forall p | p in st.stands ensures Signal(u, s, MarkedAt(u, s, p)) == Signal(v, s, MarkedAt(v, s, p)) {
      SameSignal(u, v, s, p, until);
      SameSignal(u, v, s, MarkedAt(u, s, p), until);
    }
  }

  // ---------------------------------------------------------------- exactly when, for one token

  /** An order whose fill was still to come at that time. */
  predicate FillsAfter(o: SimulatedOrder, t: int) {
    IsFill(o.result.status) && o.result.fillTime.Some? && o.result.fillTime.value > t
  }

  ghost predicate NoneFillsAfter(orders: seq<SimulatedOrder>, t: int) {
    forall o :: o in orders ==> !FillsAfter(o, t)
  }

  /** The same setup, of which only the data up to that time are known. */
  ghost predicate KnownAt(u: Setup, v: Setup, t: int) {
    SetupOk(u) && SetupOk(v) && SameUpTo(u, v, t) && End(v) == t && u.cfg.retry.delay >= 0
  }

  lemma CutOrder(u: Setup, v: Setup, o: Order, draw: Draw, t: int)
    requires KnownAt(u, v, t)
    ensures var r, cut := Simulated(Book(u), u.cfg, o, draw), Simulated(Book(v), v.cfg, o, draw);
      if IsFill(r.status) && !(r.fillTime.Some? && r.fillTime.value > t) then cut == r else !IsFill(cut.status)
  {
    hide Simulated;
    CutBook(Book(u), Book(v), u.cfg, o, draw);
    FirstFillOrNothing(Book(u), u.cfg, o, draw);
  }

  lemma OneAppended(orders: seq<SimulatedOrder>, o: SimulatedOrder, t: int)
    ensures NoneFillsAfter((orders + [o])[|orders|..], t) <==> !FillsAfter(o, t)
  {
    assert (orders + [o])[|orders|..] == [o];
  }

  lemma EnterExactly(u: Setup, v: Setup, s: Observation, draw: Draw, a: OwnState, b: OwnState, t: int)
    requires KnownAt(u, v, t) && s.view.time <= t && a.stand == b.stand
    ensures var a', b' := OwnEnter(u, s, draw, a), OwnEnter(v, s, draw, b);
      && a.orders <= a'.orders && (a'.stand == b'.stand <==> NoneFillsAfter(a'.orders[|a.orders|..], t))
      && (a'.stand != b'.stand ==> a'.stand.Some? && b'.stand.None?)
  {
    hide Simulated, Enters, SetupOk, SameUpTo;
    SameEntry(u, v, s, draw, OwnEntered(IdOf(s), a), t);
    if Enters(u, s, draw, OwnEntered(IdOf(s), a)) {
      var o := Bought(u, s, draw, 0);
      CutOrder(u, v, EntryOrder(u, s), draw, t);
      SameNotional(u, v, t);
      OneAppended(a.orders, Unnumbered(o), t);
      NotEntered(u, s, draw, a);
    }
  }

  lemma SameNotional(u: Setup, v: Setup, t: int)
    requires SameUpTo(u, v, t)
    ensures u.notional == v.notional && u.cfg == v.cfg
  {
  }

  lemma NotEntered(u: Setup, s: Observation, draw: Draw, st: OwnState)
    requires Enters(u, s, draw, OwnEntered(IdOf(s), st))
    ensures st.stand.None?
  {
  }

  /** A fill sells something of what is held. */
  lemma FillReduces(u: Setup, s: Observation, draw: Draw, p: Stand, sig: ExitSignal)
    requires SetupOk(u) && Signal(u, s, p) == Some(sig)
    ensures var r := Simulated(Book(u), u.cfg, ExitOrder(s, sig), draw);
      if IsFill(r.status) then ExitedStand(p, r) != p else ExitedStand(p, r) == p
  {
    hide Simulated, MarkExitQuote, Security;
    var r := Simulated(Book(u), u.cfg, ExitOrder(s, sig), draw);
    FirstFillOrNothing(Book(u), u.cfg, ExitOrder(s, sig), draw);
    if IsFill(r.status) {
      FillSells(u, ExitOrder(s, sig), draw);
      SignalsAreAffordable(u.exit, u.cfg.fees, p, s.view, Security(u, s), Some(Flow(s)));
    }
  }

  lemma FillSells(u: Setup, o: Order, draw: Draw)
    requires SetupOk(u) && IsFill(Simulated(Book(u), u.cfg, o, draw).status)
    ensures Simulated(Book(u), u.cfg, o, draw).filledToken > 0
  {
    hide Simulated, FillOf, At, Fails;
    FirstFillOrNothing(Book(u), u.cfg, o, draw);
    var r := Simulated(Book(u), u.cfg, o, draw);
    FillIsHonest(u.cfg, o, At(Book(u), o.chain, o.token, FillTime(u.cfg, o, r.attempt - 1)).value);
  }

  lemma ExitExactly(u: Setup, v: Setup, s: Observation, draw: Draw, a: OwnState, b: OwnState, t: int)
    requires KnownAt(u, v, t) && s.view.time <= t && a.stand == b.stand
    ensures var a', b' := OwnExit(u, s, draw, a), OwnExit(v, s, draw, b);
      a.orders <= a'.orders && (a'.stand == b'.stand <==> NoneFillsAfter(a'.orders[|a.orders|..], t))
  {
    hide Simulated, Signal, SetupOk, SameUpTo, MarkedAt, ExitedStand;
    assert a.orders[|a.orders|..] == [];
    if a.stand.Some? {
      var p := MarkedAt(u, s, a.stand.value);
      SameSignal(u, v, s, a.stand.value, t);
      SameSignal(u, v, s, p, t);
      if Signal(u, s, p).Some? {
        var sig := Signal(u, s, p).value;
        CutOrder(u, v, ExitOrder(s, sig), draw, t);
        FillReduces(u, s, draw, p, sig);
        FillReduces(v, s, draw, p, sig);
        OneAppended(a.orders, Unnumbered(SoldOrder(u, s, draw, sig, 0)), t);
      }
    }
  }

  lemma ExitStays(u: Setup, s: Observation, draw: Draw, st: OwnState)
    requires SetupOk(u)
    ensures OwnExit(u, s, draw, st).stand.Some? <==> st.stand.Some?
    ensures st.orders <= OwnExit(u, s, draw, st).orders
  {
    hide Simulated, SetupOk, Signal, MarkedAt, ExitedStand;
  }

  lemma NewOrders(a: seq<SimulatedOrder>, b: seq<SimulatedOrder>, c: seq<SimulatedOrder>, t: int)
    requires a <= b <= c
    ensures NoneFillsAfter(c[|a|..], t) <==> NoneFillsAfter(b[|a|..], t) && NoneFillsAfter(c[|b|..], t)
    ensures NoneFillsAfter(c, t) <==> NoneFillsAfter(b, t) && NoneFillsAfter(c[|b|..], t)
  {
    hide FillsAfter;
    assert c[|a|..] == b[|a|..] + c[|b|..] && c == b + c[|b|..];
  }

  lemma StepExactly(u: Setup, v: Setup, s: Observation, draw: Draw, k: TokenId, a: OwnState, b: OwnState, t: int)
    requires KnownAt(u, v, t) && s.view.time <= t && a.stand == b.stand
    ensures var a', b' := OwnStep(u, s, draw, k, a), OwnStep(v, s, draw, k, b);
      a.orders <= a'.orders && (a'.stand == b'.stand <==> NoneFillsAfter(a'.orders[|a.orders|..], t))
  {
    hide OwnEnter, OwnExit, NoneFillsAfter, SetupOk, SameUpTo;
    if IdOf(s) == k {
      EnterExactly(u, v, s, draw, a, b, t);
      var ea, eb := OwnEnter(u, s, draw, a), OwnEnter(v, s, draw, b);
      ExitStays(u, s, draw, ea);
      ExitStays(v, s, draw, eb);
      NewOrders(a.orders, ea.orders, OwnExit(u, s, draw, ea).orders, t);
      if ea.stand == eb.stand {
        ExitExactly(u, v, s, draw, ea, eb, t);
      }
    } else {
      NoNew(a.orders, t);
    }
  }

  lemma NoNew(orders: seq<SimulatedOrder>, t: int)
    ensures NoneFillsAfter(orders[|orders|..], t)
  {
  }

  /** The token's position has been the same at every snapshot so far. */
  ghost predicate SameSoFar(u: Setup, v: Setup, draw: Draw, k: TokenId, n: nat)
    requires SetupOk(u) && SetupOk(v) && n <= |u.snaps| && n <= |v.snaps|
  {
    forall j :: 0 <= j <= n ==> OwnRun(u, draw, k, j).stand == OwnRun(v, draw, k, j).stand
  }

  lemma {:induction false} OwnExactly(u: Setup, v: Setup, draw: Draw, k: TokenId, n: nat, t: int)
    requires KnownAt(u, v, t) && n <= |u.snaps| && n <= |v.snaps|
    requires forall i :: 0 <= i < n ==> u.snaps[i] == v.snaps[i] && u.snaps[i].view.time <= t
    ensures SameSoFar(u, v, draw, k, n) <==> NoneFillsAfter(OwnRun(u, draw, k, n).orders, t)
  {
    hide OwnStep, FillsAfter, SetupOk, SameUpTo;
    if n > 0 {
      OwnExactly(u, v, draw, k, n - 1, t);
      var a, b := OwnRun(u, draw, k, n - 1), OwnRun(v, draw, k, n - 1);
      OwnOnlyAdds(u, u.snaps[n - 1], draw, k, a);
      NewOrders(a.orders, a.orders, OwnRun(u, draw, k, n).orders, t);
      if a.stand == b.stand {
        StepExactly(u, v, u.snaps[n - 1], draw, k, a, b, t);
      }
    }
  }

  lemma OwnOnlyAdds(u: Setup, s: Observation, draw: Draw, k: TokenId, st: OwnState)
    requires SetupOk(u)
    ensures st.orders <= OwnStep(u, s, draw, k, st).orders
  {
    hide Simulated, SetupOk, Enters, OwnExit;
    ExitStays(u, s, draw, OwnEnter(u, s, draw, st));
  }

  lemma SameFirst(u: Setup, v: Setup, n: nat, t: int)
    requires SetupOk(u) && SameUpTo(u, v, t) && InTimeOrder(u.snaps) && InTimeOrder(v.snaps) && n <= |u.snaps|
    requires forall i :: 0 <= i < n ==> u.snaps[i].view.time <= t
    ensures n <= |v.snaps| && forall i :: 0 <= i < n ==> u.snaps[i] == v.snaps[i]
  {
    hide Shown, Known, SameEligible;
    ShownFirst(u.snaps, t);
    ShownFirst(v.snaps, t);
    var shown := Shown(u.snaps, t);
    assert n <= |shown| by { if n > 0 { assert u.snaps[n - 1].view.time <= t; } }
    assert forall i :: 0 <= i < n ==> u.snaps[i] == shown[i] == v.snaps[i];
  }

  lemma {:induction false} InOrdersFor(orders: seq<SimulatedOrder>, k: TokenId, t: int)
    ensures NoneFillsAfter(OrdersFor(orders, k), t)
      <==> forall o :: o in orders && (o.chain, o.token) == k ==> !FillsAfter(o, t)
  {
    if orders != [] {
      var front, o := orders[..|orders| - 1], orders[|orders| - 1];
      InOrdersFor(front, k, t);
      assert orders == front + [o];
      assert FillsAfter(Unnumbered(o), t) <==> FillsAfter(o, t);
    }
  }

  /** Exactly when a run looks ahead: a token's position has been, at every snapshot so far, what it is when the data
      end at that time, exactly when no order placed for it had its fill still to come, whatever was pending for
      other tokens. */
  lemma LooksAheadExactly(u: Setup, v: Setup, draw: Draw, k: TokenId, n: nat, t: int)
    requires KnownAt(u, v, t) && InTimeOrder(u.snaps) && InTimeOrder(v.snaps) && n <= |u.snaps|
    requires forall i :: 0 <= i < n ==> u.snaps[i].view.time <= t
    ensures n <= |v.snaps|
    ensures (forall j :: 0 <= j <= n ==> StandOf(RunTo(u, draw, j).stands, k) == StandOf(RunTo(v, draw, j).stands, k))
       <==> forall o :: o in RunTo(u, draw, n).orders && (o.chain, o.token) == k ==> !FillsAfter(o, t)
  {
    hide RunTo, OwnRun, StandOf, OrdersFor, NoneFillsAfter, FillsAfter, SetupOk, SameUpTo, InTimeOrder;
    SameFirst(u, v, n, t);
    OwnExactly(u, v, draw, k, n, t);
    forall j: nat | j <= n
      ensures StandOf(RunTo(u, draw, j).stands, k) == StandOf(RunTo(v, draw, j).stands, k)
         <==> OwnRun(u, draw, k, j).stand == OwnRun(v, draw, k, j).stand
    {
      OwnStand(u, draw, k, j);
      OwnStand(v, draw, k, j);
    }
    if SameSoFar(u, v, draw, k, n) {
      forall j: nat | j <= n ensures StandOf(RunTo(u, draw, j).stands, k) == StandOf(RunTo(v, draw, j).stands, k) {
        assert OwnRun(u, draw, k, j).stand == OwnRun(v, draw, k, j).stand;
      }
    } else {
      var j: nat :| j <= n && OwnRun(u, draw, k, j).stand != OwnRun(v, draw, k, j).stand;
      assert StandOf(RunTo(u, draw, j).stands, k) != StandOf(RunTo(v, draw, j).stands, k);
    }
    OwnStand(u, draw, k, n);
    InOrdersFor(RunTo(u, draw, n).orders, k, t);
  }

  /** Then what is decided about the token is decided on what was known: whether to enter it, and what to sell. */
  lemma DecidesOnWhatIsKnown(u: Setup, v: Setup, draw: Draw, n: nat, t: int)
    requires KnownAt(u, v, t) && InTimeOrder(u.snaps) && InTimeOrder(v.snaps) && n < |u.snaps|
    requires u.snaps[n].view.time <= t
    requires forall o :: o in RunTo(u, draw, n).orders && (o.chain, o.token) == IdOf(u.snaps[n]) ==> !FillsAfter(o, t)
    ensures n < |v.snaps| && u.snaps[n] == v.snaps[n]
    ensures var s, a, b := u.snaps[n], RunTo(u, draw, n), RunTo(v, draw, n);
      && (Enters(u, s, draw, a.entered) <==> Enters(v, s, draw, b.entered))
      && StandOf(a.stands, IdOf(s)) == StandOf(b.stands, IdOf(s))
      && forall p :: Signal(u, s, MarkedAt(u, s, p)) == Signal(v, s, MarkedAt(v, s, p))
  {
    hide RunTo, OwnRun, StandOf, FillsAfter, SetupOk, SameUpTo, Signal, MarkedAt;
    var s, k := u.snaps[n], IdOf(u.snaps[n]);
    assert forall i :: 0 <= i < n ==> u.snaps[i].view.time <= t;
    hide InTimeOrder;
    SameFirst(u, v, n + 1, t);
    LooksAheadExactly(u, v, draw, k, n, t);
    OwnStand(u, draw, k, n);
    OwnStand(v, draw, k, n);
    SameEntry(u, v, s, draw, RunTo(u, draw, n).entered, t);
    OnlyItsOwn(v, s, draw, RunTo(u, draw, n).entered, RunTo(v, draw, n).entered);
    forall p ensures Signal(u, s, MarkedAt(u, s, p)) == Signal(v, s, MarkedAt(v, s, p)) {
      SameSignal(u, v, s, p, t);
      SameSignal(u, v, s, MarkedAt(u, s, p), t);
    }
  }

  lemma OnlyItsOwn(u: Setup, s: Observation, draw: Draw, a: set<TokenId>, b: set<TokenId>)
    requires IdOf(s) in a <==> IdOf(s) in b
    ensures Enters(u, s, draw, a) <==> Enters(u, s, draw, b)
  {
  }

  // ---------------------------------------------------------------- a sell before its buy

  /** When some attempt of an exit is over before some attempt of its entry: exactly when the exit is decided so soon
      after the entry that a quicker exit, or a repeated entry, makes up for it. */
  lemma CanSellFirstExactly(u: Setup, s: Observation, t: Observation, sig: ExitSignal)
    requires SetupOk(u) && s.chain == t.chain && u.cfg.retry.delay >= 0
    ensures var buy, sell := EntryOrder(u, s), ExitOrder(t, sig);
      var buys, sells := MaxAttempts(u.cfg.retry, true, false),
        MaxAttempts(u.cfg.retry, false, IsEmergency(sig.reason));
      buys > 0 && sells > 0
      && ((exists i, j :: 0 <= i < buys && 0 <= j < sells && FillTime(u.cfg, sell, j) < FillTime(u.cfg, buy, i))
          <==> t.view.time - s.view.time
               < Delay(u.cfg, s.chain, false) - Delay(u.cfg, s.chain, IsEmergency(sig.reason))
                 + (buys - 1) * u.cfg.retry.delay)
  {
    hide Delay, IsEmergency;
    var buy, sell := EntryOrder(u, s), ExitOrder(t, sig);
    var buys, sells := MaxAttempts(u.cfg.retry, true, false), MaxAttempts(u.cfg.retry, false, IsEmergency(sig.reason));
    forall i, j | 0 <= i < buys && 0 <= j < sells
      ensures FillTime(u.cfg, buy, i) <= FillTime(u.cfg, buy, buys - 1)
        && FillTime(u.cfg, sell, 0) <= FillTime(u.cfg, sell, j)
    {
      MulMono(i, buys - 1, u.cfg.retry.delay);
      MulMono(0, j, u.cfg.retry.delay);
    }
    assert 0 * u.cfg.retry.delay == 0;
    if FillTime(u.cfg, sell, 0) < FillTime(u.cfg, buy, buys - 1) {
      assert 0 <= buys - 1 < buys && 0 <= 0 < sells;
    }
  }

  /** Which of two filled orders of a token filled first. */
  lemma SoldFirstExactly(u: Setup, s: Observation, t: Observation, sig: ExitSignal, draw: Draw)
    requires SetupOk(u) && s.chain == t.chain
    requires IsFill(Simulated(Book(u), u.cfg, EntryOrder(u, s), draw).status)
    requires IsFill(Simulated(Book(u), u.cfg, ExitOrder(t, sig), draw).status)
    ensures var bought, sold := Simulated(Book(u), u.cfg, EntryOrder(u, s), draw),
      Simulated(Book(u), u.cfg, ExitOrder(t, sig), draw);
      && bought.fillTime.Some? && sold.fillTime.Some?
      && OpenedStand(s.chain, s.token, bought, s.creatorSells).openedAt == bought.fillTime.value
      && (sold.fillTime.value < bought.fillTime.value
          <==> t.view.time - s.view.time
               < Delay(u.cfg, s.chain, false) - Delay(u.cfg, s.chain, IsEmergency(sig.reason))
                 + (bought.attempt - 1) * u.cfg.retry.delay - (sold.attempt - 1) * u.cfg.retry.delay)
  {
    hide Simulated, Delay, IsEmergency, Reached, Fills, Tried, At;
    FirstFillOrNothing(Book(u), u.cfg, EntryOrder(u, s), draw);
    FirstFillOrNothing(Book(u), u.cfg, ExitOrder(t, sig), draw);
  }

  /** An ordinary exit of a token bought at the first attempt never fills before its buy. */
  lemma OrdinaryExitsFillAfter(u: Setup, s: Observation, t: Observation, sig: ExitSignal, draw: Draw)
    requires SetupOk(u) && s.chain == t.chain && s.view.time <= t.view.time && u.cfg.retry.delay >= 0
      && !IsEmergency(sig.reason)
    requires var bought := Simulated(Book(u), u.cfg, EntryOrder(u, s), draw);
      IsFill(bought.status) && bought.attempt == 1
    requires IsFill(Simulated(Book(u), u.cfg, ExitOrder(t, sig), draw).status)
    ensures var bought, sold := Simulated(Book(u), u.cfg, EntryOrder(u, s), draw),
      Simulated(Book(u), u.cfg, ExitOrder(t, sig), draw);
      bought.fillTime.Some? && sold.fillTime.Some? && sold.fillTime.value >= bought.fillTime.value
  {
    hide Simulated, Delay, IsEmergency;
    SoldFirstExactly(u, s, t, sig, draw);
    FirstFillOrNothing(Book(u), u.cfg, ExitOrder(t, sig), draw);
    var sold := Simulated(Book(u), u.cfg, ExitOrder(t, sig), draw);
    MulMono(0, sold.attempt - 1, u.cfg.retry.delay);
    assert 0 * u.cfg.retry.delay == 0;
  }

  // ---------------------------------------------------------------- an input on which it happens

  function Seen(time: int): Observation {
    Observation(Solana, "T", Some(time), true,
                View(time, time, UnknownPad, CurveActive,
                     BondingCurve(Some(2), Some(2), None, None, Complete), None, None),
                0, false)
  }

  function Defaults(): SimConfig {
    SimConfig(DefaultDelays(Latency.Base), DefaultFees(), 0, 0, 0, 0, DefaultRetries(), U32_MAX, false)
  }

  /** One token, entered at once; its verdict turns to a rejection 100 ms later. */
  function RejectedSoon(): Setup {
    Setup([Seen(0), Seen(100), Seen(10_000)], map[(Solana, "T") := 0],
          [Row(0, Solana, "T", Pass), Row(100, Solana, "T", Reject)], [Row(0, Solana, "T", EligibleCandidate)],
          FirstEligible, TimeExit(300_000), Defaults(), 2, 0)
  }

  lemma SetupIsOk()
    ensures ConfigOk(Defaults()) && SetupOk(RejectedSoon())
    ensures Delay(Defaults(), Solana, false) == 2_000 && Delay(Defaults(), Solana, true) == 500
  {
    hide DefaultDelays;
    assert ConfigOk(Defaults()) by {
      DefaultDelayBound(Defaults(), Latency.Base, Solana, false);
    }
    BaseDelay();
  }

  lemma BaseDelay()
    ensures (Solana, Latency.Base) in DefaultDelays(Latency.Base).delays
    ensures DefaultDelays(Latency.Base).delays[(Solana, Latency.Base)] == 2_000
      && DefaultDelays(Latency.Base).scenario == Latency.Base
  {
  }

  /** At the second snapshot the market is as it was: two for one is bought, and one is sold for something. */
  lemma BothFill(time: int)
    ensures var x := Seen(time);
      && var bought := ExecutableFill(x.view, Buy, 2, DefaultFees(), 0, U32_MAX, false);
         bought.status == Filled && bought.token == 1
    ensures ExecutableFill(Seen(time).view, Sell, 1, DefaultFees(), 0, U32_MAX, false).status == Filled
  {
    assert FeesOf(2, 0, 0) == BuyFees(0, 0, 2);
    assert Forward(2, 2, 2) == 1 && Backward(2, 2, 1) == 1;
    assert BuyFraction(1, 1) == 10_000;
    hide DivRaw, SatMul, Price, ImpactBps, FeesOf, Forward, Backward, ChargedQuote, BuyFraction;
    assert SatMul(1, 0) == 0 && DivRaw(0, BPS) == 0 by { ZeroRate(); }
  }

  /** An order whose first attempt can fill does so. */
  lemma FillsAtOnce(book: SnapshotBook, cfg: SimConfig, o: Order, draw: Draw, x: Observation)
    requires ConfigOk(cfg)
    ensures var r := Simulated(book, cfg, o, draw);
      MaxAttempts(cfg.retry, o.isEntry, o.emergency) > 0 && FillTime(cfg, o, 0) <= book.asOf && !Fails(cfg, o, draw, 0)
      && At(book, o.chain, o.token, FillTime(cfg, o, 0)) == Some(x) && IsFill(FillOf(cfg, o, x).status) ==>
        r.status == FillOf(cfg, o, x).status && r.filledToken == FillOf(cfg, o, x).token
        && r.fillTime == Some(FillTime(cfg, o, 0))
  {
    hide FillTime, Fails, At, FillOf, Empty, MaxAttempts;
  }

  /** The book of the run shows the second snapshot between its time and the third's. */
  lemma ShowsSecond(time: int)
    requires 100 <= time < 10_000
    ensures Book(RejectedSoon()).asOf == 10_000 && At(Book(RejectedSoon()), Solana, "T", time) == Some(Seen(100))
  {
    var snaps := [Seen(0), Seen(100), Seen(10_000)];
    assert snaps[..2] == [Seen(0), Seen(100)] && [Seen(0), Seen(100)][..1] == [Seen(0)] && [Seen(0)][..0] == [];
    assert Latest([], Solana, "T", time).None?;
    assert Latest([Seen(0)], Solana, "T", time) == Some(Seen(0));
    assert Latest([Seen(0), Seen(100)], Solana, "T", time) == Some(Seen(100));
    assert Latest(snaps, Solana, "T", time) == Some(Seen(100));
  }

  /** The buy decided at 0 fills at 2000; an emergency sell decided at 100 fills at 600. */
  lemma TheirFills(draw: Draw, sig: ExitSignal)
    requires IsEmergency(sig.reason) && sig.amount == 1
    ensures SetupOk(RejectedSoon())
    ensures var bought := Simulated(Book(RejectedSoon()), Defaults(), EntryOrder(RejectedSoon(), Seen(0)), draw);
      bought.status == Filled && bought.filledToken == 1 && bought.fillTime == Some(2_000)
    ensures var sold := Simulated(Book(RejectedSoon()), Defaults(), ExitOrder(Seen(100), sig), draw);
      sold.status == Filled && sold.fillTime == Some(600)
  {
    hide Simulated, ExecutableFill, At, Delay, DefaultDelays, IsEmergency;
    SetupIsOk();
    BothFill(100);
    ShowsSecond(2_000);
    ShowsSecond(600);
    FillsAtOnce(Book(RejectedSoon()), Defaults(), EntryOrder(RejectedSoon(), Seen(0)), draw, Seen(100));
    FillsAtOnce(Book(RejectedSoon()), Defaults(), ExitOrder(Seen(100), sig), draw, Seen(100));
  }

  lemma TheirVerdicts()
    ensures Security(RejectedSoon(), Seen(0)) == Some(Pass) && Security(RejectedSoon(), Seen(100)) == Some(Reject)
    ensures CandidateAt(RejectedSoon(), Seen(0)) == EligibleCandidate
      && EligibleSince(RejectedSoon(), Seen(0)) == Some(0)
  {
    var rows := [Row(0, Solana, "T", Pass), Row(100, Solana, "T", Reject)];
    assert rows[..1] == [Row(0, Solana, "T", Pass)] && rows[..1][..0] == [];
    assert LatestRow(rows[..1], Solana, "T", 0) == Some(Row(0, Solana, "T", Pass));
    assert LatestRow(rows[..1], Solana, "T", 100) == Some(Row(0, Solana, "T", Pass));
    assert LatestRow(rows, Solana, "T", 0) == Some(Row(0, Solana, "T", Pass));
    assert LatestRow(rows, Solana, "T", 100) == Some(Row(100, Solana, "T", Reject));
    var one := [Row(0, Solana, "T", EligibleCandidate)];
    assert one[..0] == [];
    assert LatestRow(one, Solana, "T", 0) == Some(Row(0, Solana, "T", EligibleCandidate));
  }

  /** The first snapshot: the token is entered, and nothing is asked of the new position. */
  lemma FirstSnapshot(draw: Draw)
    ensures SetupOk(RejectedSoon())
    ensures var st := RunTo(RejectedSoon(), draw, 1);
      && |st.stands| == 1 && (st.stands[0].chain, st.stands[0].token) == (Solana, "T") && st.stands[0].status.Open?
      && st.stands[0].remaining == 1 && st.stands[0].openedAt == 2_000
      && st.orders == [Bought(RejectedSoon(), Seen(0), draw, 0)] && st.entered == {(Solana, "T")}
  {
    hide Simulated, DefaultDelays, ExecutableFill, Book, LatestRow, MarkExitQuote;
    SetupIsOk();
    TheirVerdicts();
    TheirFills(draw, ExitSignal(SecurityEmergency, 1, true));
    var u, s, st := RejectedSoon(), Seen(0), RunState([], [], {});
    hide SetupOk, Security, CandidateAt, EligibleSince;
    assert u.snaps[0] == s && RunTo(u, draw, 0) == st;
    var e := EnterStep(u, s, draw, st);
    assert Enters(u, s, draw, {});
    assert e.stands == [OpenedStand(Solana, "T", Bought(u, s, draw, 0).result, 0)];
    var marked := MarkStep(u, s, e.stands);
    assert marked == [MarkedAt(u, s, e.stands[0])];
    assert Signal(u, s, marked[0]).None?;
    assert AsksOf(u, s, marked, 0) == [] && AsksOf(u, s, marked, 1) == [];
    assert RunTo(u, draw, 1) == RunStep(u, s, draw, st);
  }

  /** A token is sold before it was bought: the run's buy fills at 2000, and its sell, decided of a position that is
      not there yet, at 600. */
  lemma SoldBeforeBought(draw: Draw)
    ensures SetupOk(RejectedSoon())
    ensures var orders := RunTo(RejectedSoon(), draw, 2).orders;
      && |orders| == 2 && orders[0].side == Buy && orders[1].side == Sell && orders[1].decision == 100
      && IsFill(orders[0].result.status) && orders[0].result.fillTime == Some(2_000)
      && IsFill(orders[1].result.status) && orders[1].result.fillTime == Some(600)
  {
    hide Simulated, DefaultDelays, ExecutableFill, Book, LatestRow, MarkExitQuote, RunTo;
    SetupIsOk();
    TheirVerdicts();
    FirstSnapshot(draw);
    var sig := ExitSignal(SecurityEmergency, 1, true);
    TheirFills(draw, sig);
    var u, s, st := RejectedSoon(), Seen(100), RunTo(RejectedSoon(), draw, 1);
    hide SetupOk, Security, CandidateAt, EligibleSince;
    assert EnterStep(u, s, draw, st) == st;
    var marked := MarkStep(u, s, st.stands);
    assert Signal(u, s, marked[0]) == Some(sig);
    var asks := AsksOf(u, s, marked, 1);
    assert AsksOf(u, s, marked, 0) == [];
    assert asks == [Ask(0, sig)];
    SecondSnapshot(draw);
    var before := st.(stands := marked);
    OneExit(u, s, draw, before, asks[0]);
    assert asks == [asks[0]] && |marked| == 1;
    assert RunTo(u, draw, 2).orders == st.orders + [SoldOrder(u, s, draw, sig, 1)];
  }

  lemma SecondSnapshot(draw: Draw)
    ensures SetupOk(RejectedSoon())
      && RunTo(RejectedSoon(), draw, 2) == RunStep(RejectedSoon(), Seen(100), draw, RunTo(RejectedSoon(), draw, 1))
  {
    hide RunStep, DefaultDelays;
    SetupIsOk();
  }

  // ---------------------------------------------------------------- ... and what that does to decisions

  /** The same token and rules, with the same snapshots up to 100 ms, but the data end at 1000. */
  function EndsSooner(): Setup {
    RejectedSoon().(snaps := [Seen(0), Seen(100), Seen(1_000)])
  }

  lemma EndsSoonerIsOk()
    ensures SetupOk(RejectedSoon()) && SetupOk(EndsSooner()) && SameUpTo(RejectedSoon(), EndsSooner(), 100)
  {
    hide DefaultDelays, LatestRow;
    SetupIsOk();
    hide ConfigOk;
    var u, v := [Seen(0), Seen(100), Seen(10_000)], [Seen(0), Seen(100), Seen(1_000)];
    assert u[..2] == v[..2] == [Seen(0), Seen(100)];
  }

  /** Without data at 2000, the buy does not fill. */
  lemma NotYetBought(draw: Draw)
    ensures SetupOk(EndsSooner())
    ensures !IsFill(Simulated(Book(EndsSooner()), Defaults(), EntryOrder(EndsSooner(), Seen(0)), draw).status)
  {
    hide DefaultDelays, Fails, At, FillOf;
    EndsSoonerIsOk();
    SetupIsOk();
  }

  /** Decisions can look ahead: two setups that agree up to 100 ms, one of which decides at 100 to sell a token and
      the other does not, since whether the position is there depends on what is known at 2000. */
  lemma DecisionsCanLookAhead(draw: Draw)
    ensures SetupOk(RejectedSoon()) && SetupOk(EndsSooner()) && SameUpTo(RejectedSoon(), EndsSooner(), 100)
    ensures var sold, kept := RunTo(RejectedSoon(), draw, 2).orders, RunTo(EndsSooner(), draw, 2).orders;
      && |sold| == 2 && sold[1].side == Sell && sold[1].decision == 100
      && |kept| == 1 && kept[0].side == Buy
  {
    hide Simulated, DefaultDelays, ExecutableFill, Book, LatestRow, MarkExitQuote;
    EndsSoonerIsOk();
    SoldBeforeBought(draw);
    NotYetBought(draw);
    TheirVerdicts();
    var v, s, t := EndsSooner(), Seen(0), Seen(100);
    assert Security(v, t) == Security(RejectedSoon(), t);
    hide SetupOk, SameUpTo, CandidateAt, EligibleSince;
    var none := RunState([], [], {});
    var first := EnterStep(v, s, draw, none);
    assert first.stands == [] && first.entered == {} && |first.orders| <= 1;
    assert MarkStep(v, s, []) == [] && MarkStep(v, t, []) == [];
    assert RunTo(v, draw, 0) == none && RunTo(v, draw, 1) == first;
    assert EnterStep(v, t, draw, first) == first;
    assert RunTo(v, draw, 2) == first;
  }
}
