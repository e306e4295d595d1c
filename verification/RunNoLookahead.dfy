/** A historical run does not look ahead: what it decides and orders at a snapshot depends on nothing that is
    only known after the last fill time of those orders. */
module RunNoLookahead {
  import opened Domain
  import opened Impact
  import opened Execution
  import opened Position
  import opened Harness

  // ---------------------------------------------------------------- what is known by a time

  /** The rows known by a time, in their order. */
  function Known<T>(rows: seq<Row<T>>, until: int): seq<Row<T>> {
    if rows == [] then []
    else Known(rows[..|rows| - 1], until) + if rows[|rows| - 1].time <= until then [rows[|rows| - 1]] else []
  }

  lemma {:induction false} LaterRowsAreUnseen<T>(rows: seq<Row<T>>, chain: Chain, token: string, t: int, until: int)
    requires t <= until
    ensures LatestRow(Known(rows, until), chain, token, t) == LatestRow(rows, chain, token, t)
  {
    if rows != [] {
      var front, r := rows[..|rows| - 1], rows[|rows| - 1];
      LaterRowsAreUnseen(front, chain, token, t, until);
      if r.time <= until {
        assert (Known(front, until) + [r])[..|Known(front, until)|] == Known(front, until);
      } else {
        assert Known(front, until) + [] == Known(front, until);
      }
    }
  }

  /** The same tokens became eligible, at the same times, up to then. */
  ghost predicate SameEligible(a: map<TokenId, int>, b: map<TokenId, int>, until: int) {
    forall k :: (k in a && a[k] <= until) || (k in b && b[k] <= until) ==> k in a && k in b && a[k] == b[k]
  }

  /** The same rules, and the same data up to a time: snapshots, verdicts, candidates and eligibility. */
  ghost predicate SameUpTo(u: Setup, v: Setup, until: int) {
    && SetupOk(u) && u.entry == v.entry && u.exit == v.exit && u.cfg == v.cfg && u.notional == v.notional
    && AgreeUpTo(Book(u), Book(v), until)
    && Known(u.security, until) == Known(v.security, until) && Known(u.candidates, until) == Known(v.candidates, until)
    && SameEligible(u.eligibleAt, v.eligibleAt, until)
  }

  /** Every attempt of every order a snapshot can lead to is over by then. */
  ghost predicate Settles(cfg: SimConfig, s: Observation, until: int)
    requires ConfigOk(cfg)
  {
    && s.view.time <= until
    && forall isEntry, emergency ::
         Within(cfg, Order(s.chain, s.token, Sell, s.view.time, 0, false, isEntry, emergency), until)
  }

  lemma SettlesOrder(cfg: SimConfig, s: Observation, o: Order, until: int)
    requires ConfigOk(cfg) && Settles(cfg, s, until) && o.chain == s.chain && o.decision == s.view.time
    ensures Within(cfg, o, until)
  {
    hide Delay, MaxAttempts;
    var plain := Order(s.chain, s.token, Sell, s.view.time, 0, false, o.isEntry, o.emergency);
    assert Within(cfg, plain, until);
    forall n | 0 <= n < MaxAttempts(cfg.retry, o.isEntry, o.emergency) ensures FillTime(cfg, o, n) <= until {
      assert FillTime(cfg, plain, n) <= until;
    }
  }

  /** With the default delays and retries, 9200 ms are enough. */
  lemma DefaultSettles(cfg: SimConfig, scenario: Latency, s: Observation)
    requires cfg.delay == DefaultDelays(scenario) && cfg.retry == DefaultRetries() && FeesFit(cfg.fees)
    ensures ConfigOk(cfg) && Settles(cfg, s, s.view.time + 9_200)
  {
    hide DefaultDelays, Delay, DelaysGiven, Within;
    DefaultHorizon(cfg, scenario, Order(s.chain, s.token, Sell, s.view.time, 0, false, false, false));
    forall isEntry, emergency
      ensures Within(cfg, Order(s.chain, s.token, Sell, s.view.time, 0, false, isEntry, emergency), s.view.time + 9_200)
    {
      DefaultHorizon(cfg, scenario, Order(s.chain, s.token, Sell, s.view.time, 0, false, isEntry, emergency));
    }
  }

  // ---------------------------------------------------------------- one snapshot

  lemma SameVerdicts(u: Setup, v: Setup, s: Observation, until: int)
    requires SameUpTo(u, v, until) && s.view.time <= until
    ensures Security(u, s) == Security(v, s) && CandidateAt(u, s) == CandidateAt(v, s)
  {
    hide Known, LatestRow;
    LaterRowsAreUnseen(u.security, s.chain, s.token, s.view.time, until);
    LaterRowsAreUnseen(v.security, s.chain, s.token, s.view.time, until);
    LaterRowsAreUnseen(u.candidates, s.chain, s.token, s.view.time, until);
    LaterRowsAreUnseen(v.candidates, s.chain, s.token, s.view.time, until);
  }

  /** A token not yet eligible is not entered, whenever it will be. */
  lemma SameEntry(u: Setup, v: Setup, s: Observation, draw: Draw, entered: set<TokenId>, until: int)
    requires SameUpTo(u, v, until) && s.view.time <= until
    ensures Enters(u, s, draw, entered) <==> Enters(v, s, draw, entered)
  {
    SameVerdicts(u, v, s, until);
    hide Security, CandidateAt;
  }

  lemma SameOrder(u: Setup, v: Setup, s: Observation, draw: Draw, o: Order, until: int)
    requires SameUpTo(u, v, until) && Settles(u.cfg, s, until) && o.chain == s.chain && o.decision == s.view.time
    ensures Simulated(Book(u), u.cfg, o, draw) == Simulated(Book(v), v.cfg, o, draw)
  {
    hide Simulated, Settles, Within;
    SettlesOrder(u.cfg, s, o, until);
    NoLookahead(Book(u), Book(v), u.cfg, o, draw, until);
  }

  lemma SameEnterStep(u: Setup, v: Setup, s: Observation, draw: Draw, st: RunState, until: int)
    requires SetupOk(u) && SetupOk(v) && SameUpTo(u, v, until) && Settles(u.cfg, s, until)
    ensures EnterStep(u, s, draw, st) == EnterStep(v, s, draw, st)
  {
    SameEntry(u, v, s, draw, st.entered, until);
    SameOrder(u, v, s, draw, EntryOrder(u, s), until);
    hide Enters, Simulated, SetupOk, Book;
  }

  lemma SameSignal(u: Setup, v: Setup, s: Observation, p: Stand, until: int)
    requires SetupOk(u) && SetupOk(v) && SameUpTo(u, v, until) && s.view.time <= until
    ensures Signal(u, s, p) == Signal(v, s, p) && MarkedAt(u, s, p) == MarkedAt(v, s, p)
  {
    SameVerdicts(u, v, s, until);
    hide Security, Evaluate, MarkedStand;
  }

  lemma SameMarkStep(u: Setup, v: Setup, s: Observation, stands: seq<Stand>, until: int)
    requires SetupOk(u) && SetupOk(v) && SameUpTo(u, v, until) && s.view.time <= until
    ensures MarkStep(u, s, stands) == MarkStep(v, s, stands)
  {
    hide MarkedAt, SameUpTo, SetupOk;
    forall i | 0 <= i < |stands| ensures MarkedAt(u, s, stands[i]) == MarkedAt(v, s, stands[i]) {
      SameSignal(u, v, s, stands[i], until);
    }
  }

  lemma {:induction false} SameAsks(u: Setup, v: Setup, s: Observation, stands: seq<Stand>, n: nat, until: int)
    requires SetupOk(u) && SetupOk(v) && SameUpTo(u, v, until) && s.view.time <= until && n <= |stands|
    ensures AsksOf(u, s, stands, n) == AsksOf(v, s, stands, n)
  {
    hide Signal, SameUpTo, SetupOk;
    if n > 0 {
      SameAsks(u, v, s, stands, n - 1, until);
      SameSignal(u, v, s, stands[n - 1], until);
    }
  }

  lemma {:induction false} SameExitSteps(u: Setup, v: Setup, s: Observation, draw: Draw, st: RunState, asks: seq<Ask>,
      until: int)
    requires SetupOk(u) && SetupOk(v) && SameUpTo(u, v, until) && Settles(u.cfg, s, until) && AsksFit(asks, |st.stands|)
    ensures ExitSteps(u, s, draw, st, asks) == ExitSteps(v, s, draw, st, asks)
  {
    hide SameUpTo, Settles, Simulated, Book;
    if asks != [] {
      var a := asks[|asks| - 1];
      SameExitSteps(u, v, s, draw, st, asks[..|asks| - 1], until);
      SameOrder(u, v, s, draw, ExitOrder(s, a.signal), until);
    }
  }

  lemma SameRunStep(u: Setup, v: Setup, s: Observation, draw: Draw, st: RunState, until: int)
    requires SetupOk(u) && SetupOk(v) && SameUpTo(u, v, until) && Settles(u.cfg, s, until)
    ensures RunStep(u, s, draw, st) == RunStep(v, s, draw, st)
  {
    hide SameUpTo, SetupOk, EnterStep, MarkStep, AsksOf, ExitSteps, Within;
    SameEnterStep(u, v, s, draw, st, until);
    var e := EnterStep(u, s, draw, st);
    SameMarkStep(u, v, s, e.stands, until);
    var marked := MarkStep(u, s, e.stands);
    SameAsks(u, v, s, marked, |marked|, until);
    SameExitSteps(u, v, s, draw, e.(stands := marked), AsksOf(u, s, marked, |marked|), until);
  }

  // ---------------------------------------------------------------- whole runs

  /** Two setups that show the same first snapshots and agree up to the time those snapshots' orders are over
      are in the same state after them: the same entries, the same positions, the same orders. */
  lemma {:induction false} SameRun(u: Setup, v: Setup, draw: Draw, n: nat, until: int)
    requires SetupOk(u) && SetupOk(v) && SameUpTo(u, v, until) && n <= |u.snaps| && n <= |v.snaps|
    requires forall i :: 0 <= i < n ==> u.snaps[i] == v.snaps[i] && Settles(u.cfg, u.snaps[i], until)
    ensures RunTo(u, draw, n) == RunTo(v, draw, n)
  {
    hide SameUpTo, SetupOk, RunStep, Settles;
    if n > 0 {
      SameRun(u, v, draw, n - 1, until);
      SameRunStep(u, v, u.snaps[n - 1], draw, RunTo(u, draw, n - 1), until);
    }
  }

  lemma {:induction false} ExitsOnlyAdd(u: Setup, s: Observation, draw: Draw, st: RunState, asks: seq<Ask>)
    requires SetupOk(u) && AsksFit(asks, |st.stands|)
    ensures st.orders <= ExitSteps(u, s, draw, st, asks).orders
  {
    hide Simulated, SetupOk;
    if asks != [] {
      ExitsOnlyAdd(u, s, draw, st, asks[..|asks| - 1]);
    }
  }

  lemma StepOnlyAdds(u: Setup, s: Observation, draw: Draw, st: RunState)
    requires SetupOk(u)
    ensures st.orders <= RunStep(u, s, draw, st).orders
  {
    hide Enters, Bought, ExitSteps, MarkStep, AsksOf, SetupOk;
    var e := EnterStep(u, s, draw, st);
    var marked := MarkStep(u, s, e.stands);
    MarkKeepsLength(u, s, e.stands);
    ExitsOnlyAdd(u, s, draw, e.(stands := marked), AsksOf(u, s, marked, |marked|));
  }

  lemma MarkKeepsLength(u: Setup, s: Observation, stands: seq<Stand>)
    requires SetupOk(u)
    ensures |MarkStep(u, s, stands)| == |stands|
  {
  }

  /** Orders once placed stay. */
  lemma {:induction false} OrdersStay(u: Setup, draw: Draw, n: nat, m: nat)
    requires SetupOk(u) && n <= m <= |u.snaps|
    ensures RunTo(u, draw, n).orders <= RunTo(u, draw, m).orders
    decreases m
  {
    hide RunStep, SetupOk;
    if n < m {
      OrdersStay(u, draw, n, m - 1);
      StepOnlyAdds(u, u.snaps[m - 1], draw, RunTo(u, draw, m - 1));
    }
  }

  predicate InTimeOrder(s: seq<Observation>) {
    forall i, j :: 0 <= i < j < |s| ==> s[i].view.time <= s[j].view.time
  }

  lemma {:induction false} ShownFirst(s: seq<Observation>, until: int)
    requires InTimeOrder(s)
    ensures Shown(s, until) <= s && (forall i :: 0 <= i < |s| && s[i].view.time <= until ==> i < |Shown(s, until)|)
  {
    if s != [] {
      var front := s[..|s| - 1];
      ShownFirst(front, until);
      if s[|s| - 1].view.time <= until {
        assert forall i :: 0 <= i < |front| ==> front[i].view.time <= until;
        assert |Shown(front, until)| == |front| by {
          if front != [] { assert front[|front| - 1].view.time <= until; }
        }
      }
    }
  }

  /** No lookahead over whole runs: with snapshots in time order, two setups that agree up to a time place the
      same orders, first to last, for every snapshot whose own orders are over by then, whatever comes later. */
  lemma RunDoesNotLookAhead(u: Setup, v: Setup, draw: Draw, n: nat, until: int)
    requires SetupOk(u) && SetupOk(v) && SameUpTo(u, v, until) && InTimeOrder(u.snaps) && InTimeOrder(v.snaps)
      && n <= |u.snaps|
    requires forall i :: 0 <= i < n ==> Settles(u.cfg, u.snaps[i], until)
    ensures n <= |v.snaps| && u.snaps[..n] == v.snaps[..n] && RunTo(u, draw, n) == RunTo(v, draw, n)
    ensures RunTo(u, draw, n).orders <= RunTo(u, draw, |u.snaps|).orders
    ensures RunTo(v, draw, n).orders <= RunTo(v, draw, |v.snaps|).orders
  {
    hide RunTo, Within, SetupOk, Known, Shown, SameEligible;
    ShownFirst(u.snaps, until);
    ShownFirst(v.snaps, until);
    var shown := Shown(u.snaps, until);
    assert shown == Shown(v.snaps, until);
    assert n <= |shown| by {
      if n > 0 { assert u.snaps[n - 1].view.time <= until; }
    }
    hide SameUpTo, Settles, InTimeOrder;
    assert forall i :: 0 <= i < n ==> u.snaps[i] == shown[i] == v.snaps[i];
    SameRun(u, v, draw, n, until);
    OrdersStay(u, draw, n, |u.snaps|);
    OrdersStay(v, draw, n, |v.snaps|);
  }
}
