/** A historical run, token by token: what it does with one token depends on nothing it does with the others. */
module TokenRuns {
  import opened Amounts
  import opened Impact
  import opened Execution
  import opened Position
  import opened Harness

  // ---------------------------------------------------------------- the run of one token

  /** One token's position, if it was ever entered, and the orders placed for it. */
  datatype OwnState = OwnState(stand: Option<Stand>, orders: seq<SimulatedOrder>)

  /** An order, its number in the run aside. */
  function Unnumbered(o: SimulatedOrder): SimulatedOrder {
    o.(id := 0)
  }

  function OwnEntered(k: TokenId, st: OwnState): set<TokenId> {
    if st.stand.Some? then {k} else {}
  }

  function OwnEnter(u: Setup, s: Observation, draw: Draw, st: OwnState): OwnState
    requires SetupOk(u)
  {
    if !Enters(u, s, draw, OwnEntered(IdOf(s), st)) then st
    else
      var o := Bought(u, s, draw, 0);
      var p := OpenedStand(s.chain, s.token, o.result, s.creatorSells);
      OwnState(if IsFill(o.result.status) then Some(p) else st.stand, st.orders + [Unnumbered(o)])
  }

  function OwnExit(u: Setup, s: Observation, draw: Draw, st: OwnState): OwnState
    requires SetupOk(u)
  {
    if st.stand.None? then st
    else
      var p := MarkedAt(u, s, st.stand.value);
      var sig := Signal(u, s, p);
      if sig.None? then st.(stand := Some(p))
      else
        var o := SoldOrder(u, s, draw, sig.value, 0);
        OwnState(Some(ExitedStand(p, o.result)), st.orders + [Unnumbered(o)])
  }

  function OwnStep(u: Setup, s: Observation, draw: Draw, k: TokenId, st: OwnState): OwnState
    requires SetupOk(u)
  {
    if IdOf(s) != k then st else OwnExit(u, s, draw, OwnEnter(u, s, draw, st))
  }

  /** The run of one token: only its own snapshots count. */
  function OwnRun(u: Setup, draw: Draw, k: TokenId, n: nat): OwnState
    requires SetupOk(u) && n <= |u.snaps|
  {
    if n == 0 then OwnState(None, []) else OwnStep(u, u.snaps[n - 1], draw, k, OwnRun(u, draw, k, n - 1))
  }

  // ---------------------------------------------------------------- is its part of the whole run

  function KeyOfStand(p: Stand): TokenId {
    (p.chain, p.token)
  }

  ghost predicate OneEach(stands: seq<Stand>) {
    forall i, j :: 0 <= i < j < |stands| ==> KeyOfStand(stands[i]) != KeyOfStand(stands[j])
  }

  function OrdersFor(orders: seq<SimulatedOrder>, k: TokenId): seq<SimulatedOrder> {
    if orders == [] then []
    else
      var o := orders[|orders| - 1];
      OrdersFor(orders[..|orders| - 1], k) + if (o.chain, o.token) == k then [Unnumbered(o)] else []
  }

  lemma OrdersForAppend(orders: seq<SimulatedOrder>, o: SimulatedOrder, k: TokenId)
    ensures OrdersFor(orders + [o], k) == OrdersFor(orders, k) + if (o.chain, o.token) == k then [Unnumbered(o)] else []
  {
    assert (orders + [o])[..|orders|] == orders;
  }

  ghost predicate IsStand(stands: seq<Stand>, k: TokenId, p: Option<Stand>) {
    if p.Some? then KeyOfStand(p.value) == k && p.value in stands
    else forall i :: 0 <= i < |stands| ==> KeyOfStand(stands[i]) != k
  }

  /** What a run has of a token is what the token's own run has. */
  ghost predicate IsPart(st: RunState, k: TokenId, own: OwnState) {
    && IsStand(st.stands, k, own.stand) && OrdersFor(st.orders, k) == own.orders
    && (k in st.entered <==> own.stand.Some?)
  }

  ghost predicate HasStand(stands: seq<Stand>, k: TokenId) {
    exists i :: 0 <= i < |stands| && KeyOfStand(stands[i]) == k
  }

  /** One position at most for each token, and exactly for those entered. */
  ghost predicate Parted(st: RunState) {
    OneEach(st.stands) && forall k :: k in st.entered <==> HasStand(st.stands, k)
  }

  lemma EnterIsOwn(u: Setup, s: Observation, draw: Draw, st: RunState, k: TokenId, own: OwnState)
    requires SetupOk(u) && Parted(st) && IsPart(st, k, own)
    ensures var e := EnterStep(u, s, draw, st);
      Parted(e) && IsPart(e, k, if IdOf(s) == k then OwnEnter(u, s, draw, own) else own)
  {
    hide Simulated, MayEnter, SetupOk, Book, Security, CandidateAt, EligibleSince;
    assert Enters(u, s, draw, st.entered) <==> IdOf(s) !in st.entered && Enters(u, s, draw, {});
    if Enters(u, s, draw, st.entered) {
      var o := Bought(u, s, draw, |st.orders|);
      OrdersForAppend(st.orders, o, k);
      assert OrdersFor(st.orders, k) + [] == OrdersFor(st.orders, k);
      var p := OpenedStand(s.chain, s.token, o.result, s.creatorSells);
      OneMoreStand(st.stands, p);
    }
  }

  lemma OneMoreStand(stands: seq<Stand>, p: Stand)
    ensures forall q :: q in stands + [p] <==> q in stands || q == p
    ensures forall k :: HasStand(stands + [p], k) <==> HasStand(stands, k) || KeyOfStand(p) == k
    ensures OneEach(stands) && !HasStand(stands, KeyOfStand(p)) ==> OneEach(stands + [p])
  {
    hide KeyOfStand;
    assert (stands + [p])[|stands|] == p && forall i :: 0 <= i < |stands| ==> (stands + [p])[i] == stands[i];
  }

  /** With no position of the snapshot's token, nothing is marked or asked. */
  lemma {:induction false} AsksNone(u: Setup, s: Observation, stands: seq<Stand>, n: nat)
    requires SetupOk(u) && n <= |stands| && !HasStand(stands, IdOf(s))
    ensures MarkStep(u, s, stands) == stands && AsksOf(u, s, stands, n) == []
  {
    hide SetupOk, MarkedStand, Evaluate;
    if n > 0 {
      AsksNone(u, s, stands, n - 1);
      assert KeyOfStand(stands[n - 1]) != IdOf(s);
    }
  }

  /** With one, at most it is asked. */
  lemma {:induction false} AsksOne(u: Setup, s: Observation, stands: seq<Stand>, i: nat, n: nat)
    requires SetupOk(u) && n <= |stands| && OneEach(stands) && i < |stands| && KeyOfStand(stands[i]) == IdOf(s)
    ensures AsksOf(u, s, stands, n)
      == if i < n && Signal(u, s, stands[i]).Some? then [Ask(i, Signal(u, s, stands[i]).value)] else []
  {
    hide SetupOk, Evaluate;
    if n > 0 {
      AsksOne(u, s, stands, i, n - 1);
      assert n - 1 != i ==> KeyOfStand(stands[n - 1]) != IdOf(s);
    }
  }

  /** Replacing one position by another of the same token. */
  lemma ReplaceStand(stands: seq<Stand>, i: nat, p: Stand)
    requires i < |stands| && OneEach(stands) && KeyOfStand(p) == KeyOfStand(stands[i])
    ensures OneEach(stands[i := p]) && p in stands[i := p]
    ensures forall k :: HasStand(stands[i := p], k) <==> HasStand(stands, k)
    ensures forall q :: q in stands && KeyOfStand(q) != KeyOfStand(p) ==> q in stands[i := p]
  {
    hide KeyOfStand;
    var after := stands[i := p];
    assert forall j :: 0 <= j < |stands| ==> KeyOfStand(after[j]) == KeyOfStand(stands[j]);
    assert after[i] == p;
    forall q | q in stands && KeyOfStand(q) != KeyOfStand(p) ensures q in after {
      var j :| 0 <= j < |stands| && stands[j] == q;
      assert after[j] == q;
    }
  }

  /** Marking touches the one position of the snapshot's token. */
  lemma MarkIsOne(u: Setup, s: Observation, stands: seq<Stand>, i: nat)
    requires SetupOk(u) && OneEach(stands) && i < |stands| && KeyOfStand(stands[i]) == IdOf(s)
    ensures MarkStep(u, s, stands) == stands[i := MarkedAt(u, s, stands[i])]
    ensures KeyOfStand(MarkedAt(u, s, stands[i])) == IdOf(s)
  {
    hide SetupOk, MarkExitQuote;
    forall j | 0 <= j < |stands| ensures MarkStep(u, s, stands)[j] == stands[i := MarkedAt(u, s, stands[i])][j] {
      assert j != i ==> KeyOfStand(stands[j]) != IdOf(s);
    }
  }

  /** What a snapshot does after entering. */
  function ExitAll(u: Setup, s: Observation, draw: Draw, e: RunState): RunState
    requires SetupOk(u)
  {
    var marked := MarkStep(u, s, e.stands);
    ExitSteps(u, s, draw, e.(stands := marked), AsksOf(u, s, marked, |marked|))
  }

  lemma OneExit(u: Setup, s: Observation, draw: Draw, st: RunState, a: Ask)
    requires SetupOk(u) && a.index < |st.stands|
    ensures AsksFit([a], |st.stands|) && ExitSteps(u, s, draw, st, [a]) == ExitStep(u, s, draw, st, a)
  {
    hide ExitStep, SetupOk;
    assert [a][..0] == [] && ExitSteps(u, s, draw, st, []) == st;
  }

  /** Another token's orders and position. */
  lemma OthersStay(st: RunState, k: TokenId, own: OwnState, stands: seq<Stand>, orders: seq<SimulatedOrder>, i: nat,
      p: Stand, o: SimulatedOrder)
    requires IsPart(st, k, own) && Parted(st) && i < |st.stands| && KeyOfStand(st.stands[i]) == KeyOfStand(p) != k
    requires stands == st.stands[i := p] && (orders == st.orders || orders == st.orders + [o])
    requires (o.chain, o.token) == KeyOfStand(p)
    ensures IsPart(RunState(stands, orders, st.entered), k, own)
  {
    hide KeyOfStand, OrdersFor;
    ReplaceStand(st.stands, i, p);
    OrdersForAppend(st.orders, o, k);
    assert OrdersFor(st.orders, k) + [] == OrdersFor(st.orders, k);
  }

  lemma PartedReplace(st: RunState, i: nat, p: Stand, orders: seq<SimulatedOrder>)
    requires Parted(st) && i < |st.stands| && KeyOfStand(p) == KeyOfStand(st.stands[i])
    ensures Parted(RunState(st.stands[i := p], orders, st.entered))
  {
    hide KeyOfStand;
    ReplaceStand(st.stands, i, p);
  }

  /** The token's position after marking, and its order if one is placed. */
  lemma ExitOfOne(u: Setup, s: Observation, draw: Draw, e: RunState, i: nat)
    requires SetupOk(u) && Parted(e) && i < |e.stands| && KeyOfStand(e.stands[i]) == IdOf(s)
    ensures var p := MarkedAt(u, s, e.stands[i]);
      var sig := Signal(u, s, p);
      KeyOfStand(p) == IdOf(s)
      && ExitAll(u, s, draw, e)
        == if sig.None? then e.(stands := e.stands[i := p])
           else var o := SoldOrder(u, s, draw, sig.value, |e.orders|);
             e.(stands := e.stands[i := ExitedStand(p, o.result)], orders := e.orders + [o])
  {
    hide SetupOk, MarkedAt, Signal, KeyOfStand, ExitedStand, SoldOrder;
    MarkIsOne(u, s, e.stands, i);
    var p := MarkedAt(u, s, e.stands[i]);
    var marked := e.stands[i := p];
    ReplaceStand(e.stands, i, p);
    AsksOne(u, s, marked, i, |marked|);
    var sig := Signal(u, s, p);
    if sig.Some? {
      OneExit(u, s, draw, e.(stands := marked), Ask(i, sig.value));
      assert marked[i := ExitedStand(p, SoldOrder(u, s, draw, sig.value, |e.orders|).result)]
        == e.stands[i := ExitedStand(p, SoldOrder(u, s, draw, sig.value, |e.orders|).result)];
    }
  }

  lemma ExitIsOwn(u: Setup, s: Observation, draw: Draw, e: RunState, k: TokenId, own: OwnState)
    requires SetupOk(u) && Parted(e) && IsPart(e, k, own)
    ensures var r := ExitAll(u, s, draw, e);
      Parted(r) && IsPart(r, k, if IdOf(s) == k then OwnExit(u, s, draw, own) else own)
  {
    hide SetupOk, MarkedAt, Signal, ExitedStand, Simulated, Book, OrdersFor;
    if i :| 0 <= i < |e.stands| && KeyOfStand(e.stands[i]) == IdOf(s) {
      ExitOfOne(u, s, draw, e, i);
      var p := MarkedAt(u, s, e.stands[i]);
      var sig := Signal(u, s, p);
      var o := SoldOrder(u, s, draw, if sig.Some? then sig.value else ExitSignal(Stop, 0, false), |e.orders|);
      var q := if sig.Some? then ExitedStand(p, o.result) else p;
      ExitedKeeps(p, o.result);
      var orders := if sig.Some? then e.orders + [o] else e.orders;
      PartedReplace(e, i, q, orders);
      if IdOf(s) != k {
        OthersStay(e, k, own, e.stands[i := q], orders, i, q, o);
      } else {
        OnlyThat(e.stands, i, own.stand);
        ReplaceStand(e.stands, i, q);
        OrdersForAppend(e.orders, o, k);
      }
    } else {
      AsksNone(u, s, e.stands, |e.stands|);
      assert e.(stands := e.stands) == e;
    }
  }

  lemma ExitedKeeps(p: Stand, fill: ExecutionResult)
    ensures KeyOfStand(ExitedStand(p, fill)) == KeyOfStand(p)
  {
  }

  lemma OnlyThat(stands: seq<Stand>, i: nat, p: Option<Stand>)
    requires OneEach(stands) && i < |stands| && IsStand(stands, KeyOfStand(stands[i]), p)
    ensures p == Some(stands[i])
  {
    hide KeyOfStand;
    if p.Some? {
      var j :| 0 <= j < |stands| && stands[j] == p.value;
    }
  }

  lemma StepIs(u: Setup, s: Observation, draw: Draw, st: RunState)
    requires SetupOk(u)
    ensures RunStep(u, s, draw, st) == ExitAll(u, s, draw, EnterStep(u, s, draw, st))
  {
    hide SetupOk, EnterStep, MarkStep, AsksOf, ExitSteps;
  }

  lemma StepIsOwn(u: Setup, s: Observation, draw: Draw, st: RunState, k: TokenId, own: OwnState)
    requires SetupOk(u) && Parted(st) && IsPart(st, k, own)
    ensures Parted(RunStep(u, s, draw, st)) && IsPart(RunStep(u, s, draw, st), k, OwnStep(u, s, draw, k, own))
  {
    hide SetupOk, EnterStep, ExitAll, OwnEnter, OwnExit, Parted, IsPart, RunStep;
    EnterIsOwn(u, s, draw, st, k, own);
    ExitIsOwn(u, s, draw, EnterStep(u, s, draw, st), k, if IdOf(s) == k then OwnEnter(u, s, draw, own) else own);
    StepIs(u, s, draw, st);
  }

  /** What a run does with a token is what the token's own run does: nothing done with other tokens matters to it. */
  lemma {:induction false} RunIsOwn(u: Setup, draw: Draw, k: TokenId, n: nat)
    requires SetupOk(u) && n <= |u.snaps|
    ensures Parted(RunTo(u, draw, n)) && IsPart(RunTo(u, draw, n), k, OwnRun(u, draw, k, n))
  {
    hide SetupOk, OwnStep, Parted, IsPart, RunStep;
    if n == 0 {
      NothingYet(k);
    } else {
      RunIsOwn(u, draw, k, n - 1);
      StepIsOwn(u, u.snaps[n - 1], draw, RunTo(u, draw, n - 1), k, OwnRun(u, draw, k, n - 1));
    }
  }

  lemma NothingYet(k: TokenId)
    ensures Parted(RunState([], [], {})) && IsPart(RunState([], [], {}), k, OwnState(None, []))
  {
  }

  // ---------------------------------------------------------------- the position of a token

  function StandOf(stands: seq<Stand>, k: TokenId): Option<Stand> {
    if stands == [] then None
    else if KeyOfStand(stands[|stands| - 1]) == k then Some(stands[|stands| - 1])
    else StandOf(stands[..|stands| - 1], k)
  }

  lemma {:induction false} StandOfIs(stands: seq<Stand>, k: TokenId, p: Option<Stand>)
    requires OneEach(stands) && IsStand(stands, k, p)
    ensures StandOf(stands, k) == p
  {
    hide KeyOfStand;
    if stands != [] {
      var front, last := stands[..|stands| - 1], stands[|stands| - 1];
      if KeyOfStand(last) == k {
        OnlyThat(stands, |stands| - 1, p);
      } else {
        assert p.Some? ==> p.value in front by {
          if p.Some? {
            var i :| 0 <= i < |stands| && stands[i] == p.value;
            assert i < |stands| - 1 && front[i] == p.value;
          }
        }
        StandOfIs(front, k, p);
      }
    }
  }

  lemma OwnStand(u: Setup, draw: Draw, k: TokenId, n: nat)
    requires SetupOk(u) && n <= |u.snaps|
    ensures StandOf(RunTo(u, draw, n).stands, k) == OwnRun(u, draw, k, n).stand
    ensures OrdersFor(RunTo(u, draw, n).orders, k) == OwnRun(u, draw, k, n).orders
    ensures k in RunTo(u, draw, n).entered <==> OwnRun(u, draw, k, n).stand.Some?
  {
    hide SetupOk, RunTo, OwnRun, OrdersFor, IsStand, OneEach;
    RunIsOwn(u, draw, k, n);
    StandOfIs(RunTo(u, draw, n).stands, k, OwnRun(u, draw, k, n).stand);
  }
}
