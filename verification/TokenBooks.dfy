/** One token's accounting: what its state must say about the trades folded into it, and what every
    snapshot taken of it must say about the trades that came before. */
module TokenBooks {
  import opened Amounts
  import opened Schedule
  import opened Domain
  import opened Rolling

  const TRADE_LOG_CAP: nat := 8_192

  datatype Stage =
    | Fresh | CurveActive | MigrationPending | Migrating | LaunchSweptStage
    | GraduationGap | AmmActive | Inactive | RejectedSecurity

  datatype Tier = Hot | Warm

  datatype Aggregate = Aggregate(
    buyCount: nat, sellCount: nat,
    buyers: set<string>, sellers: set<string>,
    buysBy: map<string, nat>, sellsBy: map<string, nat>, volumeBy: map<string, U256>,
    buyQuote: U256, sellQuote: U256, buyToken: U256, sellToken: U256)

  datatype TokenState = TokenState(
    launchpad: Launchpad, creator: string, discoveredAt: Time, firstTradeAt: Option<Time>,
    stage: Stage, curve: Option<string>, pool: Option<string>,
    agg: Aggregate,
    creatorBuys: nat, creatorSells: nat, creatorBuyQuote: U256, creatorSellQuote: U256,
    lastEmitted: I64, emittedMilestones: set<int>,
    rolling: RollingState, tradeLog: seq<TradeTick>, tier: Tier, firstAmmTrade: bool)

  datatype SnapshotKind = MilestoneSnap | PeriodicSnap | LifecycleSnap(trigger: string)

  datatype Snapshot = Snapshot(
    key: TokenKey, time: I64, age: I64, kind: SnapshotKind, stage: Stage,
    buyCount: nat, sellCount: nat, uniqueBuyers: nat, uniqueSellers: nat,
    buyQuote: U256, sellQuote: U256, buyToken: U256, sellToken: U256,
    rolling: seq<WindowSnapshot>)

  // ---------------------------------------------------------------- folding one trade into a token

  function EmptyAggregate(): Aggregate {
    Aggregate(0, 0, {}, {}, map[], map[], map[], 0, 0, 0, 0)
  }

  function InitialStage(launchpad: Launchpad): Stage {
    match launchpad
    case ClankerV4 => AmmActive
    case PumpSwap => AmmActive
    case PumpFun => Fresh
    case PonsV2 => Fresh
    case UnknownPad => Fresh
  }

  function FreshState(e: Event): TokenState {
    TokenState(
      e.launchpad, if e.Discovered? then e.creator else "", e.time, None,
      InitialStage(e.launchpad), e.curve, e.pool,
      EmptyAggregate(), 0, 0, 0, 0,
      e.time, {}, FreshRolling(), [], Hot, false)
  }

  function Aggregated(a: Aggregate, t: TradeTick): Aggregate {
    var vol := if t.trader in a.volumeBy then a.volumeBy[t.trader] else 0;
    var a' := a.(volumeBy := a.volumeBy[t.trader := AddRaw(vol, t.quote)]);
    if t.isBuy then
      a'.(buyCount := a.buyCount + 1,
          buyers := a.buyers + {t.trader},
          buysBy := Bump(a.buysBy, t.trader),
          buyQuote := AddRaw(a.buyQuote, t.quote),
          buyToken := AddRaw(a.buyToken, t.token))
    else
      a'.(sellCount := a.sellCount + 1,
          sellers := a.sellers + {t.trader},
          sellsBy := Bump(a.sellsBy, t.trader),
          sellQuote := AddRaw(a.sellQuote, t.quote),
          sellToken := AddRaw(a.sellToken, t.token))
  }

  function LastN(s: seq<TradeTick>): seq<TradeTick> {
    if |s| > TRADE_LOG_CAP then s[|s| - TRADE_LOG_CAP..] else s
  }

  /** The tick a trade leaves in the token it is applied to. */
  function TickFor(st: TokenState, e: Event, t: Time): TradeTick
    requires e.Trade?
  {
    TradeTick(
      t, e.trader, e.isBuy, st.creator != "" && st.creator == e.trader, e.quote, e.base,
      e.isBuy && e.trader !in st.agg.buyers, !e.isBuy && e.trader !in st.agg.sellers)
  }

  function StageAfterTrade(st: TokenState, e: Event): Stage
    requires e.Trade?
  {
    var s := if st.firstTradeAt.None? && st.stage.Fresh? && (st.launchpad.PumpFun? || st.launchpad.PonsV2?)
             then CurveActive else st.stage;
    if e.hint.SqrtPrice? && !s.GraduationGap? then AmmActive else s
  }

  function WithTrade(st: TokenState, e: Event, t: Time): TokenState
    requires e.Trade? && WellShaped(st.rolling)
  {
    var tick := TickFor(st, e, t);
    var stage := StageAfterTrade(st, e);
    st.(firstTradeAt := if st.firstTradeAt.None? then Some(t) else st.firstTradeAt,
        stage := stage,
        agg := Aggregated(st.agg, tick),
        creatorBuys := if tick.isCreator && e.isBuy then st.creatorBuys + 1 else st.creatorBuys,
        creatorSells := if tick.isCreator && !e.isBuy then st.creatorSells + 1 else st.creatorSells,
        creatorBuyQuote := if tick.isCreator && e.isBuy then AddRaw(st.creatorBuyQuote, e.quote)
          else st.creatorBuyQuote,
        creatorSellQuote := if tick.isCreator && !e.isBuy then AddRaw(st.creatorSellQuote, e.quote)
          else st.creatorSellQuote,
        rolling := if st.tier.Hot? then PushedAll(st.rolling, t, tick) else st.rolling,
        tradeLog := LastN(st.tradeLog + [tick]),
        firstAmmTrade := st.firstAmmTrade || stage.AmmActive?)
  }

  // ---------------------------------------------------------------- snapshots

  function Upto(s: seq<TradeTick>, at: int): seq<TradeTick> {
    if s == [] then []
    else Upto(s[..|s| - 1], at) + if s[|s| - 1].time <= at then [s[|s| - 1]] else []
  }

  datatype Counts = Counts(buys: nat, sells: nat, buyers: nat, sellers: nat)

  function CountsOf(s: seq<TradeTick>): Counts {
    Counts(Total(BuyCount, s), Total(SellCount, s), |Traders(s, true)|, |Traders(s, false)|)
  }

  function CountsAsOf(st: TokenState, at: I64): Counts {
    if st.tradeLog == [] then Counts(st.agg.buyCount, st.agg.sellCount, |st.agg.buyers|, |st.agg.sellers|)
    else CountsOf(Upto(st.tradeLog, at))
  }

  /** The loop over the capped log, with its two counters and two sets. */
  method CountTradeLog(log: seq<TradeTick>, at: I64) returns (c: Counts)
    ensures c == CountsOf(Upto(log, at))
  {
    var buys, sells := 0, 0;
    var buyers: set<string>, sellers: set<string> := {}, {};
    ghost var seen: seq<TradeTick> := [];
    var i := 0;
    while i < |log|
      invariant 0 <= i <= |log| && seen == Upto(log[..i], at)
      invariant buys == Total(BuyCount, seen) && sells == Total(SellCount, seen)
      invariant buyers == Traders(seen, true) && sellers == Traders(seen, false)
    {
      var t := log[i];
      assert log[..i + 1][..i] == log[..i];
      if t.time <= at {
        OneMoreTrader(seen, t);
        TotalAppend(BuyCount, seen, t);
        TotalAppend(SellCount, seen, t);
        seen := seen + [t];
        if t.isBuy {
          buys := buys + 1;
          buyers := buyers + {t.trader};
        } else {
          sells := sells + 1;
          sellers := sellers + {t.trader};
        }
      }
      i := i + 1;
    }
    assert log[..i] == log;
    c := Counts(buys, sells, |buyers|, |sellers|);
  }

  lemma OneMoreTrader(s: seq<TradeTick>, e: TradeTick)
    ensures Traders(s + [e], true) == Traders(s, true) + if e.isBuy then {e.trader} else {}
    ensures Traders(s + [e], false) == Traders(s, false) + if e.isBuy then {} else {e.trader}
  {
    var more := s + [e];
    forall t, buys: bool ensures t in Traders(more, buys)
      <==> t in Traders(s, buys) || (e.isBuy == buys && e.trader == t) {
      if t in Traders(s, buys) {
        var i :| 0 <= i < |s| && s[i].isBuy == buys && s[i].trader == t;
        assert more[i].trader == t;
      }
      if e.isBuy == buys && e.trader == t { assert more[|s|].trader == t; }
    }
  }

  function SnapshotOf(st: TokenState, k: TokenKey, at: I64, kind: SnapshotKind): Snapshot
    requires WellShaped(st.rolling)
  {
    var c := CountsAsOf(st, at);
    Snapshot(
      k, at, Saturate(at - st.discoveredAt), kind, st.stage,
      c.buys, c.sells, c.buyers, c.sellers,
      st.agg.buyQuote, st.agg.sellQuote, st.agg.buyToken, st.agg.sellToken,
      AsOfAll(st.rolling, at))
  }

  // ---------------------------------------------------------------- what a token's books must satisfy

  /** The aggregate is the fold of these trades, stated as totals, so in any order. */
  ghost predicate AggMatches(a: Aggregate, s: seq<TradeTick>) {
    CountsMatch(a, s) && TradersMatch(a, s) && VolumesMatch(a, s)
  }

  ghost predicate CountsMatch(a: Aggregate, s: seq<TradeTick>) {
    && a.buyCount == Total(BuyCount, s) && a.sellCount == Total(SellCount, s)
    && Multiplicities(a.buysBy, s, true) && Multiplicities(a.sellsBy, s, false)
  }

  ghost predicate TradersMatch(a: Aggregate, s: seq<TradeTick>) {
    && SetMatches(a.buyers, s, true) && SetMatches(a.sellers, s, false)
    && VolumeByMatches(a.volumeBy, s)
  }

  ghost predicate SetMatches(b: set<string>, s: seq<TradeTick>, buys: bool) {
    forall t :: t in b <==> Total(if buys then BuysBy(t) else SellsBy(t), s) > 0
  }

  ghost predicate VolumeByMatches(m: map<string, U256>, s: seq<TradeTick>) {
    && (forall t :: t in m <==> Total(BuysBy(t), s) + Total(SellsBy(t), s) > 0)
    && (forall t :: (if t in m then m[t] else 0) == Clamp(Total(QuoteBy(t), s)))
  }

  ghost predicate VolumesMatch(a: Aggregate, s: seq<TradeTick>) {
    && a.buyQuote == Clamp(Total(BuyQuote, s)) && a.sellQuote == Clamp(Total(SellQuote, s))
    && a.buyToken == Clamp(Total(BuyToken, s)) && a.sellToken == Clamp(Total(SellToken, s))
  }

  lemma AggregateKeepsCounts(a: Aggregate, s: seq<TradeTick>, e: TradeTick)
    requires CountsMatch(a, s)
    ensures CountsMatch(Aggregated(a, e), s + [e])
  {
    AddKeepsTally(a.buysBy, s, true, e);
    AddKeepsTally(a.sellsBy, s, false, e);
    TotalAppend(BuyCount, s, e);
    TotalAppend(SellCount, s, e);
  }

  lemma AggregateKeepsVolumeBy(m: map<string, U256>, s: seq<TradeTick>, e: TradeTick)
    requires VolumeByMatches(m, s)
    ensures VolumeByMatches(m[e.trader := AddRaw(if e.trader in m then m[e.trader] else 0, e.quote)], s + [e])
  {
    TotalsAppend(s, e);
    hide Total;
    var m', s' := m[e.trader := AddRaw(if e.trader in m then m[e.trader] else 0, e.quote)], s + [e];
    forall t ensures t in m' <==> Total(BuysBy(t), s') + Total(SellsBy(t), s') > 0 {
      assert Total(BuysBy(t), s') == Total(BuysBy(t), s) + Weight(BuysBy(t), e);
      assert Total(SellsBy(t), s') == Total(SellsBy(t), s) + Weight(SellsBy(t), e);
    }
    forall t ensures (if t in m' then m'[t] else 0) == Clamp(Total(QuoteBy(t), s')) {
      assert Total(QuoteBy(t), s') == Total(QuoteBy(t), s) + Weight(QuoteBy(t), e);
    }
  }

  lemma AggregateKeepsSet(b: set<string>, s: seq<TradeTick>, buys: bool, e: TradeTick)
    requires SetMatches(b, s, buys)
    ensures SetMatches(if e.isBuy == buys then b + {e.trader} else b, s + [e], buys)
  {
    TotalsAppend(s, e);
    hide Total;
  }

  lemma AggregateKeepsTraders(a: Aggregate, s: seq<TradeTick>, e: TradeTick)
    requires TradersMatch(a, s)
    ensures TradersMatch(Aggregated(a, e), s + [e])
  {
    AggregateKeepsVolumeBy(a.volumeBy, s, e);
    AggregateKeepsSet(a.buyers, s, true, e);
    AggregateKeepsSet(a.sellers, s, false, e);
    hide SetMatches, VolumeByMatches;
  }

  lemma AggregateKeepsVolumes(a: Aggregate, s: seq<TradeTick>, e: TradeTick)
    requires VolumesMatch(a, s)
    ensures VolumesMatch(Aggregated(a, e), s + [e])
  {
    TotalsAppend(s, e);
    hide Total;
  }

  /** Folding in one more trade, in whatever position it arrives. */
  lemma AggregateKeeps(a: Aggregate, s: seq<TradeTick>, e: TradeTick)
    requires AggMatches(a, s)
    ensures AggMatches(Aggregated(a, e), s + [e])
  {
    AggregateKeepsCounts(a, s, e);
    AggregateKeepsTraders(a, s, e);
    AggregateKeepsVolumes(a, s, e);
    hide CountsMatch, TradersMatch, VolumesMatch;
  }

  lemma AggEmpty()
    ensures AggMatches(EmptyAggregate(), [])
  {
  }

  /** What a measure sees of a trade that does not depend on the token's state. */
  predicate Basic(m: Measure) {
    !m.CreatorBuy? && !m.CreatorSell? && !m.NewBuyers? && !m.NewSellers?
  }

  function Plain(e: TradeTick): TradeTick {
    e.(time := 0, isCreator := false, firstBuy := false, firstSell := false)
  }

  function Plains(s: seq<TradeTick>): seq<TradeTick> {
    seq(|s|, i requires 0 <= i < |s| => Plain(s[i]))
  }

  lemma {:induction false} PlainTotals(m: Measure, s: seq<TradeTick>)
    requires Basic(m)
    ensures Total(m, Plains(s)) == Total(m, s)
  {
    if s != [] {
      PlainTotals(m, s[..|s| - 1]);
      assert Plains(s)[..|s| - 1] == Plains(s[..|s| - 1]);
    }
  }

  lemma SameTotals(s: seq<TradeTick>, t: seq<TradeTick>)
    requires multiset(Plains(s)) == multiset(Plains(t))
    ensures EqualTotals(s, t)
  {
    forall m | Basic(m) ensures Total(m, s) == Total(m, t) {
      PlainTotals(m, s);
      PlainTotals(m, t);
      TotalIgnoresOrder(m, Plains(s), Plains(t));
    }
  }

  lemma SameTally(m: map<string, nat>, n: map<string, nat>, s: seq<TradeTick>, buys: bool)
    requires Multiplicities(m, s, buys) && Multiplicities(n, s, buys)
    ensures m == n
  {
    forall t ensures t in m <==> t in n {
      assert Tally(m, t) == Tally(n, t);
    }
    forall t | t in m ensures m[t] == n[t] {
      assert Tally(m, t) == Tally(n, t);
    }
  }

  ghost predicate EqualTotals(s: seq<TradeTick>, t: seq<TradeTick>) {
    forall m :: Basic(m) ==> Total(m, s) == Total(m, t)
  }

  lemma CountsRetarget(a: Aggregate, s: seq<TradeTick>, t: seq<TradeTick>)
    requires CountsMatch(a, s) && EqualTotals(s, t)
    ensures CountsMatch(a, t)
  {
    hide Total;
  }

  lemma TradersRetarget(a: Aggregate, s: seq<TradeTick>, t: seq<TradeTick>)
    requires TradersMatch(a, s) && EqualTotals(s, t)
    ensures TradersMatch(a, t)
  {
    hide Total;
  }

  /** Flags and order aside, the same trades give the same aggregate. */
  lemma AggRetarget(a: Aggregate, s: seq<TradeTick>, t: seq<TradeTick>)
    requires AggMatches(a, s) && multiset(Plains(s)) == multiset(Plains(t))
    ensures AggMatches(a, t)
  {
    SameTotals(s, t);
    CountsRetarget(a, s, t);
    TradersRetarget(a, s, t);
    hide Total, CountsMatch, TradersMatch;
  }

  /** Two aggregates of the same trades are the same aggregate, whatever order they were folded in. */
  lemma AggUnique(a: Aggregate, b: Aggregate, s: seq<TradeTick>)
    requires AggMatches(a, s) && AggMatches(b, s)
    ensures a == b
  {
    SameTally(a.buysBy, b.buysBy, s, true);
    SameTally(a.sellsBy, b.sellsBy, s, false);
    assert a.buyers == b.buyers && a.sellers == b.sellers;
    assert a.volumeBy == b.volumeBy by {
      assert forall t :: t in a.volumeBy <==> t in b.volumeBy;
    }
  }

  // ---------------------------------------------------------------- a life: one stay of a token in memory

  /** When the token appeared, the last time its due snapshots were asked for, where its trades and
      snapshots start in the engine's logs, whether every trade came in time order so far, and the time
      its windows were dropped. */
  datatype Life = Life(discovered: Time, latest: Time, from: nat, born: nat, ordered: bool, warmAfter: Option<Time>)

  function Stamps(snaps: seq<Snapshot>): seq<int> {
    seq(|snaps|, i requires 0 <= i < |snaps| => snaps[i].time)
  }

  function Before(s: seq<TradeTick>, at: int): seq<TradeTick> {
    Upto(s, at - 1)
  }

  /** The snapshot stamped T holds exactly the trades with time before T: volumes over all of them,
      counts over the last 8192, windows over those in each window until the windows were dropped. */
  ghost predicate ExactAt(s: Snapshot, ticks: seq<TradeTick>, warmAfter: Option<Time>) {
    var before := Before(ticks, s.time);
    && Counts(s.buyCount, s.sellCount, s.uniqueBuyers, s.uniqueSellers) == CountsOf(LastN(before))
    && s.buyQuote == Clamp(Total(BuyQuote, before)) && s.sellQuote == Clamp(Total(SellQuote, before))
    && s.buyToken == Clamp(Total(BuyToken, before)) && s.sellToken == Clamp(Total(SellToken, before))
    && s.rolling == WindowsAt(s.time, if warmAfter.Some? && s.time > warmAfter.value then [] else before)
  }

  ghost predicate TimesUpTo(ticks: seq<TradeTick>, t: int) {
    forall i :: 0 <= i < |ticks| ==> ticks[i].time <= t
  }

  /** A tick is flagged a first buy (first sell) exactly when its trader had not bought (sold) before. */
  ghost predicate FirstsOk(ticks: seq<TradeTick>) {
    ticks != [] ==>
      var front, last := ticks[..|ticks| - 1], ticks[|ticks| - 1];
      && FirstsOk(front)
      && (last.firstBuy <==> last.isBuy && last.trader !in Traders(front, true))
      && (last.firstSell <==> !last.isBuy && last.trader !in Traders(front, false))
  }

  lemma FirstsKeep(st: TokenState, ticks: seq<TradeTick>, e: Event, t: Time)
    requires e.Trade? && TradersMatch(st.agg, ticks) && FirstsOk(ticks)
    ensures FirstsOk(ticks + [TickFor(st, e, t)])
  {
    TradersAreCounted(ticks, true);
    TradersAreCounted(ticks, false);
    hide Total, Traders, VolumeByMatches;
    var tick := TickFor(st, e, t);
    assert (ticks + [tick])[..|ticks|] == ticks;
  }

  /** Stamped with its age, and tagged a milestone exactly at the milestone ages. */
  predicate Tagged(sched: SnapshotSchedule, discovered: Time, s: Snapshot) {
    && s.age == Saturate(s.time - discovered)
    && !s.kind.LifecycleSnap?
    && (s.kind.MilestoneSnap? <==> s.age in sched.milestones)
  }

  ghost predicate LifeOk(sched: SnapshotSchedule, l: Life, ticks: seq<TradeTick>, snaps: seq<Snapshot>) {
    && l.discovered <= l.latest && (l.warmAfter.Some? ==> l.warmAfter.value <= l.latest)
    && Stamps(snaps) == DueSeq(sched, l.discovered, l.discovered, l.latest)
    && FirstsOk(ticks)
    && (forall i :: 0 <= i < |snaps| ==> Tagged(sched, l.discovered, snaps[i]))
    && (l.ordered ==> TimesUpTo(ticks, l.latest)
                      && forall i :: 0 <= i < |snaps| ==> ExactAt(snaps[i], ticks, l.warmAfter))
  }

  function LastStamp(discovered: Time, snaps: seq<Snapshot>): int {
    if snaps == [] then discovered else snaps[|snaps| - 1].time
  }

  function Milestones(sched: SnapshotSchedule, snaps: seq<Snapshot>): set<int> {
    set i | 0 <= i < |snaps| && snaps[i].age in sched.milestones :: snaps[i].age as int
  }

  ghost predicate StateOk(sched: SnapshotSchedule, st: TokenState, l: Life, ticks: seq<TradeTick>,
      snaps: seq<Snapshot>) {
    && st.discoveredAt == l.discovered
    && st.lastEmitted == LastStamp(l.discovered, snaps)
    && st.emittedMilestones == Milestones(sched, snaps)
    && AggMatches(st.agg, ticks)
    && st.tradeLog == LastN(ticks)
    && WellShaped(st.rolling)
    && (st.rolling.enabled <==> st.tier.Hot?) && (st.tier.Hot? <==> l.warmAfter.None?)
    && (l.ordered ==> PrunesAll(st.rolling, l.latest, ticks))
  }

  // ---------------------------------------------------------------- steps that keep the books

  lemma NothingBetween(sched: SnapshotSchedule, l: Life, snaps: seq<Snapshot>)
    requires l.discovered <= l.latest
    requires Stamps(snaps) == DueSeq(sched, l.discovered, l.discovered, l.latest)
    ensures LastStamp(l.discovered, snaps) <= l.latest
    ensures forall t :: LastStamp(l.discovered, snaps) < t <= l.latest ==> !IsDue(sched, l.discovered, t)
    ensures forall i :: 0 <= i < |snaps| ==> l.discovered < snaps[i].time <= LastStamp(l.discovered, snaps)
  {
    var due := DueSeq(sched, l.discovered, l.discovered, l.latest);
    DueSeqMembers(sched, l.discovered, l.discovered, l.latest);
    assert |due| == |snaps|;
    forall i | 0 <= i < |snaps| ensures l.discovered < snaps[i].time <= LastStamp(l.discovered, snaps) {
      assert snaps[i].time == Stamps(snaps)[i] == due[i] && due[i] in due;
      assert snaps[|snaps| - 1].time == Stamps(snaps)[|snaps| - 1] == due[|snaps| - 1];
    }
    if snaps != [] {
      assert snaps[|snaps| - 1].time == Stamps(snaps)[|snaps| - 1] == due[|due| - 1] && due[|due| - 1] in due;
    }
    assert forall t :: t in due ==> t <= LastStamp(l.discovered, snaps) by {
      assert forall i :: 0 <= i < |due| ==> due[i] == Stamps(snaps)[i] == snaps[i].time;
    }
  }

  lemma {:induction false} UptoAll(s: seq<TradeTick>, at: int)
    requires TimesUpTo(s, at)
    ensures Upto(s, at) == s
  {
    if s != [] {
      var front, last := s[..|s| - 1], s[|s| - 1];
      UptoAll(front, at);
      assert Upto(s, at) == front + [last];
      assert s == front + [last];
    }
  }

  lemma LaterBound(r: RollingState, bound: I64, later: I64, ticks: seq<TradeTick>)
    requires PrunesAll(r, bound, ticks) && bound <= later
    ensures PrunesAll(r, later, ticks)
  {
    if r.enabled {
      forall i | 0 <= i < |WindowDurations()| ensures Prunes(WindowDurations()[i], later, r.deques[i], ticks) {
        assert Prunes(WindowDurations()[i], bound, r.deques[i], ticks);
      }
    }
  }

  lemma CountsAreOfAll(st: TokenState, ticks: seq<TradeTick>, at: I64)
    requires AggMatches(st.agg, ticks) && st.tradeLog == LastN(ticks) && TimesUpTo(ticks, at)
    ensures CountsAsOf(st, at) == CountsOf(LastN(ticks))
  {
    if ticks == [] {
      assert st.agg.buyers == {} && st.agg.sellers == {};
    } else {
      UptoAll(st.tradeLog, at);
    }
  }

  lemma WindowsAreOfAll(r: RollingState, bound: I64, ticks: seq<TradeTick>, at: I64)
    requires PrunesAll(r, bound, ticks) && bound <= at
    ensures AsOfAll(r, at) == WindowsAt(at, if r.enabled then ticks else [])
  {
    if r.enabled {
      PrunedWindowsAreExact(r, bound, ticks, at);
    } else {
      DisabledIsEmpty(r, at);
    }
  }

  /** A snapshot stamped later than every trade sees all of them. */
  lemma SnapshotIsExact(sched: SnapshotSchedule, st: TokenState, l: Life, k: TokenKey,
                        ticks: seq<TradeTick>, snaps: seq<Snapshot>, at: I64, kind: SnapshotKind)
    requires StateOk(sched, st, l, ticks, snaps)
    requires l.ordered && TimesUpTo(ticks, l.latest) && l.latest < at
    requires l.warmAfter.Some? ==> l.warmAfter.value <= l.latest
    ensures ExactAt(SnapshotOf(st, k, at, kind), ticks, l.warmAfter)
  {
    UptoAll(ticks, at - 1);
    assert Before(ticks, at) == ticks;
    CountsAreOfAll(st, ticks, at);
    WindowsAreOfAll(st.rolling, l.latest, ticks, at);
    assert VolumesMatch(st.agg, ticks);
    hide Before, Upto, AsOfAll, WindowsAt, PrunesAll, CountsMatch, TradersMatch, CountsAsOf, CountsOf, Total, LastN;
  }

  lemma DisabledIsEmpty(r: RollingState, at: I64)
    requires !r.enabled
    ensures AsOfAll(r, at) == WindowsAt(at, [])
  {
    hide Recompute;
  }

  /** What emitting a due snapshot changes in the token. */
  function WithEmitted(sched: SnapshotSchedule, st: TokenState, at: I64): TokenState {
    var age := Saturate(at - st.discoveredAt);
    st.(lastEmitted := if at > st.lastEmitted then at else st.lastEmitted,
        emittedMilestones := if age in sched.milestones then st.emittedMilestones + {age} else st.emittedMilestones)
  }

  function DueKind(sched: SnapshotSchedule, already: set<int>, age: I64): SnapshotKind {
    if age in sched.milestones && age !in already then MilestoneSnap else PeriodicSnap
  }

  /** Asking for snapshots up to a time at which nothing new is due. */
  lemma AdvanceKeeps(sched: SnapshotSchedule, st: TokenState, l: Life, ticks: seq<TradeTick>, snaps: seq<Snapshot>,
      until: Time)
    requires LifeOk(sched, l, ticks, snaps) && StateOk(sched, st, l, ticks, snaps)
    requires l.latest <= until && forall t :: l.latest < t <= until ==> !IsDue(sched, l.discovered, t)
    ensures var l' := l.(latest := until);
      LifeOk(sched, l', ticks, snaps) && StateOk(sched, st, l', ticks, snaps)
  {
    DueSplits(sched, l.discovered, l.discovered, l.latest, until);
    NothingDue(sched, l.discovered, l.latest, until);
    if l.ordered {
      LaterBound(st.rolling, l.latest, until, ticks);
    }
    hide PrunesAll, ExactAt, AggMatches, DueSeq, Tagged;
  }

  lemma DueOne(sched: SnapshotSchedule, discovered: Time, latest: Time, at: Time)
    requires discovered <= latest < at && IsDue(sched, discovered, at)
    requires forall t :: latest < t < at ==> !IsDue(sched, discovered, t)
    ensures DueSeq(sched, discovered, discovered, at) == DueSeq(sched, discovered, discovered, latest) + [at]
  {
    DueSplits(sched, discovered, discovered, latest, at - 1);
    NothingDue(sched, discovered, latest, at - 1);
  }

  lemma NotYetEmitted(sched: SnapshotSchedule, l: Life, ticks: seq<TradeTick>, snaps: seq<Snapshot>, at: Time)
    requires LifeOk(sched, l, ticks, snaps) && l.latest < at
    ensures at - l.discovered !in Milestones(sched, snaps)
    ensures forall i :: 0 <= i < |snaps| ==> snaps[i].time < at
  {
    NothingBetween(sched, l, snaps);
    forall i | 0 <= i < |snaps| ensures snaps[i].age < at - l.discovered {
      assert Tagged(sched, l.discovered, snaps[i]);
    }
  }

  lemma MilestonesAppend(sched: SnapshotSchedule, snaps: seq<Snapshot>, s: Snapshot)
    ensures Milestones(sched, snaps + [s])
         == Milestones(sched, snaps) + if s.age in sched.milestones then {s.age as int} else {}
  {
    var more := snaps + [s];
    forall a ensures a in Milestones(sched, more)
                <==> a in Milestones(sched, snaps) || (s.age in sched.milestones && a == s.age) {
      if a in Milestones(sched, snaps) {
        var i :| 0 <= i < |snaps| && snaps[i].age in sched.milestones && snaps[i].age == a;
        assert more[i].age == a;
      }
      if s.age in sched.milestones && a == s.age { assert more[|snaps|].age == a; }
    }
  }

  ghost predicate NextDue(sched: SnapshotSchedule, l: Life, at: Time) {
    && l.latest < at && IsDue(sched, l.discovered, at)
    && forall t :: l.latest < t < at ==> !IsDue(sched, l.discovered, t)
  }

  lemma EmitKeepsLife(sched: SnapshotSchedule, l: Life, ticks: seq<TradeTick>, snaps: seq<Snapshot>, s: Snapshot)
    requires LifeOk(sched, l, ticks, snaps)
    requires -TIME_LIMIT < s.time < TIME_LIMIT && NextDue(sched, l, s.time) && Tagged(sched, l.discovered, s)
    requires l.ordered ==> ExactAt(s, ticks, l.warmAfter)
    ensures LifeOk(sched, l.(latest := s.time), ticks, snaps + [s])
  {
    DueOne(sched, l.discovered, l.latest, s.time);
    assert Stamps(snaps + [s]) == Stamps(snaps) + [s.time as int];
    hide ExactAt, Tagged, DueSeq, Stamps, IsDue;
  }

  lemma EmitKeepsState(sched: SnapshotSchedule, st: TokenState, l: Life, ticks: seq<TradeTick>, snaps: seq<Snapshot>,
      s: Snapshot)
    requires LifeOk(sched, l, ticks, snaps) && StateOk(sched, st, l, ticks, snaps)
    requires -TIME_LIMIT < s.time < TIME_LIMIT && l.latest < s.time && s.age == Saturate(s.time - st.discoveredAt)
    ensures StateOk(sched, WithEmitted(sched, st, s.time), l.(latest := s.time), ticks, snaps + [s])
  {
    NothingBetween(sched, l, snaps);
    MilestonesAppend(sched, snaps, s);
    if l.ordered {
      LaterBound(st.rolling, l.latest, s.time, ticks);
    }
    hide PrunesAll, AggMatches, DueSeq, Milestones, IsDue, LastN, Stamps, ExactAt, Tagged;
  }

  /** Emitting the next due snapshot: stamped once, in order, tagged rightly, and exact. */
  lemma EmitKeeps(sched: SnapshotSchedule, st: TokenState, l: Life, k: TokenKey,
                  ticks: seq<TradeTick>, snaps: seq<Snapshot>, at: Time, kind: SnapshotKind)
    requires LifeOk(sched, l, ticks, snaps) && StateOk(sched, st, l, ticks, snaps) && NextDue(sched, l, at)
    requires kind == DueKind(sched, st.emittedMilestones, Saturate(at - st.discoveredAt))
    ensures var l' := l.(latest := at);
            var snaps' := snaps + [SnapshotOf(st, k, at, kind)];
      && LifeOk(sched, l', ticks, snaps')
      && StateOk(sched, WithEmitted(sched, st, at), l', ticks, snaps')
  {
    NotYetEmitted(sched, l, ticks, snaps, at);
    if l.ordered {
      SnapshotIsExact(sched, st, l, k, ticks, snaps, at, kind);
    }
    var s := SnapshotOf(st, k, at, kind);
    assert s.time == at && s.age == at - l.discovered && s.kind == kind;
    assert Tagged(sched, l.discovered, s) by { hide ExactAt, LifeOk, NextDue; }
    hide LifeOk, NextDue, ExactAt, Tagged, SnapshotOf;
    EmitKeepsLife(sched, l, ticks, snaps, s);
    EmitKeepsState(sched, st, l, ticks, snaps, s);
  }

  lemma LogStaysLastN(ticks: seq<TradeTick>, tick: TradeTick)
    ensures LastN(LastN(ticks) + [tick]) == LastN(ticks + [tick])
  {
  }

  /** A trade at or after a snapshot's stamp does not change what the snapshot must say. */
  lemma LaterTradeKeepsExact(s: Snapshot, ticks: seq<TradeTick>, warmAfter: Option<Time>, tick: TradeTick)
    requires ExactAt(s, ticks, warmAfter) && s.time <= tick.time
    ensures ExactAt(s, ticks + [tick], warmAfter)
  {
    assert (ticks + [tick])[..|ticks|] == ticks;
    assert Before(ticks + [tick], s.time) == Before(ticks, s.time);
    hide WindowsAt, CountsOf, Total, LastN, Upto;
  }

  lemma TradeKeepsLife(sched: SnapshotSchedule, l: Life, ticks: seq<TradeTick>, snaps: seq<Snapshot>, tick: TradeTick)
    requires LifeOk(sched, l, ticks, snaps) && FirstsOk(ticks + [tick])
    ensures LifeOk(sched, l.(ordered := l.ordered && tick.time == l.latest), ticks + [tick], snaps)
  {
    if l.ordered && tick.time == l.latest {
      NothingBetween(sched, l, snaps);
      forall i | 0 <= i < |snaps| ensures ExactAt(snaps[i], ticks + [tick], l.warmAfter) {
        LaterTradeKeepsExact(snaps[i], ticks, l.warmAfter, tick);
      }
    }
    hide ExactAt, DueSeq, Tagged, Stamps;
  }

  lemma TradeKeepsState(sched: SnapshotSchedule, st: TokenState, l: Life, ticks: seq<TradeTick>, snaps: seq<Snapshot>,
                        e: Event, t: Time)
    requires StateOk(sched, st, l, ticks, snaps) && e.Trade?
    ensures var l' := l.(ordered := l.ordered && t == l.latest);
      StateOk(sched, WithTrade(st, e, t), l', ticks + [TickFor(st, e, t)], snaps)
  {
    var tick := TickFor(st, e, t);
    AggregateKeeps(st.agg, ticks, tick);
    LogStaysLastN(ticks, tick);
    if l.ordered && t == l.latest {
      PushKeepsPruning(st.rolling, l.latest, ticks, t, tick);
    }
    hide PrunesAll, AggMatches, Aggregated, LastN, StageAfterTrade, Milestones, TickFor;
  }

  /** Folding a trade in: the token stays in order exactly when the trade is at the latest time asked for. */
  lemma TradeKeeps(sched: SnapshotSchedule, st: TokenState, l: Life, ticks: seq<TradeTick>, snaps: seq<Snapshot>,
                   e: Event, t: Time)
    requires LifeOk(sched, l, ticks, snaps) && StateOk(sched, st, l, ticks, snaps) && e.Trade?
    ensures var l' := l.(ordered := l.ordered && t == l.latest);
            var ticks' := ticks + [TickFor(st, e, t)];
      && LifeOk(sched, l', ticks', snaps)
      && StateOk(sched, WithTrade(st, e, t), l', ticks', snaps)
  {
    assert TickFor(st, e, t).time == t;
    FirstsKeep(st, ticks, e, t);
    hide LifeOk, TickFor, WithTrade;
    TradeKeepsLife(sched, l, ticks, snaps, TickFor(st, e, t));
    TradeKeepsState(sched, st, l, ticks, snaps, e, t);
  }

  function Warmed(st: TokenState): TokenState {
    st.(rolling := RollingState(false, []), tier := Warm)
  }

  /** Dropping the windows: snapshots already taken keep theirs, later ones have empty windows. */
  lemma WarmKeeps(sched: SnapshotSchedule, st: TokenState, l: Life, ticks: seq<TradeTick>, snaps: seq<Snapshot>)
    requires LifeOk(sched, l, ticks, snaps) && StateOk(sched, st, l, ticks, snaps) && st.tier.Hot?
    ensures var l' := l.(warmAfter := Some(l.latest));
      LifeOk(sched, l', ticks, snaps) && StateOk(sched, Warmed(st), l', ticks, snaps)
  {
    if l.ordered {
      NothingBetween(sched, l, snaps);
      forall i | 0 <= i < |snaps| ensures ExactAt(snaps[i], ticks, Some(l.latest)) {
        assert ExactAt(snaps[i], ticks, None);
      }
    }
    hide ExactAt, AggMatches, DueSeq, Tagged, LastN, Milestones;
  }

  /** A token's first moment: nothing folded, nothing emitted, in order. */
  lemma FreshKeeps(sched: SnapshotSchedule, e: Event, from: nat, born: nat)
    ensures var l := Life(e.time, e.time, from, born, true, None);
      LifeOk(sched, l, [], []) && StateOk(sched, FreshState(e), l, [], [])
  {
    hide AggMatches, EmptyAggregate, ExactAt, Tagged, IsDue, PrunesAll;
    AggEmpty();
    FreshPrunes(e.time);
  }

  lemma FreshPrunes(bound: I64)
    ensures WellShaped(FreshRolling()) && PrunesAll(FreshRolling(), bound, [])
  {
  }

  /** Counts are taken from the capped log: they add up to every trade before T exactly when at most
      8192 trades came before T. */
  lemma CountsCompleteIffUnderCap(s: Snapshot, ticks: seq<TradeTick>, warmAfter: Option<Time>)
    requires ExactAt(s, ticks, warmAfter)
    ensures s.buyCount + s.sellCount == |Before(ticks, s.time)| <==> |Before(ticks, s.time)| <= TRADE_LOG_CAP
    ensures |Before(ticks, s.time)| <= TRADE_LOG_CAP
      ==> Counts(s.buyCount, s.sellCount, s.uniqueBuyers, s.uniqueSellers) == CountsOf(Before(ticks, s.time))
  {
    BuysAndSells(LastN(Before(ticks, s.time)));
    hide WindowsAt, Total, Upto, Traders;
  }

  lemma {:induction false} BuysAndSells(s: seq<TradeTick>)
    ensures Total(BuyCount, s) + Total(SellCount, s) == |s|
  {
    if s != [] {
      BuysAndSells(s[..|s| - 1]);
    }
  }
}
