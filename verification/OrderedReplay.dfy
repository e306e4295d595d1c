/** An ordered replay run with clock ticks anywhere in between: which snapshots it takes, and of what. */
module OrderedReplay {
  import opened Amounts
  import opened Schedule
  import opened Domain
  import opened Rolling
  import opened TokenBooks
  import opened EngineBooks
  import opened StateEngine
  import opened Replay
  import opened Stays

  // ---------------------------------------------------------------- what one stay's snapshots are

  /** The snapshot stamped T saw exactly the trades before T; its windows did too, until the token went
      warm, which is not before the hot age. */
  ghost predicate SawAll(s: Snapshot, ticks: seq<TradeTick>, hotUntil: int) {
    var before := Before(ticks, s.time);
    && Counts(s.buyCount, s.sellCount, s.uniqueBuyers, s.uniqueSellers) == CountsOf(LastN(before))
    && s.buyQuote == Clamp(Total(BuyQuote, before)) && s.sellQuote == Clamp(Total(SellQuote, before))
    && s.buyToken == Clamp(Total(BuyToken, before)) && s.sellToken == Clamp(Total(SellToken, before))
    && (s.rolling == WindowsAt(s.time, before) || (s.time >= hotUntil && s.rolling == WindowsAt(s.time, [])))
  }

  /** The ticks are these trades, at their times, with their first buys and sells flagged. */
  ghost predicate TicksAre(ticks: seq<TradeTick>, trades: seq<Event>) {
    && |ticks| == |trades| && FirstsOk(ticks)
    && forall i :: 0 <= i < |ticks| ==>
         trades[i].Trade? && Plain(ticks[i]) == TickOf(trades[i]) && ticks[i].time == trades[i].time
  }

  /** The due snapshots of one stay: stamped with the schedule up to the last time asked for, each once and in
      order, each milestone tagged, each exact over the trades of the stay. */
  ghost predicate StayRun(sched: SnapshotSchedule, memory: MemoryPolicy, s: Stay, ticks: seq<TradeTick>,
      snaps: seq<Snapshot>) {
    && TicksAre(ticks, TradesOnly(s.own))
    && Stamps(snaps) == DueSeq(sched, s.discovered, s.discovered, s.latest)
    && forall i :: 0 <= i < |snaps| ==>
         Tagged(sched, s.discovered, snaps[i]) && SawAll(snaps[i], ticks, s.discovered + memory.hot)
  }

  ghost predicate StayTold(sched: SnapshotSchedule, memory: MemoryPolicy, s: Stay, snaps: seq<Snapshot>) {
    exists ticks :: StayRun(sched, memory, s, ticks, snaps)
  }

  /** A token's due snapshots are those of its stays, one stay after the other. */
  ghost predicate Told(sched: SnapshotSchedule, memory: MemoryPolicy, stays: seq<Stay>, snaps: seq<Snapshot>) {
    if stays == [] then snaps == []
    else
      exists cut: nat :: cut <= |snaps| && Told(sched, memory, Butlast(stays), snaps[..cut])
                         && StayTold(sched, memory, Last(stays), snaps[cut..])
  }

  // ---------------------------------------------------------------- one token along the run

  /** The token's latest life is the last of its stays. */
  predicate IsStay(l: Life, s: Stay, memory: MemoryPolicy) {
    && l.discovered == s.discovered && l.latest == s.latest && l.ordered
    && (l.warmAfter.Some? ==> l.warmAfter.value >= l.discovered + memory.hot)
  }

  ghost predicate Tracked(sched: SnapshotSchedule, memory: MemoryPolicy, k: TokenKey, b: BookSet, stays: seq<Stay>) {
    if stays == [] then k !in b.life && k !in b.tokens && SnapsIn(b.history, 0, k) == []
    else
      && k in b.life && IsStay(b.life[k], Last(stays), memory)
      && (k in b.tokens <==> !Last(stays).gone)
      && b.life[k].from <= |b.ledger| && TradesIn(b.ledger, b.life[k].from, k) == TradesOnly(Last(stays).own)
      && b.life[k].born <= |b.history|
      && Told(sched, memory, Butlast(stays), SnapsIn(b.history[..b.life[k].born], 0, k))
  }

  ghost predicate AllTracked(sched: SnapshotSchedule, memory: MemoryPolicy, b: BookSet, feed: seq<Feed>) {
    forall k :: Tracked(sched, memory, k, b, StaysOf(feed, k, memory.cold))
  }

  lemma {:induction false} SnapsSplit(k: TokenKey, history: seq<Snapshot>, born: nat)
    requires born <= |history|
    ensures SnapsIn(history, 0, k) == SnapsIn(history[..born], 0, k) + SnapsIn(history, born, k)
  {
    if |history| == born {
      assert history[..born] == history;
    } else {
      SnapsSplit(k, history[..|history| - 1], born);
      assert history[..|history| - 1][..born] == history[..born];
    }
  }

  lemma {:induction false} SnapsOfOthers(k: TokenKey, short: seq<Snapshot>, long: seq<Snapshot>)
    requires short <= long && forall i :: |short| <= i < |long| ==> long[i].key != k
    ensures SnapsIn(long, 0, k) == SnapsIn(short, 0, k)
  {
    if |short| < |long| {
      SnapsOfOthers(k, short, long[..|long| - 1]);
    } else {
      assert short == long;
    }
  }

  lemma {:induction false} LedgerTimes(ledger: seq<Entry>, from: nat, k: TokenKey)
    requires forall i :: 0 <= i < |ledger| ==> EntryOk(ledger[i])
    ensures var ticks, trades := TicksIn(ledger, from, k), TradesIn(ledger, from, k);
      && |ticks| == |trades|
      && forall i :: 0 <= i < |ticks| ==>
           trades[i].Trade? && Plain(ticks[i]) == TickOf(trades[i]) && ticks[i].time == trades[i].time
  {
    hide TickOf, Plain;
    if |ledger| > from {
      LedgerTimes(ledger[..|ledger| - 1], from, k);
      assert EntryOk(ledger[|ledger| - 1]);
    }
  }

  lemma ExactSawAll(s: Snapshot, ticks: seq<TradeTick>, warmAfter: Option<Time>, hotUntil: int)
    requires ExactAt(s, ticks, warmAfter) && (warmAfter.Some? ==> warmAfter.value >= hotUntil)
    ensures SawAll(s, ticks, hotUntil)
  {
    hide Before, Total, CountsOf, LastN, WindowsAt;
  }

  /** The books of a life that is a stay tell that stay, whether the token is still in memory or not. */
  lemma LifeTold(sched: SnapshotSchedule, memory: MemoryPolicy, k: TokenKey, b: BookSet, s: Stay)
    requires BooksOk(sched, b.tokens, b.life, b.ledger, b.history)
    requires k in b.life && IsStay(b.life[k], s, memory) && TradesIn(b.ledger, b.life[k].from, k) == TradesOnly(s.own)
    ensures b.life[k].born <= |b.history| && StayTold(sched, memory, s, SnapsIn(b.history, b.life[k].born, k))
  {
    hide TicksIn, SnapsIn, TradesIn, ExactAt, Tagged, Stamps, DueSeq, TradesOnly, FirstsOk, EntryOk, Plain, TickOf,
      StateOk, SawAll;
    var l := b.life[k];
    assert LifeKept(sched, k, l, b.ledger, b.history);
    LedgerTimes(b.ledger, l.from, k);
    var ticks, snaps := TicksIn(b.ledger, l.from, k), SnapsIn(b.history, l.born, k);
    forall i | 0 <= i < |snaps| ensures SawAll(snaps[i], ticks, s.discovered + memory.hot) {
      ExactSawAll(snaps[i], ticks, l.warmAfter, s.discovered + memory.hot);
    }
    assert StayRun(sched, memory, s, ticks, snaps);
  }

  lemma ToldMore(sched: SnapshotSchedule, memory: MemoryPolicy, stays: seq<Stay>, early: seq<Snapshot>,
      late: seq<Snapshot>)
    requires stays != [] && Told(sched, memory, Butlast(stays), early) && StayTold(sched, memory, Last(stays), late)
    ensures Told(sched, memory, stays, early + late)
  {
    hide StayTold;
    var both := early + late;
    assert both[..|early|] == early && both[|early|..] == late;
  }

  lemma TrackedIsTold(sched: SnapshotSchedule, memory: MemoryPolicy, k: TokenKey, b: BookSet, stays: seq<Stay>)
    requires BooksOk(sched, b.tokens, b.life, b.ledger, b.history) && Tracked(sched, memory, k, b, stays)
    ensures Told(sched, memory, stays, SnapsIn(b.history, 0, k))
  {
    hide BooksOk, Told, StayTold, SnapsIn, TradesIn, TradesOnly, IsStay;
    if stays == [] {
      ToldNothing(sched, memory);
    } else {
      LifeTold(sched, memory, k, b, Last(stays));
      SnapsSplit(k, b.history, b.life[k].born);
      ToldMore(sched, memory, stays, SnapsIn(b.history[..b.life[k].born], 0, k), SnapsIn(b.history, b.life[k].born, k));
    }
  }

  lemma ToldNothing(sched: SnapshotSchedule, memory: MemoryPolicy)
    ensures Told(sched, memory, [], [])
  {
  }

  // ---------------------------------------------------------------- an event

  lemma PrefixStays<T>(short: seq<T>, long: seq<T>, n: nat)
    requires short <= long && n <= |short|
    ensures long[..n] == short[..n]
  {
  }

  lemma OneEvent(e: Event)
    ensures TradesOnly([e]) == if e.Trade? then [e] else []
  {
    TradesAppend([], e);
    assert [] + [e] == [e];
  }

  /** An event of a token not in memory begins a stay; what came before is told. */
  lemma StayBegins(sched: SnapshotSchedule, memory: MemoryPolicy, k: TokenKey, a: BookSet, b: BookSet,
      stays: seq<Stay>, e: Event)
    requires BooksOk(sched, a.tokens, a.life, a.ledger, a.history) && Tracked(sched, memory, k, a, stays)
    requires k !in a.tokens && a.ledger <= b.ledger && a.history <= b.history && Folded(k, e, a, b)
    requires Current(k, b) == if e.Trade? then [e] else []
    ensures Tracked(sched, memory, k, b, Extended(stays, e))
  {
    hide BooksOk, Told, SnapsIn, TradesIn, TradesOnly;
    TrackedIsTold(sched, memory, k, a, stays);
    assert Extended(stays, e) == stays + [Stay(e.time, e.time, [e], false)];
    assert Butlast(Extended(stays, e)) == stays;
    PrefixStays(a.history, b.history, |a.history|);
    assert a.history[..|a.history|] == a.history;
    OneEvent(e);
  }

  /** An event of a token in memory goes on with its stay. */
  lemma StayGoesOn(sched: SnapshotSchedule, memory: MemoryPolicy, k: TokenKey, a: BookSet, b: BookSet,
      stays: seq<Stay>, e: Event)
    requires Tracked(sched, memory, k, a, stays)
    requires k in a.tokens && a.ledger <= b.ledger && a.history <= b.history && Folded(k, e, a, b)
    requires a.life[k].latest <= e.time && Current(k, b) == Current(k, a) + if e.Trade? then [e] else []
    ensures Tracked(sched, memory, k, b, Extended(stays, e))
  {
    hide Told, SnapsIn, TradesIn, TradesOnly;
    assert Butlast(Extended(stays, e)) == Butlast(stays);
    PrefixStays(a.history, b.history, a.life[k].born);
    TradesAppend(Last(stays).own, e);
  }

  lemma TrackedEvent(sched: SnapshotSchedule, memory: MemoryPolicy, k: TokenKey, a: BookSet, b: BookSet,
      stays: seq<Stay>, e: Event)
    requires BooksOk(sched, a.tokens, a.life, a.ledger, a.history) && Tracked(sched, memory, k, a, stays)
    requires Only(k, a, b) && Folded(k, e, a, b)
    requires stays != [] ==> Last(stays).latest <= e.time
    ensures Tracked(sched, memory, k, b, Extended(stays, e))
  {
    hide BooksOk, TradesOnly, TradesIn, SnapsIn, Folded, Told;
    FoldedCurrent(k, e, a, b);
    OnlyGrows(k, a, b);
    hide Only;
    if k in a.tokens {
      hide Current, Extended;
      StayGoesOn(sched, memory, k, a, b, stays, e);
    } else {
      assert Current(k, a) == [] && [] + (if e.Trade? then [e] else []) == if e.Trade? then [e] else [];
      hide Current, Extended;
      StayBegins(sched, memory, k, a, b, stays, e);
    }
  }

  lemma TrackedOther(sched: SnapshotSchedule, memory: MemoryPolicy, j: TokenKey, k: TokenKey, a: BookSet, b: BookSet,
      stays: seq<Stay>)
    requires Tracked(sched, memory, j, a, stays) && j != k && Only(k, a, b)
    ensures Tracked(sched, memory, j, b, stays)
  {
    hide TradesOnly, TradesIn, SnapsIn, Told, IsStay;
    if stays == [] {
      SnapsOfOthers(j, a.history, b.history);
    } else {
      TradesOfOthers(k, j, a.ledger, b.ledger, a.life[j].from);
      PrefixStays(a.history, b.history, a.life[j].born);
    }
  }

  lemma AllTrackedEvent(sched: SnapshotSchedule, memory: MemoryPolicy, k: TokenKey, a: BookSet, b: BookSet,
      feed: seq<Feed>, i: nat)
    requires WellTimed(feed) && i < |feed| && About(feed[i], k)
    requires BooksOk(sched, a.tokens, a.life, a.ledger, a.history) && AllTracked(sched, memory, a, feed[..i])
    requires Only(k, a, b) && Folded(k, feed[i].event, a, b)
    ensures AllTracked(sched, memory, b, feed[..i + 1])
  {
    hide BooksOk, KeyOf, Only, Folded, WellTimed, StaysOf, Tracked, Extended, TickedTo;
    var e, next := feed[i].event, feed[..i + 1];
    var stays := StaysOf(feed[..i], k, memory.cold);
    assert Tracked(sched, memory, k, a, stays);
    NothingEarlier(feed, i, k, memory.cold, i);
    TrackedEvent(sched, memory, k, a, b, stays, e);
    forall j ensures Tracked(sched, memory, j, b, StaysOf(next, j, memory.cold)) {
      StaysStep(feed, i, j, memory.cold);
      if j != k {
        assert Tracked(sched, memory, j, a, StaysOf(feed[..i], j, memory.cold));
        TrackedOther(sched, memory, j, k, a, b, StaysOf(feed[..i], j, memory.cold));
      }
    }
  }

  // ---------------------------------------------------------------- a tick

  lemma TrackedTick(sched: SnapshotSchedule, memory: MemoryPolicy, k: TokenKey, a: BookSet, b: BookSet,
      stays: seq<Stay>, t: Time)
    requires Tracked(sched, memory, k, a, stays) && TickedAllBut({}, t, memory, a, b)
    ensures Tracked(sched, memory, k, b, TickedTo(stays, t, memory.cold))
  {
    hide TradesOnly, TradesIn, SnapsIn, Told;
    if k in a.tokens {
      assert Ticked(k, t, memory, a, b);
      assert Butlast(TickedTo(stays, t, memory.cold)) == Butlast(stays);
    }
    if stays == [] {
      SnapsOfOthers(k, a.history, b.history);
    } else {
      PrefixStays(a.history, b.history, a.life[k].born);
    }
  }

  lemma AllTrackedTick(sched: SnapshotSchedule, memory: MemoryPolicy, a: BookSet, b: BookSet, feed: seq<Feed>, i: nat)
    requires i < |feed| && feed[i].TicksTo?
    requires AllTracked(sched, memory, a, feed[..i]) && TickedAllBut({}, feed[i].time, memory, a, b)
    ensures AllTracked(sched, memory, b, feed[..i + 1])
  {
    hide TickedAllBut, StaysOf, Tracked, TickedTo;
    var next := feed[..i + 1];
    forall k ensures Tracked(sched, memory, k, b, StaysOf(next, k, memory.cold)) {
      StaysStep(feed, i, k, memory.cold);
      assert Tracked(sched, memory, k, a, StaysOf(feed[..i], k, memory.cold));
      TrackedTick(sched, memory, k, a, b, StaysOf(feed[..i], k, memory.cold), feed[i].time);
    }
  }

  // ---------------------------------------------------------------- the run

  /** The event order so far: what is still to come is not before what was last applied. */
  ghost predicate OrderAhead(last: Option<StateOrder>, feed: seq<Feed>, i: nat) {
    last.Some? ==> forall j :: i <= j < |feed| && feed[j].Arrives? ==> !Less(FromCanonical(feed[j].event), last.value)
  }

  lemma OrderAfter(feed: seq<Feed>, i: nat)
    requires WellTimed(feed) && i < |feed| && feed[i].Arrives?
    ensures OrderAhead(Some(FromCanonical(feed[i].event)), feed, i + 1)
  {
    hide Less, FromCanonical;
    forall j | i + 1 <= j < |feed| && feed[j].Arrives?
      ensures !Less(FromCanonical(feed[j].event), FromCanonical(feed[i].event))
    {
      assert Follows(feed[i], feed[j]);
    }
  }

  lemma TrackedAtStart(sched: SnapshotSchedule, memory: MemoryPolicy, b: BookSet, feed: seq<Feed>)
    requires b.tokens == map[] && b.life == map[] && b.ledger == [] && b.history == []
    ensures AllTracked(sched, memory, b, feed[..0])
  {
    assert feed[..0] == [];
  }

  lemma AllTold(sched: SnapshotSchedule, memory: MemoryPolicy, b: BookSet, feed: seq<Feed>)
    requires BooksOk(sched, b.tokens, b.life, b.ledger, b.history) && AllTracked(sched, memory, b, feed)
    ensures forall k :: Told(sched, memory, StaysOf(feed, k, memory.cold), SnapsIn(b.history, 0, k))
  {
    hide BooksOk, Told, Tracked, StaysOf, SnapsIn;
    forall k ensures Told(sched, memory, StaysOf(feed, k, memory.cold), SnapsIn(b.history, 0, k)) {
      assert Tracked(sched, memory, k, b, StaysOf(feed, k, memory.cold));
      TrackedIsTold(sched, memory, k, b, StaysOf(feed, k, memory.cold));
    }
  }

  method FeedEvent(engine: StateEngine, feed: seq<Feed>, i: nat)
    requires engine.Valid() && engine.replay && engine.unresolved == []
    requires WellTimed(feed) && i < |feed| && feed[i].Arrives?
    requires OrderAhead(engine.lastApplied, feed, i)
    requires AllTracked(engine.schedule, engine.memory, engine.Books(), feed[..i])
    modifies engine
    ensures engine.Valid() && engine.unresolved == []
    ensures OrderAhead(engine.lastApplied, feed, i + 1)
    ensures AllTracked(engine.schedule, engine.memory, engine.Books(), feed[..i + 1])
  {
    hide BooksOk, IndexOk, Modest, NormalKey, Only, NoneStuck, Less, FromCanonical, Folded, AllTracked, NewKey, Follows;
    var e := feed[i].event;
    assert e.token != "";
    assert !engine.IsLate(e);
    engine.PushEvent(e);
    hide WellTimed, OrderAhead;
    AllTrackedEvent(engine.schedule, engine.memory, KeyOf(e).value, old(engine.Books()), engine.Books(), feed, i);
    OrderAfter(feed, i);
  }

  method FeedTick(engine: StateEngine, feed: seq<Feed>, i: nat)
    requires engine.Valid() && engine.unresolved == []
    requires i < |feed| && feed[i].TicksTo?
    requires OrderAhead(engine.lastApplied, feed, i)
    requires AllTracked(engine.schedule, engine.memory, engine.Books(), feed[..i])
    modifies engine
    ensures engine.Valid() && engine.unresolved == []
    ensures OrderAhead(engine.lastApplied, feed, i + 1)
    ensures AllTracked(engine.schedule, engine.memory, engine.Books(), feed[..i + 1])
  {
    hide BooksOk, IndexOk, Modest, NormalKey, Only, NoneStuck, Less, FromCanonical, AllTracked, NewKey, TickedAllBut;
    var out := engine.FinishUntil(feed[i].time);
    AllTrackedTick(engine.schedule, engine.memory, old(engine.Books()), engine.Books(), feed, i);
  }

  /** Whatever ticks come between the events, an ordered run ends with the due snapshots of every stay of every
      token: each stay's schedule up to the last time asked for, of exact snapshots. */
  method Run(sched: SnapshotSchedule, memory: MemoryPolicy, feed: seq<Feed>) returns (history: seq<Snapshot>)
    requires Modest(sched) && WellTimed(feed)
    ensures forall k :: Told(sched, memory, StaysOf(feed, k, memory.cold), SnapsIn(history, 0, k))
  {
    hide BooksOk, IndexOk, Modest, NormalKey, Only, NoneStuck, Less, FromCanonical, AllTracked, NewKey,
      WellTimed, OrderAhead, Told, StaysOf, SnapsIn;
    var engine := new StateEngine(sched, memory, true);
    TrackedAtStart(sched, memory, engine.Books(), feed);
    OrderAtStart(feed);
    var i := 0;
    while i < |feed|
      invariant 0 <= i <= |feed| && engine.Valid() && engine.unresolved == []
      invariant OrderAhead(engine.lastApplied, feed, i)
      invariant AllTracked(sched, memory, engine.Books(), feed[..i])
    {
      if feed[i].Arrives? {
        FeedEvent(engine, feed, i);
      } else {
        FeedTick(engine, feed, i);
      }
      i := i + 1;
    }
    assert feed[..i] == feed;
    AllTold(sched, memory, engine.Books(), feed);
    history := engine.history;
  }

  lemma OrderAtStart(feed: seq<Feed>)
    ensures OrderAhead(None, feed, 0)
  {
  }
}
