/** Two runs over the same events with clock ticks at different times: when their snapshots are the same, and an
    input on which they are not. */
module Cadence {
  import opened Amounts
  import opened Schedule
  import opened Domain
  import opened Rolling
  import opened TokenBooks
  import opened EngineBooks
  import opened StateEngine
  import opened Replay
  import opened Stays
  import opened OrderedReplay

  // ---------------------------------------------------------------- the same trades leave the same ticks

  function Unmarked(e: TradeTick): TradeTick {
    e.(isCreator := false)
  }

  /** The same ticks, creator marks aside. */
  ghost predicate Twins(s: seq<TradeTick>, t: seq<TradeTick>) {
    |s| == |t| && forall i :: 0 <= i < |s| ==> Unmarked(s[i]) == Unmarked(t[i])
  }

  lemma TwinTraders(s: seq<TradeTick>, t: seq<TradeTick>, buys: bool)
    requires Twins(s, t)
    ensures Traders(s, buys) == Traders(t, buys)
  {
    forall x ensures x in Traders(s, buys) <==> x in Traders(t, buys) {
      if x in Traders(s, buys) {
        var i :| 0 <= i < |s| && s[i].isBuy == buys && s[i].trader == x;
        assert Unmarked(s[i]) == Unmarked(t[i]);
      }
      if x in Traders(t, buys) {
        var i :| 0 <= i < |t| && t[i].isBuy == buys && t[i].trader == x;
        assert Unmarked(s[i]) == Unmarked(t[i]);
      }
    }
  }

  lemma TwinEnds(s: seq<TradeTick>, t: seq<TradeTick>)
    requires Twins(s, t) && s != []
    ensures Twins(s[..|s| - 1], t[..|t| - 1]) && Unmarked(s[|s| - 1]) == Unmarked(t[|t| - 1])
  {
  }

  lemma {:induction false} SameTradesAreTwins(s: seq<TradeTick>, t: seq<TradeTick>, trades: seq<Event>)
    requires TicksAre(s, trades) && TicksAre(t, trades)
    ensures Twins(s, t)
  {
    hide TickOf, Traders;
    if s != [] {
      var s', t' := s[..|s| - 1], t[..|t| - 1];
      SameTradesAreTwins(s', t', trades[..|trades| - 1]);
      TwinTraders(s', t', true);
      TwinTraders(s', t', false);
      assert Plain(s[|s| - 1]) == Plain(t[|t| - 1]);
    }
  }

  predicate Unmarking(m: Measure) {
    !m.CreatorBuy? && !m.CreatorSell?
  }

  lemma {:induction false} TwinTotals(s: seq<TradeTick>, t: seq<TradeTick>, m: Measure)
    requires Twins(s, t) && Unmarking(m)
    ensures Total(m, s) == Total(m, t)
  {
    hide Weight;
    if s != [] {
      TwinEnds(s, t);
      TwinTotals(s[..|s| - 1], t[..|t| - 1], m);
      TwinWeight(s[|s| - 1], t[|t| - 1], m);
    }
  }

  lemma TwinWeight(e: TradeTick, f: TradeTick, m: Measure)
    requires Unmarked(e) == Unmarked(f) && Unmarking(m)
    ensures Weight(m, e) == Weight(m, f)
  {
    assert Weight(m, e) == Weight(m, Unmarked(e)) && Weight(m, f) == Weight(m, Unmarked(f));
  }

  lemma {:induction false} TwinSizes(s: seq<TradeTick>, t: seq<TradeTick>)
    requires Twins(s, t)
    ensures Quotes(s) == Quotes(t) && Smallest(s) == Smallest(t) && Largest(s) == Largest(t)
  {
    assert Quotes(s) == Quotes(t) by {
      forall i | 0 <= i < |s| ensures s[i].quote == t[i].quote { assert Unmarked(s[i]) == Unmarked(t[i]); }
    }
    if s != [] {
      TwinEnds(s, t);
      TwinSizes(s[..|s| - 1], t[..|t| - 1]);
    }
  }

  lemma {:induction false} TwinUpto(s: seq<TradeTick>, t: seq<TradeTick>, at: int)
    requires Twins(s, t)
    ensures Twins(Upto(s, at), Upto(t, at))
  {
    if s != [] {
      TwinEnds(s, t);
      TwinUpto(s[..|s| - 1], t[..|t| - 1], at);
    }
  }

  lemma {:induction false} TwinWithin(d: I64, at: I64, s: seq<TradeTick>, t: seq<TradeTick>)
    requires Twins(s, t)
    ensures Twins(Within(d, at, s), Within(d, at, t))
  {
    if s != [] {
      TwinEnds(s, t);
      TwinWithin(d, at, s[..|s| - 1], t[..|t| - 1]);
    }
  }

  lemma TwinLast(s: seq<TradeTick>, t: seq<TradeTick>)
    requires Twins(s, t)
    ensures Twins(LastN(s), LastN(t))
  {
    hide Unmarked;
  }

  lemma TwinCounts(s: seq<TradeTick>, t: seq<TradeTick>)
    requires Twins(s, t)
    ensures CountsOf(s) == CountsOf(t)
  {
    hide Twins, Total, Traders;
    TwinTotals(s, t, BuyCount);
    TwinTotals(s, t, SellCount);
    TwinTraders(s, t, true);
    TwinTraders(s, t, false);
  }

  // ---------------------------------------------------------------- what two snapshots have in common

  /** The same window, what the creator traded in it aside. */
  predicate SameWindow(a: WindowSnapshot, b: WindowSnapshot) {
    a.(creatorBuy := 0, creatorSell := 0) == b.(creatorBuy := 0, creatorSell := 0)
  }

  predicate SameWindows(a: seq<WindowSnapshot>, b: seq<WindowSnapshot>) {
    |a| == |b| && forall i :: 0 <= i < |a| ==> SameWindow(a[i], b[i])
  }

  /** The same account of the trades before the snapshot, with the same windows before the hot age. */
  predicate SameAccount(a: Snapshot, b: Snapshot, hot: I64) {
    && a.time == b.time && a.age == b.age && a.kind == b.kind
    && a.buyCount == b.buyCount && a.sellCount == b.sellCount
    && a.uniqueBuyers == b.uniqueBuyers && a.uniqueSellers == b.uniqueSellers
    && a.buyQuote == b.buyQuote && a.sellQuote == b.sellQuote && a.buyToken == b.buyToken && a.sellToken == b.sellToken
    && (a.age < hot ==> SameWindows(a.rolling, b.rolling))
  }

  predicate SameAccounts(a: seq<Snapshot>, b: seq<Snapshot>, hot: I64) {
    |a| == |b| && forall i :: 0 <= i < |a| ==> SameAccount(a[i], b[i], hot)
  }

  lemma TwinWindow(d: I64, s: seq<TradeTick>, t: seq<TradeTick>)
    requires Twins(s, t)
    ensures SameWindow(Recompute(d, s), Recompute(d, t))
  {
    hide Twins, Total, Traders, Smallest, Largest, Quotes, NetSigned, MedianRaw;
    TwinTotals(s, t, BuyCount);
    TwinTotals(s, t, SellCount);
    TwinTotals(s, t, NewBuyers);
    TwinTotals(s, t, NewSellers);
    TwinTotals(s, t, BuyQuote);
    TwinTotals(s, t, SellQuote);
    TwinTotals(s, t, BuyToken);
    TwinTotals(s, t, SellToken);
    TwinTraders(s, t, true);
    TwinTraders(s, t, false);
    TwinSizes(s, t);
  }

  lemma TwinWindows(at: I64, s: seq<TradeTick>, t: seq<TradeTick>)
    requires Twins(s, t)
    ensures SameWindows(WindowsAt(at, s), WindowsAt(at, t))
  {
    hide Twins, Recompute, SameWindow, Within;
    forall i | 0 <= i < |WindowDurations()| ensures SameWindow(WindowsAt(at, s)[i], WindowsAt(at, t)[i]) {
      var d := WindowDurations()[i];
      TwinWithin(d, at, s, t);
      TwinWindow(d, Within(d, at, s), Within(d, at, t));
    }
  }

  lemma SameSight(a: Snapshot, b: Snapshot, s: seq<TradeTick>, t: seq<TradeTick>, memory: MemoryPolicy,
                  sched: SnapshotSchedule, d: Time)
    requires Twins(s, t) && a.time == b.time
    requires SawAll(a, s, d + memory.hot) && SawAll(b, t, d + memory.hot) && Tagged(sched, d, a) && Tagged(sched, d, b)
    requires d < a.time < TIME_LIMIT
    ensures SameAccount(a, b, memory.hot)
  {
    var u, v := Before(s, a.time), Before(t, a.time);
    TwinUpto(s, t, a.time - 1);
    hide Before, Total, CountsOf, LastN, Twins, WindowsAt, SameWindows, Unmarking;
    TwinLast(u, v);
    TwinCounts(LastN(u), LastN(v));
    TotalsOfTwins(u, v);
    TwinWindows(a.time, u, v);
  }

  lemma TotalsOfTwins(u: seq<TradeTick>, v: seq<TradeTick>)
    requires Twins(u, v)
    ensures Total(BuyQuote, u) == Total(BuyQuote, v) && Total(SellQuote, u) == Total(SellQuote, v)
    ensures Total(BuyToken, u) == Total(BuyToken, v) && Total(SellToken, u) == Total(SellToken, v)
  {
    hide Total, Twins;
    TwinTotals(u, v, BuyQuote);
    TwinTotals(u, v, SellQuote);
    TwinTotals(u, v, BuyToken);
    TwinTotals(u, v, SellToken);
  }

  // ---------------------------------------------------------------- the same stays

  /** The same events from the same moment, and the same times due. */
  ghost predicate SameStay(sched: SnapshotSchedule, s: Stay, t: Stay) {
    && s.discovered == t.discovered && s.own == t.own
    && DueSeq(sched, s.discovered, s.discovered, s.latest) == DueSeq(sched, t.discovered, t.discovered, t.latest)
  }

  ghost predicate SameStays(sched: SnapshotSchedule, a: seq<Stay>, b: seq<Stay>) {
    |a| == |b| && forall i :: 0 <= i < |a| ==> SameStay(sched, a[i], b[i])
  }

  lemma StampTimes(sched: SnapshotSchedule, d: Time, latest: Time, snaps: seq<Snapshot>)
    requires Stamps(snaps) == DueSeq(sched, d, d, latest)
    ensures forall i :: 0 <= i < |snaps| ==> d < snaps[i].time <= latest
  {
    var due := DueSeq(sched, d, d, latest);
    DueSeqMembers(sched, d, d, latest);
    hide DueSeq;
    forall i | 0 <= i < |snaps| ensures d < snaps[i].time <= latest {
      assert Stamps(snaps)[i] in due;
    }
  }

  lemma OneStayAlike(sched: SnapshotSchedule, memory: MemoryPolicy, s: Stay, t: Stay, snaps: seq<Snapshot>,
      snaps': seq<Snapshot>)
    requires SameStay(sched, s, t) && StayTold(sched, memory, s, snaps) && StayTold(sched, memory, t, snaps')
    ensures SameAccounts(snaps, snaps', memory.hot) && |snaps| == |DueSeq(sched, s.discovered, s.discovered, s.latest)|
  {
    var d := s.discovered;
    var ticks :| StayRun(sched, memory, s, ticks, snaps);
    var ticks' :| StayRun(sched, memory, t, ticks', snaps');
    SameTradesAreTwins(ticks, ticks', TradesOnly(s.own));
    StampTimes(sched, d, s.latest, snaps);
    assert |snaps| == |Stamps(snaps)| == |Stamps(snaps')| == |snaps'|;
    hide Twins, SameAccount, SawAll, Tagged, TicksAre, DueSeq, TradesOnly;
    forall i | 0 <= i < |snaps| ensures SameAccount(snaps[i], snaps'[i], memory.hot) {
      assert Stamps(snaps)[i] == Stamps(snaps')[i];
      SameSight(snaps[i], snaps'[i], ticks, ticks', memory, sched, d);
    }
  }

  /** The same stays take the same snapshots. */
  lemma {:induction false} SameStaysAlike(sched: SnapshotSchedule, memory: MemoryPolicy, a: seq<Stay>, b: seq<Stay>,
                                          snaps: seq<Snapshot>, snaps': seq<Snapshot>)
    requires SameStays(sched, a, b) && Told(sched, memory, a, snaps) && Told(sched, memory, b, snaps')
    ensures SameAccounts(snaps, snaps', memory.hot)
  {
    hide SameStay, SameAccount, StayTold;
    if a != [] {
      var cut: nat :| cut <= |snaps| && Told(sched, memory, Butlast(a), snaps[..cut])
        && StayTold(sched, memory, Last(a), snaps[cut..]);
      var cut': nat :| cut' <= |snaps'| && Told(sched, memory, Butlast(b), snaps'[..cut'])
        && StayTold(sched, memory, Last(b), snaps'[cut'..]);
      SameStaysAlike(sched, memory, Butlast(a), Butlast(b), snaps[..cut], snaps'[..cut']);
      OneStayAlike(sched, memory, Last(a), Last(b), snaps[cut..], snaps'[cut'..]);
      assert |snaps| == |snaps'| && cut == cut';
      forall i | 0 <= i < |snaps| ensures SameAccount(snaps[i], snaps'[i], memory.hot) {
        if i < cut {
          assert snaps[..cut][i] == snaps[i] && snaps'[..cut][i] == snaps'[i];
        } else {
          assert snaps[cut..][i - cut] == snaps[i] && snaps'[cut..][i - cut] == snaps'[i];
        }
      }
    }
  }

  // ---------------------------------------------------------------- ticks at other times

  predicate NotPast(feed: seq<Feed>, until: Time) {
    forall i :: 0 <= i < |feed| ==> match feed[i] { case Arrives(e) => e.time <= until case TicksTo(t) => t <= until }
  }

  predicate EndsAt(feed: seq<Feed>, until: Time) {
    feed != [] && Last(feed) == TicksTo(until) && NotPast(feed, until)
  }

  /** A stay's last time asked for is in the run; and a token that is gone was asked past its cold age. */
  predicate StayWithin(s: Stay, until: Time, cold: I64) {
    && s.discovered <= s.latest <= until
    && (s.gone ==> Saturate(s.latest - s.discovered) >= cold)
  }

  lemma {:induction false} StaysWithin(feed: seq<Feed>, k: TokenKey, cold: I64, until: Time)
    requires NotPast(feed, until)
    ensures forall i :: 0 <= i < |StaysOf(feed, k, cold)| ==> StayWithin(StaysOf(feed, k, cold)[i], until, cold)
  {
    hide KeyOf;
    if feed != [] {
      StaysWithin(Butlast(feed), k, cold, until);
    }
  }

  lemma LastIsAsked(feed: seq<Feed>, k: TokenKey, cold: I64, until: Time)
    requires EndsAt(feed, until) && StaysOf(feed, k, cold) != []
    ensures Last(StaysOf(feed, k, cold)).gone || Last(StaysOf(feed, k, cold)).latest == until
  {
    hide KeyOf;
    StaysWithin(Butlast(feed), k, cold, until);
    assert StaysOf(feed, k, cold) == TickedTo(StaysOf(Butlast(feed), k, cold), until, cold);
  }

  /** Every stay takes its whole schedule: it lasts to the end of the run, or past its cold age. */
  lemma StayIsWhole(sched: SnapshotSchedule, feed: seq<Feed>, k: TokenKey, cold: I64, until: Time, i: nat)
    requires CoversSchedule(sched, cold) && WellTimed(feed) && EndsAt(feed, until) && i < |StaysOf(feed, k, cold)|
    ensures var s := StaysOf(feed, k, cold)[i];
      s.discovered <= s.latest <= until
      && DueSeq(sched, s.discovered, s.discovered, s.latest) == DueSeq(sched, s.discovered, s.discovered, until)
  {
    hide CoversSchedule, DueSeq, KeyOf, WellTimed, StaysOf;
    StaysWithin(feed, k, cold, until);
    LastIsAsked(feed, k, cold, until);
    assert feed[..|feed|] == feed;
    StaysSucceed(feed, |feed|, k, cold);
    var stays := StaysOf(feed, k, cold);
    assert i < |stays| - 1 ==> Precedes(stays[i], stays[|stays| - 1]);
    if stays[i].gone {
      WholeSchedule(sched, stays[i].discovered, cold, stays[i].latest, until);
    }
  }

  // ---------------------------------------------------------------- exactly when the ticks do not matter

  /** What falls due over all the stays, in their order. */
  ghost function AllDue(sched: SnapshotSchedule, stays: seq<Stay>): seq<int> {
    if stays == [] then []
    else AllDue(sched, Butlast(stays)) + DueSeq(sched, Last(stays).discovered, Last(stays).discovered,
      Last(stays).latest)
  }

  ghost predicate Quiet(sched: SnapshotSchedule, s: Stay) {
    DueSeq(sched, s.discovered, s.discovered, s.latest) == []
  }

  /** Nothing falls due in any stay but the first. */
  ghost predicate LaterStaysQuiet(sched: SnapshotSchedule, stays: seq<Stay>) {
    forall i :: 1 <= i < |stays| ==> Quiet(sched, stays[i])
  }

  lemma StampsConcat(a: seq<Snapshot>, b: seq<Snapshot>)
    ensures Stamps(a + b) == Stamps(a) + Stamps(b)
  {
  }

  lemma StayStamps(sched: SnapshotSchedule, memory: MemoryPolicy, s: Stay, snaps: seq<Snapshot>)
    requires StayTold(sched, memory, s, snaps)
    ensures Stamps(snaps) == DueSeq(sched, s.discovered, s.discovered, s.latest)
  {
    hide TicksAre, SawAll, Tagged, DueSeq;
  }

  lemma {:induction false} ToldStamps(sched: SnapshotSchedule, memory: MemoryPolicy, stays: seq<Stay>,
      snaps: seq<Snapshot>)
    requires Told(sched, memory, stays, snaps)
    ensures Stamps(snaps) == AllDue(sched, stays)
  {
    hide StayTold, DueSeq;
    if stays != [] {
      var cut: nat :| cut <= |snaps| && Told(sched, memory, Butlast(stays), snaps[..cut])
        && StayTold(sched, memory, Last(stays), snaps[cut..]);
      ToldStamps(sched, memory, Butlast(stays), snaps[..cut]);
      StayStamps(sched, memory, Last(stays), snaps[cut..]);
      StampsConcat(snaps[..cut], snaps[cut..]);
      assert snaps == snaps[..cut] + snaps[cut..];
    }
  }

  lemma {:induction false} DueOfFirst(sched: SnapshotSchedule, stays: seq<Stay>)
    requires stays != []
    ensures var first := DueSeq(sched, stays[0].discovered, stays[0].discovered, stays[0].latest);
      first <= AllDue(sched, stays) && (AllDue(sched, stays) == first <==> LaterStaysQuiet(sched, stays))
  {
    hide DueSeq;
    if |stays| == 1 {
      assert AllDue(sched, Butlast(stays)) == [];
    } else {
      DueOfFirst(sched, Butlast(stays));
      assert LaterStaysQuiet(sched, stays) <==> LaterStaysQuiet(sched, Butlast(stays)) && Quiet(sched, Last(stays)) by {
        assert Last(stays) == stays[|stays| - 1];
        assert forall i :: 0 <= i < |stays| - 1 ==> Butlast(stays)[i] == stays[i];
      }
    }
  }

  /** A run's due snapshots are stamped as if its token had never left exactly when nothing falls due in any stay
      but the first. */
  lemma StampsExactly(sched: SnapshotSchedule, memory: MemoryPolicy, k: TokenKey, feed: seq<Feed>, until: Time,
      snaps: seq<Snapshot>)
    requires CoversSchedule(sched, memory.cold) && WellTimed(feed) && EndsAt(feed, until)
    requires StaysOf(feed, k, memory.cold) != [] && Told(sched, memory, StaysOf(feed, k, memory.cold), snaps)
    ensures var stays := StaysOf(feed, k, memory.cold);
      Stamps(snaps) == DueSeq(sched, stays[0].discovered, stays[0].discovered, until) <==> LaterStaysQuiet(sched, stays)
  {
    hide CoversSchedule, WellTimed, EndsAt, Told, StaysOf, DueSeq, LaterStaysQuiet, AllDue, Stamps;
    StayIsWhole(sched, feed, k, memory.cold, until, 0);
    ToldStamps(sched, memory, StaysOf(feed, k, memory.cold), snaps);
    DueOfFirst(sched, StaysOf(feed, k, memory.cold));
  }

  // ------------------------------------------------ any two runs

  /** Some stay, whenever it ended, has this moment of the run in its schedule. */
  ghost predicate DueAt(sched: SnapshotSchedule, stays: seq<Stay>, until: Time, t: int) {
    exists i :: 0 <= i < |stays| && stays[i].discovered < t <= until && IsDue(sched, stays[i].discovered, t)
  }

  ghost predicate SameMoments(sched: SnapshotSchedule, stays: seq<Stay>, stays': seq<Stay>, until: Time) {
    forall t :: DueAt(sched, stays, until, t) <==> DueAt(sched, stays', until, t)
  }

  /** What falls due over stays that follow each other is in order, each moment once. */
  lemma {:induction false} AllDueInOrder(sched: SnapshotSchedule, stays: seq<Stay>)
    requires InSuccession(stays) && BeginWithOwn(stays)
    requires forall i :: 0 <= i < |stays| ==> stays[i].discovered <= stays[i].latest
    ensures Increasing(AllDue(sched, stays))
    ensures forall j :: 0 <= j < |AllDue(sched, stays)| ==> AllDue(sched, stays)[j] <= Last(stays).latest
  {
    hide DueSeq;
    if stays != [] {
      var front, s := Butlast(stays), Last(stays);
      ButlastSucceeds(stays);
      AllDueInOrder(sched, front);
      DueSeqMembers(sched, s.discovered, s.discovered, s.latest);
      var early, late := AllDue(sched, front), DueSeq(sched, s.discovered, s.discovered, s.latest);
      forall j | 0 <= j < |late| ensures s.discovered < late[j] <= s.latest {
        assert late[j] in late;
      }
      if front != [] {
        assert Precedes(stays[|stays| - 2], stays[|stays| - 1]) && Last(front) == stays[|stays| - 2];
        assert s.own[0] in s.own && Last(front).latest <= s.discovered;
      }
    }
  }

  lemma {:induction false} AllDueMembers(sched: SnapshotSchedule, stays: seq<Stay>, t: int)
    ensures t in AllDue(sched, stays)
      <==> exists i :: 0 <= i < |stays| && t in DueSeq(sched, stays[i].discovered, stays[i].discovered, stays[i].latest)
  {
    hide DueSeq;
    if stays != [] {
      AllDueMembers(sched, Butlast(stays), t);
      assert forall i :: 0 <= i < |stays| - 1 ==> Butlast(stays)[i] == stays[i];
      assert Last(stays) == stays[|stays| - 1];
    }
  }

  /** Over a run, that is every moment which some stay has in its schedule. */
  lemma RunIsDueAt(sched: SnapshotSchedule, feed: seq<Feed>, k: TokenKey, cold: I64, until: Time)
    requires CoversSchedule(sched, cold) && WellTimed(feed) && EndsAt(feed, until)
    ensures Increasing(AllDue(sched, StaysOf(feed, k, cold)))
    ensures forall t :: t in AllDue(sched, StaysOf(feed, k, cold)) <==> DueAt(sched, StaysOf(feed, k, cold), until, t)
  {
    hide CoversSchedule, WellTimed, EndsAt, StaysOf, DueSeq, IsDue, AllDue, InSuccession, KeyOf;
    var stays := StaysOf(feed, k, cold);
    assert feed[..|feed|] == feed;
    StaysSucceed(feed, |feed|, k, cold);
    StaysShareEvents(feed, k, cold);
    forall i | 0 <= i < |stays|
      ensures stays[i].discovered <= stays[i].latest
      ensures forall t ::
        (t in DueSeq(sched, stays[i].discovered, stays[i].discovered, stays[i].latest)
         <==> stays[i].discovered < t <= until && IsDue(sched, stays[i].discovered, t))
    {
      StayIsWhole(sched, feed, k, cold, until, i);
      DueSeqMembers(sched, stays[i].discovered, stays[i].discovered, until);
    }
    AllDueInOrder(sched, stays);
    forall t ensures t in AllDue(sched, stays) <==> DueAt(sched, stays, until, t) {
      AllDueMembers(sched, stays, t);
    }
  }

  /** Any two ordered runs to the same time, returning or not: they stamp a token's due snapshots alike exactly when
      every moment is in the schedule of a stay of the one just when it is in that of a stay of the other. */
  lemma SameStampsExactly(sched: SnapshotSchedule, memory: MemoryPolicy, k: TokenKey, feed: seq<Feed>,
      feed': seq<Feed>, until: Time, snaps: seq<Snapshot>, snaps': seq<Snapshot>)
    requires CoversSchedule(sched, memory.cold) && WellTimed(feed) && WellTimed(feed')
    requires EndsAt(feed, until) && EndsAt(feed', until)
    requires Told(sched, memory, StaysOf(feed, k, memory.cold), snaps)
    requires Told(sched, memory, StaysOf(feed', k, memory.cold), snaps')
    ensures Stamps(snaps) == Stamps(snaps')
      <==> SameMoments(sched, StaysOf(feed, k, memory.cold), StaysOf(feed', k, memory.cold), until)
  {
    hide CoversSchedule, WellTimed, EndsAt, Told, StaysOf, AllDue, Stamps, DueAt;
    RunIsDueAt(sched, feed, k, memory.cold, until);
    RunIsDueAt(sched, feed', k, memory.cold, until);
    ToldStamps(sched, memory, StaysOf(feed, k, memory.cold), snaps);
    ToldStamps(sched, memory, StaysOf(feed', k, memory.cold), snaps');
    var a, b := AllDue(sched, StaysOf(feed, k, memory.cold)), AllDue(sched, StaysOf(feed', k, memory.cold));
    if forall t :: t in a <==> t in b {
      IncreasingUnique(a, b);
    }
  }

  // ------------------------------------------------ ... and then the snapshots see what one stay would have seen

  lemma {:induction false} TradesConcat(a: seq<Event>, b: seq<Event>)
    ensures TradesOnly(a + b) == TradesOnly(a) + TradesOnly(b)
  {
    if b == [] {
      assert a + b == a;
    } else {
      assert (a + b)[..|a + b| - 1] == a + b[..|b| - 1];
      TradesConcat(a, b[..|b| - 1]);
    }
  }

  lemma {:induction false} TradesAreEvents(s: seq<Event>)
    ensures forall i :: 0 <= i < |TradesOnly(s)| ==> TradesOnly(s)[i].Trade? && TradesOnly(s)[i] in s
  {
    if s != [] {
      TradesAreEvents(s[..|s| - 1]);
    }
  }

  /** Ticks of some trades go on to ticks of more. */
  lemma {:induction false} MoreTicks(ticks: seq<TradeTick>, trades: seq<Event>,
      more: seq<Event>) returns (all: seq<TradeTick>)
    requires TicksAre(ticks, trades) && forall i :: 0 <= i < |more| ==> more[i].Trade?
    ensures TicksAre(all, trades + more) && ticks <= all
    decreases |more|
  {
    hide TickOf, Traders;
    if more == [] {
      all := ticks;
      assert trades + more == trades;
    } else {
      var front, e := more[..|more| - 1], more[|more| - 1];
      var some := MoreTicks(ticks, trades, front);
      var tick := TickOf(e).(time := e.time, firstBuy := e.isBuy && e.trader !in Traders(some, true),
                             firstSell := !e.isBuy && e.trader !in Traders(some, false));
      OneMoreTick(some, trades + front, e, tick);
      all := some + [tick];
      assert trades + more == trades + front + [e];
    }
  }

  lemma OneMoreTick(ticks: seq<TradeTick>, trades: seq<Event>, e: Event, tick: TradeTick)
    requires TicksAre(ticks, trades) && e.Trade?
    requires tick == TickOf(e).(time := e.time, firstBuy := e.isBuy && e.trader !in Traders(ticks, true),
                                firstSell := !e.isBuy && e.trader !in Traders(ticks, false))
    ensures TicksAre(ticks + [tick], trades + [e])
  {
    assert (ticks + [tick])[..|ticks|] == ticks;
    hide Traders;
  }

  lemma {:induction false} LaterTicksUnseen(ticks: seq<TradeTick>, all: seq<TradeTick>, at: int)
    requires ticks <= all && forall i :: |ticks| <= i < |all| ==> all[i].time > at
    ensures Upto(all, at) == Upto(ticks, at)
  {
    if |ticks| < |all| {
      LaterTicksUnseen(ticks, all[..|all| - 1], at);
    } else {
      assert ticks == all;
    }
  }

  lemma LaterTradesUnseen(s: Snapshot, ticks: seq<TradeTick>, all: seq<TradeTick>, hotUntil: int)
    requires SawAll(s, ticks, hotUntil) && ticks <= all
    requires forall i :: |ticks| <= i < |all| ==> all[i].time >= s.time
    ensures SawAll(s, all, hotUntil)
  {
    hide Upto, Total, CountsOf, LastN, WindowsAt;
    LaterTicksUnseen(ticks, all, s.time - 1);
  }

  /** What a stay's snapshots tell, they tell of a longer stay that only goes on after them. */
  lemma LongerStay(sched: SnapshotSchedule, memory: MemoryPolicy, s: Stay, whole: Stay, rest: seq<Event>,
      snaps: seq<Snapshot>)
    requires StayTold(sched, memory, s, snaps) && s.discovered == whole.discovered && whole.own == s.own + rest
    requires DueSeq(sched, s.discovered, s.discovered, s.latest)
      == DueSeq(sched, s.discovered, s.discovered, whole.latest)
    requires forall e :: e in rest ==> s.latest <= e.time
    ensures StayTold(sched, memory, whole, snaps)
  {
    hide TicksAre, SawAll, Tagged, DueSeq, TradesOnly;
    var ticks :| StayRun(sched, memory, s, ticks, snaps);
    TradesConcat(s.own, rest);
    TradesAreEvents(rest);
    StampTimes(sched, s.discovered, s.latest, snaps);
    var all := MoreTicks(ticks, TradesOnly(s.own), TradesOnly(rest));
    TickTimes(ticks, all, TradesOnly(s.own), TradesOnly(rest));
    forall i | 0 <= i < |snaps| ensures SawAll(snaps[i], all, s.discovered + memory.hot) {
      LaterTradesUnseen(snaps[i], ticks, all, s.discovered + memory.hot);
    }
    assert StayRun(sched, memory, whole, all, snaps);
  }

  lemma TickTimes(ticks: seq<TradeTick>, all: seq<TradeTick>, trades: seq<Event>, more: seq<Event>)
    requires TicksAre(ticks, trades) && TicksAre(all, trades + more)
    ensures forall i :: |ticks| <= i < |all| ==> all[i].time == more[i - |ticks|].time && more[i - |ticks|] in more
  {
    hide TickOf, Plain, FirstsOk;
    forall i | |ticks| <= i < |all| ensures all[i].time == more[i - |ticks|].time && more[i - |ticks|] in more {
      assert (trades + more)[i] == more[i - |ticks|];
    }
  }

  /** When the later stays are quiet, every snapshot is of the first. */
  lemma {:induction false} QuietIsFirst(sched: SnapshotSchedule, memory: MemoryPolicy, stays: seq<Stay>,
      snaps: seq<Snapshot>)
    requires stays != [] && LaterStaysQuiet(sched, stays) && Told(sched, memory, stays, snaps)
    ensures StayTold(sched, memory, stays[0], snaps)
  {
    hide StayTold, DueSeq;
    var cut: nat :| cut <= |snaps| && Told(sched, memory, Butlast(stays), snaps[..cut])
      && StayTold(sched, memory, Last(stays), snaps[cut..]);
    if |stays| == 1 {
      assert snaps[..cut] == [] && snaps[cut..] == snaps;
    } else {
      StayStamps(sched, memory, Last(stays), snaps[cut..]);
      assert Quiet(sched, stays[|stays| - 1]);
      assert |Stamps(snaps[cut..])| == 0 && snaps[..cut] == snaps;
      assert forall i :: 1 <= i < |Butlast(stays)| ==> Quiet(sched, stays[i]);
      QuietIsFirst(sched, memory, Butlast(stays), snaps);
    }
  }

  /** One stay with all these events, to the end of the run: a token that never left. */
  function Uninterrupted(own: seq<Event>, until: Time): Stay
    requires own != []
  {
    Stay(own[0].time, until, own, false)
  }

  lemma ButlastSucceeds(stays: seq<Stay>)
    requires stays != [] && InSuccession(stays)
    ensures InSuccession(Butlast(stays))
  {
    hide Precedes;
  }

  lemma {:induction false} OwnOfFirst(stays: seq<Stay>) returns (rest: seq<Event>)
    requires stays != [] && BeginWithOwn(stays) && InSuccession(stays)
    ensures OwnEvents(stays) == stays[0].own + rest && forall e :: e in rest ==> stays[0].latest <= e.time
  {
    if |stays| == 1 {
      OnlyOwn(stays);
      rest := [];
    } else {
      ButlastSucceeds(stays);
      var some := OwnOfFirst(Butlast(stays));
      rest := some + Last(stays).own;
      assert Last(stays) == stays[|stays| - 1];
      assert stays[0].own + some + Last(stays).own == stays[0].own + rest;
    }
  }

  /** Exactly when tick cadence leaves no trace: a run's due snapshots are those of a token that never left memory,
      account and stamps, exactly when nothing falls due in any stay but the first. */
  lemma CadenceExactly(sched: SnapshotSchedule, memory: MemoryPolicy, k: TokenKey, feed: seq<Feed>, until: Time,
      snaps: seq<Snapshot>)
    requires CoversSchedule(sched, memory.cold) && WellTimed(feed) && EndsAt(feed, until)
    requires EventsOf(Arrived(feed), k) != [] && Told(sched, memory, StaysOf(feed, k, memory.cold), snaps)
    ensures StayTold(sched, memory, Uninterrupted(EventsOf(Arrived(feed), k), until), snaps)
       <==> LaterStaysQuiet(sched, StaysOf(feed, k, memory.cold))
  {
    hide CoversSchedule, WellTimed, EndsAt, Told, StayTold, StaysOf, EventsOf, Arrived, DueSeq, LaterStaysQuiet,
      Stamps, InSuccession, OwnEvents;
    var stays := StaysOf(feed, k, memory.cold);
    EventsMakeStays(feed, k, memory.cold);
    StaysShareEvents(feed, k, memory.cold);
    assert feed[..|feed|] == feed;
    StaysSucceed(feed, |feed|, k, memory.cold);
    var rest := OwnOfFirst(stays);
    var whole := Uninterrupted(EventsOf(Arrived(feed), k), until);
    StampsExactly(sched, memory, k, feed, until, snaps);
    StayIsWhole(sched, feed, k, memory.cold, until, 0);
    if LaterStaysQuiet(sched, stays) {
      QuietIsFirst(sched, memory, stays, snaps);
      LongerStay(sched, memory, stays[0], whole, rest, snaps);
    } else if StayTold(sched, memory, whole, snaps) {
      StayStamps(sched, memory, whole, snaps);
    }
  }

  /** Two ordered runs over the same events of a token, driven to the same time, one of them quiet after its first
      stay: they take the same due snapshots exactly when the other is quiet too, wherever the ticks fell. */
  lemma SameSnapshotsExactly(sched: SnapshotSchedule, memory: MemoryPolicy, k: TokenKey, feed: seq<Feed>,
      feed': seq<Feed>, until: Time, snaps: seq<Snapshot>, snaps': seq<Snapshot>)
    requires CoversSchedule(sched, memory.cold) && WellTimed(feed) && WellTimed(feed')
    requires EndsAt(feed, until) && EndsAt(feed', until) && EventsOf(Arrived(feed), k) == EventsOf(Arrived(feed'), k)
    requires Told(sched, memory, StaysOf(feed, k, memory.cold), snaps)
    requires Told(sched, memory, StaysOf(feed', k, memory.cold), snaps')
    requires LaterStaysQuiet(sched, StaysOf(feed', k, memory.cold))
    ensures SameAccounts(snaps, snaps', memory.hot) <==> LaterStaysQuiet(sched, StaysOf(feed, k, memory.cold))
  {
    hide CoversSchedule, WellTimed, EndsAt, StayTold, StaysOf, EventsOf, Arrived, DueSeq, SameAccount;
    EventsMakeStays(feed, k, memory.cold);
    EventsMakeStays(feed', k, memory.cold);
    if StaysOf(feed, k, memory.cold) != [] {
      hide LaterStaysQuiet, Told, SameAccounts;
      var whole := Uninterrupted(EventsOf(Arrived(feed), k), until);
      CadenceExactly(sched, memory, k, feed, until, snaps);
      CadenceExactly(sched, memory, k, feed', until, snaps');
      if SameAccounts(snaps, snaps', memory.hot) {
        FirstStaysBegin(feed, feed', k, memory.cold);
        SameStamps(snaps, snaps', memory.hot);
        StampsExactly(sched, memory, k, feed, until, snaps);
        StampsExactly(sched, memory, k, feed', until, snaps');
      }
      if LaterStaysQuiet(sched, StaysOf(feed, k, memory.cold)) {
        OneStayAlike(sched, memory, whole, whole, snaps, snaps');
      }
    }
  }

  lemma SameStamps(snaps: seq<Snapshot>, snaps': seq<Snapshot>, hot: I64)
    requires SameAccounts(snaps, snaps', hot)
    ensures Stamps(snaps) == Stamps(snaps')
  {
  }

  lemma FirstStaysBegin(feed: seq<Feed>, feed': seq<Feed>, k: TokenKey, cold: I64)
    requires EventsOf(Arrived(feed), k) == EventsOf(Arrived(feed'), k) != [] && WellTimed(feed) && WellTimed(feed')
    requires StaysOf(feed, k, cold) != [] && StaysOf(feed', k, cold) != []
    ensures StaysOf(feed, k, cold)[0].discovered == StaysOf(feed', k, cold)[0].discovered
  {
    hide WellTimed, StaysOf, EventsOf, Arrived, InSuccession, OwnEvents;
    assert feed[..|feed|] == feed && feed'[..|feed'|] == feed';
    StaysShareEvents(feed, k, cold);
    StaysShareEvents(feed', k, cold);
    StaysSucceed(feed, |feed|, k, cold);
    StaysSucceed(feed', |feed'|, k, cold);
    var a, b := StaysOf(feed, k, cold), StaysOf(feed', k, cold);
    var rest := OwnOfFirst(a);
    var rest' := OwnOfFirst(b);
    assert a[0].own[0] == OwnEvents(a)[0] && b[0].own[0] == OwnEvents(b)[0];
  }

  /** Tick cadence does not matter to a token that never returns: two ordered runs over its events, both driven to
      the same time, take the same due snapshots, wherever the ticks fell. */
  lemma TickCadenceDoesNotMatter(sched: SnapshotSchedule, memory: MemoryPolicy, k: TokenKey, feed: seq<Feed>,
      feed': seq<Feed>, until: Time, snaps: seq<Snapshot>, snaps': seq<Snapshot>)
    requires CoversSchedule(sched, memory.cold) && WellTimed(feed) && WellTimed(feed')
    requires EndsAt(feed, until) && EndsAt(feed', until) && EventsOf(Arrived(feed), k) == EventsOf(Arrived(feed'), k)
    requires NeverReturns(feed, k, memory.cold) && NeverReturns(feed', k, memory.cold)
    requires Told(sched, memory, StaysOf(feed, k, memory.cold), snaps)
    requires Told(sched, memory, StaysOf(feed', k, memory.cold), snaps')
    ensures SameAccounts(snaps, snaps', memory.hot)
  {
    hide CoversSchedule, WellTimed, EndsAt, NeverReturns, Told, SameAccounts, StaysOf, EventsOf, DueSeq;
    OneStayExactly(feed, k, memory.cold);
    OneStayExactly(feed', k, memory.cold);
    SameSnapshotsExactly(sched, memory, k, feed, feed', until, snaps, snaps');
  }

  lemma EventsMakeStays(feed: seq<Feed>, k: TokenKey, cold: I64)
    ensures StaysOf(feed, k, cold) == [] <==> EventsOf(Arrived(feed), k) == []
  {
    hide StaysOf, EventsOf;
    StaysShareEvents(feed, k, cold);
  }

  // ---------------------------------------------------------------- ticks that matter

  const FIRST := Trade(Solana, "T", PumpFun, "a", true, 1, 1, NoReserves, None, None, 0,
                       Origin(Some(1), None, None, None, None, None), "1")
  const AGAIN := Trade(Solana, "T", PumpFun, "a", true, 1, 1, NoReserves, None, None, 7_200_001,
                       Origin(Some(2), None, None, None, None, None), "2")
  const NO_TICK_BETWEEN := [Arrives(FIRST), Arrives(AGAIN), TicksTo(7_206_001)]
  const TICK_BETWEEN := [Arrives(FIRST), TicksTo(7_200_000), Arrives(AGAIN), TicksTo(7_206_001)]

  function TheToken(): TokenKey {
    NewKey(Solana, "T")
  }

  lemma BothAreWellTimed()
    ensures WellTimed(NO_TICK_BETWEEN) && WellTimed(TICK_BETWEEN)
    ensures EndsAt(NO_TICK_BETWEEN, 7_206_001) && EndsAt(TICK_BETWEEN, 7_206_001)
  {
    assert FromCanonical(FIRST).blockOrSlot == 1 && FromCanonical(AGAIN).blockOrSlot == 2;
    assert !Less(FromCanonical(AGAIN), FromCanonical(FIRST));
    hide Less, FromCanonical, KeyOf;
  }

  lemma OneMore(feed: seq<Feed>, f: Feed, k: TokenKey, cold: I64)
    ensures Arrived(feed + [f]) == Arrived(feed) + if f.Arrives? then [f.event] else []
    ensures StaysOf(feed + [f], k, cold) == Stepped(StaysOf(feed, k, cold), f, k, cold)
  {
    hide Stepped;
    assert Butlast(feed + [f]) == feed;
  }

  /** A token's first trade, and then perhaps a tick. */
  lemma FirstOnly(k: TokenKey, cold: I64)
    requires KeyOf(FIRST) == Some(k)
    ensures Arrived([Arrives(FIRST)]) == [FIRST] && StaysOf([Arrives(FIRST)], k, cold) == [Stay(0, 0, [FIRST], false)]
  {
    hide KeyOf;
    OneMore([], Arrives(FIRST), k, cold);
    assert [] + [Arrives(FIRST)] == [Arrives(FIRST)];
  }

  lemma StaysNoTick(k: TokenKey, cold: I64)
    requires KeyOf(FIRST) == KeyOf(AGAIN) == Some(k) && cold == 7_200_000
    ensures Arrived(NO_TICK_BETWEEN) == [FIRST, AGAIN]
    ensures StaysOf(NO_TICK_BETWEEN, k, cold) == [Stay(0, 7_206_001, [FIRST, AGAIN], true)]
  {
    hide KeyOf, StaysOf, Arrived;
    FirstOnly(k, cold);
    var two := [Arrives(FIRST)] + [Arrives(AGAIN)];
    OneMore([Arrives(FIRST)], Arrives(AGAIN), k, cold);
    assert [FIRST] + [AGAIN] == [FIRST, AGAIN] && Butlast([Stay(0, 0, [FIRST], false)]) == [];
    assert StaysOf(two, k, cold) == [Stay(0, 7_200_001, [FIRST, AGAIN], false)];
    OneMore(two, TicksTo(7_206_001), k, cold);
    assert NO_TICK_BETWEEN == two + [TicksTo(7_206_001)];
  }

  lemma StaysBefore(k: TokenKey, cold: I64)
    requires KeyOf(FIRST) == KeyOf(AGAIN) == Some(k) && cold == 7_200_000
    ensures var before := [Arrives(FIRST), TicksTo(7_200_000), Arrives(AGAIN)];
      && Arrived(before) == [FIRST, AGAIN]
      && StaysOf(before, k, cold) == [Stay(0, 7_200_000, [FIRST], true), Stay(7_200_001, 7_200_001, [AGAIN], false)]
  {
    hide KeyOf, StaysOf, Arrived;
    FirstOnly(k, cold);
    var two := [Arrives(FIRST)] + [TicksTo(7_200_000)];
    OneMore([Arrives(FIRST)], TicksTo(7_200_000), k, cold);
    assert StaysOf(two, k, cold) == [Stay(0, 7_200_000, [FIRST], true)];
    OneMore(two, Arrives(AGAIN), k, cold);
    assert two + [Arrives(AGAIN)] == [Arrives(FIRST), TicksTo(7_200_000), Arrives(AGAIN)];
  }

  lemma StaysWithTick(k: TokenKey, cold: I64)
    requires KeyOf(FIRST) == KeyOf(AGAIN) == Some(k) && cold == 7_200_000
    ensures Arrived(TICK_BETWEEN) == [FIRST, AGAIN]
    ensures StaysOf(TICK_BETWEEN, k, cold)
      == [Stay(0, 7_200_000, [FIRST], true), Stay(7_200_001, 7_206_001, [AGAIN], false)]
  {
    hide KeyOf, StaysOf, Arrived;
    var before := [Arrives(FIRST), TicksTo(7_200_000), Arrives(AGAIN)];
    StaysBefore(k, cold);
    OneMore(before, TicksTo(7_206_001), k, cold);
    assert TICK_BETWEEN == before + [TicksTo(7_206_001)];
  }

  lemma TheirStays()
    ensures Arrived(NO_TICK_BETWEEN) == Arrived(TICK_BETWEEN) == [FIRST, AGAIN]
    ensures StaysOf(NO_TICK_BETWEEN, TheToken(), DefaultMemory().cold) == [Stay(0, 7_206_001, [FIRST, AGAIN], true)]
    ensures StaysOf(TICK_BETWEEN, TheToken(), DefaultMemory().cold)
         == [Stay(0, 7_200_000, [FIRST], true), Stay(7_200_001, 7_206_001, [AGAIN], false)]
  {
    assert KeyOf(FIRST) == KeyOf(AGAIN) == Some(TheToken()) by { hide NewKey; }
    hide KeyOf, NewKey;
    StaysNoTick(TheToken(), DefaultMemory().cold);
    StaysWithTick(TheToken(), DefaultMemory().cold);
  }

  lemma SecondStayIsDue()
    ensures DueSeq(DefaultSchedule(), 7_200_001, 7_200_001, 7_206_001) != []
    ensures DueSeq(DefaultSchedule(), 0, 0, 7_206_001) == DueSeq(DefaultSchedule(), 0, 0, 7_200_000)
  {
    hide DueSeq;
    DueSeqMembers(DefaultSchedule(), 7_200_001, 7_200_001, 7_206_001);
    assert IsMilestone(DefaultSchedule(), 7_200_001, 7_205_001) by { assert DefaultSchedule().milestones[0] == 5_000; }
    assert 7_205_001 in DueSeq(DefaultSchedule(), 7_200_001, 7_200_001, 7_206_001);
    DefaultsCover();
    WholeSchedule(DefaultSchedule(), 0, DefaultMemory().cold, 7_200_000, 7_206_001);
  }

  /** With the default schedule and memory: a trade past the cold age takes no more snapshots if no tick came
      before it, and begins a new stay, with more snapshots, if one did. */
  lemma ReturnTakesMore(snaps: seq<Snapshot>, snaps': seq<Snapshot>)
    requires Told(DefaultSchedule(), DefaultMemory(), StaysOf(NO_TICK_BETWEEN, TheToken(), DefaultMemory().cold), snaps)
    requires Told(DefaultSchedule(), DefaultMemory(), StaysOf(TICK_BETWEEN, TheToken(), DefaultMemory().cold), snaps')
    ensures Arrived(NO_TICK_BETWEEN) == Arrived(TICK_BETWEEN) && |snaps'| > |snaps|
    ensures NeverReturns(NO_TICK_BETWEEN, TheToken(), DefaultMemory().cold)
    ensures !NeverReturns(TICK_BETWEEN, TheToken(), DefaultMemory().cold)
  {
    hide Told, StaysOf, Arrived, NewKey, KeyOf, NeverReturns, DueSeq, WellTimed;
    BothAreWellTimed();
    TheirStays();
    OneStayExactly(NO_TICK_BETWEEN, TheToken(), DefaultMemory().cold);
    OneStayExactly(TICK_BETWEEN, TheToken(), DefaultMemory().cold);
    SecondStayIsDue();
    var once := Stay(0, 7_206_001, [FIRST, AGAIN], true);
    var twice := [Stay(0, 7_200_000, [FIRST], true), Stay(7_200_001, 7_206_001, [AGAIN], false)];
    ToldStamps(DefaultSchedule(), DefaultMemory(), [once], snaps);
    ToldStamps(DefaultSchedule(), DefaultMemory(), twice, snaps');
    assert |snaps| == |Stamps(snaps)| && |snaps'| == |Stamps(snaps')|;
    assert Butlast([once]) == [] && Butlast(twice) == [twice[0]] && Butlast([twice[0]]) == [];
  }

  const QUIET_RETURN := [Arrives(FIRST), TicksTo(7_200_000), Arrives(AGAIN), TicksTo(7_203_000)]

  lemma {:induction false} StepsGoOn(start: int, n: nat, every: int)
    requires every > 0
    ensures Step(start, n, every) >= start && (n > 0 ==> Step(start, n, every) >= start + every)
  {
    if n > 0 {
      StepsGoOn(start, n - 1, every);
    }
  }

  lemma NothingSoSoon(t: int)
    requires 7_200_001 < t <= 7_203_000
    ensures !IsDue(DefaultSchedule(), 7_200_001, t)
  {
    forall i | 0 <= i < |DefaultSchedule().bands| ensures !OnGrid(DefaultSchedule().bands[i], 7_200_001, t) {
      var b := DefaultSchedule().bands[i];
      assert b.fromAge >= 0 && b.every >= 5_000 && (b.fromAge == 0 || b.fromAge >= 300_000);
      var start, every := Saturate(7_200_001 + b.fromAge), b.every;
      forall n: nat ensures Step(start, n, every) != t {
        StepsGoOn(start, n, every);
      }
    }
  }

  lemma QuietStays(k: TokenKey, cold: I64)
    requires KeyOf(FIRST) == KeyOf(AGAIN) == Some(k) && cold == 7_200_000
    ensures StaysOf(QUIET_RETURN, k, cold)
      == [Stay(0, 7_200_000, [FIRST], true), Stay(7_200_001, 7_203_000, [AGAIN], false)]
  {
    hide KeyOf, StaysOf, Arrived;
    var before := [Arrives(FIRST), TicksTo(7_200_000), Arrives(AGAIN)];
    StaysBefore(k, cold);
    OneMore(before, TicksTo(7_203_000), k, cold);
    assert QUIET_RETURN == before + [TicksTo(7_203_000)];
  }

  lemma QuietIsWellTimed()
    ensures WellTimed(QUIET_RETURN) && EndsAt(QUIET_RETURN, 7_203_000)
  {
    assert FromCanonical(FIRST).blockOrSlot == 1 && FromCanonical(AGAIN).blockOrSlot == 2;
    assert !Less(FromCanonical(AGAIN), FromCanonical(FIRST));
    hide Less, FromCanonical, KeyOf;
  }

  /** A token can return and leave no trace: driven to less than five seconds after it came back, its second stay has
      nothing due. */
  lemma ReturnCanBeQuiet()
    ensures WellTimed(QUIET_RETURN) && EndsAt(QUIET_RETURN, 7_203_000)
    ensures !NeverReturns(QUIET_RETURN, TheToken(), DefaultMemory().cold)
    ensures LaterStaysQuiet(DefaultSchedule(), StaysOf(QUIET_RETURN, TheToken(), DefaultMemory().cold))
  {
    assert KeyOf(FIRST) == KeyOf(AGAIN) == Some(TheToken()) by { hide NewKey; }
    hide Less, FromCanonical, KeyOf, NewKey, StaysOf, Arrived, IsDue, DueSeq, NeverReturns, WellTimed;
    var k, cold := TheToken(), DefaultMemory().cold;
    QuietIsWellTimed();
    QuietStays(k, cold);
    OneStayExactly(QUIET_RETURN, k, cold);
    forall t | 7_200_001 < t <= 7_203_000 ensures !IsDue(DefaultSchedule(), 7_200_001, t) {
      NothingSoSoon(t);
    }
    NothingDue(DefaultSchedule(), 7_200_001, 7_200_001, 7_203_000);
  }
}
