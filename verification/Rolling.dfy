/** Seven sliding windows over a token's trades: incremental add/expire against recomputation. */
module Rolling {
  import opened Amounts
  import opened Schedule

  datatype TradeTick = TradeTick(
    time: I64, trader: string, isBuy: bool, isCreator: bool,
    quote: U256, token: U256, firstBuy: bool, firstSell: bool)

  function WindowDurations(): seq<I64> {
    [5_000, 15_000, 30_000, 60_000, 120_000, 300_000, 900_000]
  }

  datatype WindowSnapshot = WindowSnapshot(
    duration: I64,
    buyCount: nat, sellCount: nat, uniqueBuyers: nat, uniqueSellers: nat,
    buyQuote: U256, sellQuote: U256, buyToken: U256, sellToken: U256,
    netFlow: Signed,
    newBuyers: nat, newSellers: nat,
    creatorBuy: U256, creatorSell: U256,
    sizeMin: Option<U256>, sizeMax: Option<U256>, sizeMedian: Option<U256>)

  // ---------------------------------------------------------------- the reference: sums over a list of trades

  /** Everything a window counts is a weighted sum over trades; a measure names the weight. */
  datatype Measure =
    | BuyCount | SellCount
    | BuysBy(trader: string) | SellsBy(trader: string) | QuoteBy(trader: string)
    | BuyQuote | SellQuote | BuyToken | SellToken
    | CreatorBuy | CreatorSell
    | NewBuyers | NewSellers

  function Weight(m: Measure, e: TradeTick): nat {
    match m
    case BuyCount => if e.isBuy then 1 else 0
    case SellCount => if e.isBuy then 0 else 1
    case BuysBy(t) => if e.isBuy && e.trader == t then 1 else 0
    case SellsBy(t) => if !e.isBuy && e.trader == t then 1 else 0
    case QuoteBy(t) => if e.trader == t then e.quote else 0
    case BuyQuote => if e.isBuy then e.quote else 0
    case SellQuote => if e.isBuy then 0 else e.quote
    case BuyToken => if e.isBuy then e.token else 0
    case SellToken => if e.isBuy then 0 else e.token
    case CreatorBuy => if e.isBuy && e.isCreator then e.quote else 0
    case CreatorSell => if !e.isBuy && e.isCreator then e.quote else 0
    case NewBuyers => if e.isBuy && e.firstBuy then 1 else 0
    case NewSellers => if !e.isBuy && e.firstSell then 1 else 0
  }

  function Total(m: Measure, s: seq<TradeTick>): nat {
    if s == [] then 0 else Total(m, s[..|s| - 1]) + Weight(m, s[|s| - 1])
  }

  lemma TotalAppend(m: Measure, s: seq<TradeTick>, e: TradeTick)
    ensures Total(m, s + [e]) == Total(m, s) + Weight(m, e)
  {
    assert (s + [e])[..|s|] == s;
  }

  lemma {:induction false} TotalConcat(m: Measure, a: seq<TradeTick>, b: seq<TradeTick>)
    ensures Total(m, a + b) == Total(m, a) + Total(m, b)
  {
    if b == [] {
      assert a + b == a;
    } else {
      var front, last := b[..|b| - 1], b[|b| - 1];
      assert a + b == (a + front) + [last];
      TotalAppend(m, a + front, last);
      TotalConcat(m, a, front);
    }
  }

  lemma TotalDropFront(m: Measure, s: seq<TradeTick>)
    requires s != []
    ensures Total(m, s) == Weight(m, s[0]) + Total(m, s[1..])
  {
    assert s == [s[0]] + s[1..];
    TotalConcat(m, [s[0]], s[1..]);
    TotalAppend(m, [], s[0]);
    assert [] + [s[0]] == [s[0]];
  }

  lemma TakeOut(m: Measure, s: seq<TradeTick>, i: nat)
    requires i < |s|
    ensures Total(m, s) == Weight(m, s[i]) + Total(m, s[..i] + s[i + 1..])
  {
    var tail := s[i..];
    assert s == s[..i] + tail;
    assert tail[1..] == s[i + 1..];
    TotalConcat(m, s[..i], tail);
    TotalDropFront(m, tail);
    TotalConcat(m, s[..i], s[i + 1..]);
  }

  lemma TakeOutBag(s: seq<TradeTick>, i: nat)
    requires i < |s|
    ensures multiset(s[..i] + s[i + 1..]) == multiset(s) - multiset{s[i]}
  {
    assert s == s[..i] + [s[i]] + s[i + 1..];
  }

  /** Totals do not depend on arrival order. */
  lemma {:induction false} TotalIgnoresOrder(m: Measure, a: seq<TradeTick>, b: seq<TradeTick>)
    requires multiset(a) == multiset(b)
    ensures Total(m, a) == Total(m, b)
  {
    if a == [] {
      assert |multiset(b)| == |b|;
    } else {
      assert a[0] in multiset(b);
      var i :| 0 <= i < |b| && b[i] == a[0];
      TakeOutBag(a, 0);
      TakeOutBag(b, i);
      TakeOut(m, a, 0);
      TakeOut(m, b, i);
      TotalIgnoresOrder(m, a[..0] + a[1..], b[..i] + b[i + 1..]);
    }
  }

  function Traders(s: seq<TradeTick>, buys: bool): set<string> {
    set i | 0 <= i < |s| && s[i].isBuy == buys :: s[i].trader
  }

  function Quotes(s: seq<TradeTick>): seq<U256> {
    seq(|s|, i requires 0 <= i < |s| => s[i].quote)
  }

  function Smallest(s: seq<TradeTick>): Option<U256> {
    if s == [] then None
    else match Smallest(s[..|s| - 1])
      case None => Some(s[|s| - 1].quote)
      case Some(m) => Some(MinRaw(m, s[|s| - 1].quote))
  }

  function Largest(s: seq<TradeTick>): Option<U256> {
    if s == [] then None
    else match Largest(s[..|s| - 1])
      case None => Some(s[|s| - 1].quote)
      case Some(m) => Some(MaxRaw(m, s[|s| - 1].quote))
  }

  /** The extremes are attained and bound every trade size. */
  lemma {:induction false} Extremes(s: seq<TradeTick>)
    requires s != []
    ensures Smallest(s).Some? && Largest(s).Some?
    ensures forall i :: 0 <= i < |s| ==> Smallest(s).value <= s[i].quote <= Largest(s).value
    ensures Smallest(s).value in Quotes(s) && Largest(s).value in Quotes(s)
  {
    var front, last := s[..|s| - 1], |s| - 1;
    assert Quotes(s)[last] == s[last].quote;
    if front != [] {
      Extremes(front);
      assert Quotes(s) == Quotes(front) + [s[last].quote];
    }
  }

  /** The window computed from scratch over the trades it holds. */
  function Recompute(duration: I64, s: seq<TradeTick>): WindowSnapshot {
    var buyQuote := Clamp(Total(BuyQuote, s));
    var sellQuote := Clamp(Total(SellQuote, s));
    WindowSnapshot(
      duration,
      Total(BuyCount, s), Total(SellCount, s), |Traders(s, true)|, |Traders(s, false)|,
      buyQuote, sellQuote, Clamp(Total(BuyToken, s)), Clamp(Total(SellToken, s)),
      NetSigned(buyQuote, sellQuote),
      Total(NewBuyers, s), Total(NewSellers, s),
      Clamp(Total(CreatorBuy, s)), Clamp(Total(CreatorSell, s)),
      Smallest(s), Largest(s), MedianRaw(Quotes(s)))
  }

  // ---------------------------------------------------------------- the running counters

  /** The counters a window keeps beside its deque. */
  datatype Counters = Counters(
    buyCount: nat, sellCount: nat,
    buyers: map<string, nat>, sellers: map<string, nat>,
    buyQuote: U256, sellQuote: U256, buyToken: U256, sellToken: U256,
    creatorBuy: U256, creatorSell: U256,
    newBuyers: nat, newSellers: nat)

  function ZeroCounters(): Counters {
    Counters(0, 0, map[], map[], 0, 0, 0, 0, 0, 0, 0, 0)
  }

  function Bump(m: map<string, nat>, t: string): map<string, nat> {
    m[t := (if t in m then m[t] else 0) + 1]
  }

  function Drop(m: map<string, nat>, t: string): map<string, nat> {
    if t !in m then m
    else if m[t] <= 1 then m - {t}
    else m[t := m[t] - 1]
  }

  function Less1(n: nat): nat {
    if n == 0 then 0 else n - 1
  }

  function Added(c: Counters, e: TradeTick): Counters {
    if e.isBuy then
      c.(buyCount := c.buyCount + 1,
         buyers := Bump(c.buyers, e.trader),
         buyQuote := AddRaw(c.buyQuote, e.quote),
         buyToken := AddRaw(c.buyToken, e.token),
         newBuyers := if e.firstBuy then c.newBuyers + 1 else c.newBuyers,
         creatorBuy := if e.isCreator then AddRaw(c.creatorBuy, e.quote) else c.creatorBuy)
    else
      c.(sellCount := c.sellCount + 1,
         sellers := Bump(c.sellers, e.trader),
         sellQuote := AddRaw(c.sellQuote, e.quote),
         sellToken := AddRaw(c.sellToken, e.token),
         newSellers := if e.firstSell then c.newSellers + 1 else c.newSellers,
         creatorSell := if e.isCreator then AddRaw(c.creatorSell, e.quote) else c.creatorSell)
  }

  function Removed(c: Counters, e: TradeTick): Counters {
    if e.isBuy then
      c.(buyCount := Less1(c.buyCount),
         buyers := Drop(c.buyers, e.trader),
         buyQuote := SubSatRaw(c.buyQuote, e.quote),
         buyToken := SubSatRaw(c.buyToken, e.token),
         newBuyers := if e.firstBuy then Less1(c.newBuyers) else c.newBuyers,
         creatorBuy := if e.isCreator then SubSatRaw(c.creatorBuy, e.quote) else c.creatorBuy)
    else
      c.(sellCount := Less1(c.sellCount),
         sellers := Drop(c.sellers, e.trader),
         sellQuote := SubSatRaw(c.sellQuote, e.quote),
         sellToken := SubSatRaw(c.sellToken, e.token),
         newSellers := if e.firstSell then Less1(c.newSellers) else c.newSellers,
         creatorSell := if e.isCreator then SubSatRaw(c.creatorSell, e.quote) else c.creatorSell)
  }

  /** `m` holds exactly the traders with a positive total, each with that total. */
  ghost predicate Multiplicities(m: map<string, nat>, s: seq<TradeTick>, buys: bool) {
    forall t :: (Tally(m, t) == Total(if buys then BuysBy(t) else SellsBy(t), s) && (t in m ==> m[t] > 0))
  }

  function Tally(m: map<string, nat>, t: string): nat {
    if t in m then m[t] else 0
  }

  ghost predicate CountsExact(c: Counters, s: seq<TradeTick>) {
    && c.buyCount == Total(BuyCount, s) && c.sellCount == Total(SellCount, s)
    && c.newBuyers == Total(NewBuyers, s) && c.newSellers == Total(NewSellers, s)
    && Multiplicities(c.buyers, s, true) && Multiplicities(c.sellers, s, false)
  }

  predicate IsVolume(m: Measure) {
    m.BuyQuote? || m.SellQuote? || m.BuyToken? || m.SellToken? || m.CreatorBuy? || m.CreatorSell?
  }

  function VolumeOf(c: Counters, m: Measure): U256
    requires IsVolume(m)
  {
    match m
    case BuyQuote => c.buyQuote
    case SellQuote => c.sellQuote
    case BuyToken => c.buyToken
    case SellToken => c.sellToken
    case CreatorBuy => c.creatorBuy
    case CreatorSell => c.creatorSell
  }

  function SnapshotVolume(r: WindowSnapshot, m: Measure): U256
    requires IsVolume(m)
  {
    match m
    case BuyQuote => r.buyQuote
    case SellQuote => r.sellQuote
    case BuyToken => r.buyToken
    case SellToken => r.sellToken
    case CreatorBuy => r.creatorBuy
    case CreatorSell => r.creatorSell
  }

  /** Every volume is the total of these trades, clamped to a word. */
  ghost predicate VolumesClamped(c: Counters, s: seq<TradeTick>) {
    forall m :: IsVolume(m) ==> VolumeOf(c, m) == Clamp(Total(m, s))
  }

  /** No volume of these trades saturates. */
  predicate Fits(s: seq<TradeTick>) {
    && Total(BuyQuote, s) <= U256_MAX && Total(SellQuote, s) <= U256_MAX
    && Total(BuyToken, s) <= U256_MAX && Total(SellToken, s) <= U256_MAX
    && Total(CreatorBuy, s) <= U256_MAX && Total(CreatorSell, s) <= U256_MAX
  }

  lemma {:induction false} TradersAreCounted(s: seq<TradeTick>, buys: bool)
    ensures forall t :: t in Traders(s, buys) <==> Total(if buys then BuysBy(t) else SellsBy(t), s) > 0
  {
    if s != [] {
      var front, last := s[..|s| - 1], s[|s| - 1];
      TradersAreCounted(front, buys);
      assert s == front + [last];
      forall t ensures t in Traders(s, buys)
        <==> t in Traders(front, buys) || (last.isBuy == buys && last.trader == t) {
        if t in Traders(s, buys) {
          var i :| 0 <= i < |s| && s[i].isBuy == buys && s[i].trader == t;
          if i < |front| { assert front[i].trader == t; }
        }
        if t in Traders(front, buys) {
          var i :| 0 <= i < |front| && front[i].isBuy == buys && front[i].trader == t;
          assert s[i].trader == t;
        }
        if last.isBuy == buys && last.trader == t { assert s[|s| - 1].trader == t; }
      }
    }
  }

  lemma UniqueIsKeyCount(m: map<string, nat>, s: seq<TradeTick>, buys: bool)
    requires Multiplicities(m, s, buys)
    ensures |m| == |Traders(s, buys)|
  {
    TradersAreCounted(s, buys);
    forall t ensures t in m.Keys <==> t in Traders(s, buys) {
      assert Tally(m, t) == Total(if buys then BuysBy(t) else SellsBy(t), s);
    }
    assert m.Keys == Traders(s, buys);
  }

  lemma AddKeepsTally(m: map<string, nat>, s: seq<TradeTick>, buys: bool, e: TradeTick)
    requires Multiplicities(m, s, buys)
    ensures Multiplicities(if e.isBuy == buys then Bump(m, e.trader) else m, s + [e], buys)
  {
    var m' := if e.isBuy == buys then Bump(m, e.trader) else m;
    forall t ensures Tally(m', t) == Total(if buys then BuysBy(t) else SellsBy(t), s + [e]) && (t in m' ==> m'[t] > 0) {
      TotalAppend(if buys then BuysBy(t) else SellsBy(t), s, e);
      assert Tally(m, t) == Total(if buys then BuysBy(t) else SellsBy(t), s);
    }
  }

  lemma RemoveKeepsTally(m: map<string, nat>, s: seq<TradeTick>, buys: bool)
    requires s != [] && Multiplicities(m, s, buys)
    ensures Multiplicities(if s[0].isBuy == buys then Drop(m, s[0].trader) else m, s[1..], buys)
  {
    var e := s[0];
    var m' := if e.isBuy == buys then Drop(m, e.trader) else m;
    forall t ensures Tally(m', t) == Total(if buys then BuysBy(t) else SellsBy(t), s[1..]) && (t in m' ==> m'[t] > 0) {
      TotalDropFront(if buys then BuysBy(t) else SellsBy(t), s);
      assert Tally(m, t) == Total(if buys then BuysBy(t) else SellsBy(t), s);
    }
  }

  lemma AddKeepsCounts(c: Counters, s: seq<TradeTick>, e: TradeTick)
    requires CountsExact(c, s)
    ensures CountsExact(Added(c, e), s + [e])
  {
    AddKeepsTally(c.buyers, s, true, e);
    AddKeepsTally(c.sellers, s, false, e);
    TotalAppend(BuyCount, s, e);
    TotalAppend(SellCount, s, e);
    TotalAppend(NewBuyers, s, e);
    TotalAppend(NewSellers, s, e);
  }

  lemma TotalsAppend(s: seq<TradeTick>, e: TradeTick)
    ensures forall m :: Total(m, s + [e]) == Total(m, s) + Weight(m, e)
  {
    forall m ensures Total(m, s + [e]) == Total(m, s) + Weight(m, e) {
      TotalAppend(m, s, e);
    }
  }

  lemma VolumesSpelled(c: Counters, s: seq<TradeTick>)
    ensures VolumesClamped(c, s) <==>
      && c.buyQuote == Clamp(Total(BuyQuote, s)) && c.sellQuote == Clamp(Total(SellQuote, s))
      && c.buyToken == Clamp(Total(BuyToken, s)) && c.sellToken == Clamp(Total(SellToken, s))
      && c.creatorBuy == Clamp(Total(CreatorBuy, s)) && c.creatorSell == Clamp(Total(CreatorSell, s))
  {
    hide Total;
    assert VolumeOf(c, BuyQuote) == c.buyQuote && VolumeOf(c, SellQuote) == c.sellQuote;
    assert VolumeOf(c, BuyToken) == c.buyToken && VolumeOf(c, SellToken) == c.sellToken;
    assert VolumeOf(c, CreatorBuy) == c.creatorBuy && VolumeOf(c, CreatorSell) == c.creatorSell;
  }

  lemma AddedVolume(c: Counters, e: TradeTick, m: Measure)
    requires IsVolume(m)
    ensures Weight(m, e) <= U256_MAX && VolumeOf(Added(c, e), m) == Clamp(VolumeOf(c, m) + Weight(m, e))
  {
  }

  function Minus(v: U256, w: nat): U256 {
    if v >= w then v - w else 0
  }

  lemma RemovedVolume(c: Counters, e: TradeTick, m: Measure)
    requires IsVolume(m)
    ensures VolumeOf(Removed(c, e), m) == Minus(VolumeOf(c, m), Weight(m, e))
  {
  }

  /** Additions alone keep every volume the clamped total, saturating or not. */
  lemma AddKeepsVolumes(c: Counters, s: seq<TradeTick>, e: TradeTick)
    requires VolumesClamped(c, s)
    ensures VolumesClamped(Added(c, e), s + [e])
  {
    hide Added, VolumeOf, Total, Weight;
    forall m | IsVolume(m) ensures VolumeOf(Added(c, e), m) == Clamp(Total(m, s + [e])) {
      AddedVolume(c, e, m);
      TotalAppend(m, s, e);
    }
  }

  lemma RemoveKeepsCounts(c: Counters, s: seq<TradeTick>)
    requires s != [] && CountsExact(c, s)
    ensures CountsExact(Removed(c, s[0]), s[1..])
  {
    RemoveKeepsTally(c.buyers, s, true);
    RemoveKeepsTally(c.sellers, s, false);
    TotalDropFront(BuyCount, s);
    TotalDropFront(SellCount, s);
    TotalDropFront(NewBuyers, s);
    TotalDropFront(NewSellers, s);
  }

  /** A volume of total `t`, of which `left` remains after an expiry and to which `pushed` is then added, is
      again the clamped total exactly when the old total fitted a word, or nothing of it remains, or what is
      pushed makes up for what was dropped. */
  predicate SafeVolume(t: nat, left: nat, pushed: nat)
    requires left <= t
  {
    t <= U256_MAX || left == 0 || Clamp(t - left) <= pushed
  }

  lemma SafeVolumeIsExact(t: nat, left: nat, pushed: nat)
    requires left <= t && pushed <= U256_MAX
    ensures Clamp(Minus(Clamp(t), t - left) + pushed) == Clamp(left + pushed) <==> SafeVolume(t, left, pushed)
  {
  }

  /** Volumes after trades were dropped from the front: what they weighed is subtracted, down to zero. */
  ghost predicate Dropped(c: Counters, s: seq<TradeTick>, c': Counters, s': seq<TradeTick>) {
    forall m :: IsVolume(m) ==>
      Total(m, s') <= Total(m, s) && VolumeOf(c', m) == Minus(VolumeOf(c, m), Total(m, s) - Total(m, s'))
  }

  lemma NothingDropped(c: Counters, s: seq<TradeTick>)
    ensures Dropped(c, s, c, s)
  {
    hide VolumeOf, Total;
  }

  lemma DropOneMore(c: Counters, s: seq<TradeTick>, c': Counters, s': seq<TradeTick>)
    requires Dropped(c, s, c', s') && s' != []
    ensures Dropped(c, s, Removed(c', s'[0]), s'[1..])
  {
    hide Removed, VolumeOf, Total, Weight;
    forall m | IsVolume(m)
      ensures Total(m, s'[1..]) <= Total(m, s)
      ensures VolumeOf(Removed(c', s'[0]), m) == Minus(VolumeOf(c, m), Total(m, s) - Total(m, s'[1..]))
    {
      RemovedVolume(c', s'[0], m);
      TotalDropFront(m, s');
    }
  }

  function PushedWeight(m: Measure, pushed: Option<TradeTick>): nat {
    if pushed.None? then 0 else Weight(m, pushed.value)
  }

  lemma {:induction false} ExpiredWeighsLess(d: I64, now: I64, deque: seq<TradeTick>, m: Measure)
    ensures Total(m, Expired(d, now, deque)) <= Total(m, deque)
  {
    if deque != [] && Saturate(now - deque[0].time) >= d {
      ExpiredWeighsLess(d, now, deque[1..], m);
      TotalDropFront(m, deque);
    }
  }

  /** An expiry, and a push if there is one, keeps every volume right. */
  ghost predicate SafeStep(d: I64, now: I64, deque: seq<TradeTick>, pushed: Option<TradeTick>) {
    forall m :: IsVolume(m) ==>
      Total(m, Expired(d, now, deque)) <= Total(m, deque)
      && SafeVolume(Total(m, deque), Total(m, Expired(d, now, deque)), PushedWeight(m, pushed))
  }

  /** Exactly when a step keeps the volumes right: the theorem about expiry. */
  lemma StepIsSafeExactly(d: I64, now: I64, deque: seq<TradeTick>, pushed: Option<TradeTick>, c: Counters, c': Counters)
    requires VolumesClamped(c, deque) && Dropped(c, deque, c', Expired(d, now, deque))
    ensures var left := Expired(d, now, deque);
      (if pushed.None? then VolumesClamped(c', left)
        else VolumesClamped(Added(c', pushed.value), left + [pushed.value]))
      <==> SafeStep(d, now, deque, pushed)
  {
    hide Added, VolumeOf, Total, Weight, Expired, SafeVolume, Minus, Clamp;
    var left := Expired(d, now, deque);
    var after, trades := if pushed.None? then c' else Added(c', pushed.value), if pushed.None? then left
      else left + [pushed.value];
    forall m | IsVolume(m)
      ensures Total(m, left) <= Total(m, deque)
      ensures VolumeOf(after, m) == Clamp(Total(m, trades))
         <==> SafeVolume(Total(m, deque), Total(m, left), PushedWeight(m, pushed))
    {
      OneVolumeExactly(m, Total(m, deque), Total(m, left), pushed, c, c', left);
    }
  }

  lemma OneVolumeExactly(m: Measure, t: nat, left: nat, pushed: Option<TradeTick>, c: Counters, c': Counters,
      rest: seq<TradeTick>)
    requires IsVolume(m) && VolumeOf(c, m) == Clamp(t) && left <= t && left == Total(m, rest)
    requires VolumeOf(c', m) == Minus(VolumeOf(c, m), t - left)
    ensures var after := if pushed.None? then c' else Added(c', pushed.value);
            var trades := if pushed.None? then rest else rest + [pushed.value];
      VolumeOf(after, m) == Clamp(Total(m, trades)) <==> SafeVolume(t, left, PushedWeight(m, pushed))
  {
    hide Added, VolumeOf, Total, Weight;
    if pushed.Some? {
      AddedVolume(c', pushed.value, m);
      TotalAppend(m, rest, pushed.value);
    }
    SafeVolumeIsExact(t, left, PushedWeight(m, pushed));
  }

  // ---------------------------------------------------------------- discarding

  predicate InWindow(duration: I64, at: I64, e: TradeTick) {
    e.time <= at && Saturate(at - e.time) < duration
  }

  /** The trades a window holds at a query time. */
  function Within(duration: I64, at: I64, s: seq<TradeTick>): seq<TradeTick> {
    if s == [] then []
    else
      Within(duration, at, s[..|s| - 1])
      + if InWindow(duration, at, s[|s| - 1]) then [s[|s| - 1]] else []
  }

  /** What `expire` leaves of a deque: old trades leave from the front, and only from the front. */
  function Expired(duration: I64, now: I64, deque: seq<TradeTick>): seq<TradeTick> {
    if deque != [] && Saturate(now - deque[0].time) >= duration then Expired(duration, now, deque[1..]) else deque
  }

  /** `deque` is a tail of `all`, and everything discarded was already too old at some time up to `bound`. */
  ghost predicate Prunes(duration: I64, bound: I64, deque: seq<TradeTick>, all: seq<TradeTick>) {
    var gone := |all| - |deque|;
    && gone >= 0 && deque == all[gone..]
    && forall i :: 0 <= i < gone ==> Saturate(bound - all[i].time) >= duration
  }

  lemma {:induction false} ExpiredPrunes(duration: I64, now: I64, bound: I64, deque: seq<TradeTick>,
      all: seq<TradeTick>)
    requires Prunes(duration, bound, deque, all)
    ensures Prunes(duration, if now > bound then now else bound, Expired(duration, now, deque), all)
    decreases |deque|
  {
    var later := if now > bound then now else bound;
    if deque != [] && Saturate(now - deque[0].time) >= duration {
      var gone := |all| - |deque|;
      assert all[gone] == deque[0];
      assert Prunes(duration, later, deque[1..], all);
      ExpiredPrunes(duration, now, later, deque[1..], all);
    }
  }

  lemma {:induction false} WithinConcat(duration: I64, at: I64, a: seq<TradeTick>, b: seq<TradeTick>)
    ensures Within(duration, at, a + b) == Within(duration, at, a) + Within(duration, at, b)
  {
    if b == [] {
      assert a + b == a;
    } else {
      assert (a + b)[..|a + b| - 1] == a + b[..|b| - 1];
      WithinConcat(duration, at, a, b[..|b| - 1]);
    }
  }

  lemma {:induction false} NoneWithin(duration: I64, at: I64, s: seq<TradeTick>)
    requires forall i :: 0 <= i < |s| ==> !InWindow(duration, at, s[i])
    ensures Within(duration, at, s) == []
  {
    hide InWindow;
    if s != [] {
      NoneWithin(duration, at, s[..|s| - 1]);
    }
  }

  lemma {:induction false} AllWithin(duration: I64, at: I64, s: seq<TradeTick>)
    requires forall i :: 0 <= i < |s| ==> InWindow(duration, at, s[i])
    ensures Within(duration, at, s) == s
  {
    hide InWindow;
    if s != [] {
      AllWithin(duration, at, s[..|s| - 1]);
      assert s == s[..|s| - 1] + [s[|s| - 1]];
    }
  }

  /** Discarding is safe: at any time not before the last expiry, the pruned deque and the full
      history hold the same trades, in the same order, whatever order the times came in. */
  lemma DiscardingIsSafe(duration: I64, bound: I64, at: I64, deque: seq<TradeTick>, all: seq<TradeTick>)
    requires Prunes(duration, bound, deque, all) && bound <= at
    ensures Within(duration, at, deque) == Within(duration, at, all)
  {
    var gone := |all| - |deque|;
    assert all == all[..gone] + deque;
    WithinConcat(duration, at, all[..gone], deque);
    NoneWithin(duration, at, all[..gone]);
  }

  /** With non-decreasing times, expiring at `now` leaves exactly the trades in the window at `now`. */
  lemma {:induction false} ExpiredIsWithin(duration: I64, now: I64, deque: seq<TradeTick>)
    requires NonDecreasing(deque) && NotAfter(deque, now)
    ensures Expired(duration, now, deque) == Within(duration, now, deque)
  {
    if deque != [] {
      if Saturate(now - deque[0].time) >= duration {
        assert deque == [deque[0]] + deque[1..];
        WithinConcat(duration, now, [deque[0]], deque[1..]);
        NoneWithin(duration, now, [deque[0]]);
        ExpiredIsWithin(duration, now, deque[1..]);
      } else {
        forall i | 0 <= i < |deque| ensures InWindow(duration, now, deque[i]) {
          assert deque[0].time <= deque[i].time <= now;
        }
        AllWithin(duration, now, deque);
      }
    }
  }

  // ---------------------------------------------------------------- the code

  class Window {
    const duration: I64
    var events: seq<TradeTick>
    var buyCount: nat
    var sellCount: nat
    var buyers: map<string, nat>
    var sellers: map<string, nat>
    var buyQuote: U256
    var sellQuote: U256
    var buyToken: U256
    var sellToken: U256
    var creatorBuy: U256
    var creatorSell: U256
    var newBuyers: nat
    var newSellers: nat
    ghost function Counts(): Counters
      reads this
    {
      Counters(buyCount, sellCount, buyers, sellers, buyQuote, sellQuote, buyToken, sellToken,
               creatorBuy, creatorSell, newBuyers, newSellers)
    }

    ghost predicate Valid()
      reads this
    {
      CountsExact(Counts(), events)
    }

    /** Every volume is the clamped total of the deque. */
    ghost predicate Right()
      reads this
    {
      VolumesClamped(Counts(), events)
    }

    constructor (durationMs: I64)
      ensures Valid() && Right() && duration == durationMs && events == []
    {
      duration := durationMs;
      events := [];
      buyCount, sellCount, newBuyers, newSellers := 0, 0, 0, 0;
      buyers, sellers := map[], map[];
      buyQuote, sellQuote, buyToken, sellToken, creatorBuy, creatorSell := 0, 0, 0, 0, 0, 0;
    }

    method AddBuy(e: TradeTick)
      requires e.isBuy
      modifies `buyCount, `buyers, `buyQuote, `buyToken, `newBuyers, `creatorBuy
      ensures Counts() == Added(old(Counts()), e)
    {
      buyCount := buyCount + 1;
      buyers := Bump(buyers, e.trader);
      buyQuote := AddRaw(buyQuote, e.quote);
      buyToken := AddRaw(buyToken, e.token);
      if e.firstBuy {
        newBuyers := newBuyers + 1;
      }
      if e.isCreator {
        creatorBuy := AddRaw(creatorBuy, e.quote);
      }
    }

    method AddSell(e: TradeTick)
      requires !e.isBuy
      modifies `sellCount, `sellers, `sellQuote, `sellToken, `newSellers, `creatorSell
      ensures Counts() == Added(old(Counts()), e)
    {
      sellCount := sellCount + 1;
      sellers := Bump(sellers, e.trader);
      sellQuote := AddRaw(sellQuote, e.quote);
      sellToken := AddRaw(sellToken, e.token);
      if e.firstSell {
        newSellers := newSellers + 1;
      }
      if e.isCreator {
        creatorSell := AddRaw(creatorSell, e.quote);
      }
    }

    method Add(e: TradeTick)
      modifies this
      ensures Counts() == Added(old(Counts()), e)
      ensures events == old(events)
    {
      if e.isBuy {
        AddBuy(e);
      } else {
        AddSell(e);
      }
    }

    method RemoveBuy(e: TradeTick)
      requires e.isBuy
      modifies `buyCount, `buyers, `buyQuote, `buyToken, `newBuyers, `creatorBuy
      ensures Counts() == Removed(old(Counts()), e)
    {
      buyCount := Less1(buyCount);
      buyers := Drop(buyers, e.trader);
      buyQuote := SubSatRaw(buyQuote, e.quote);
      buyToken := SubSatRaw(buyToken, e.token);
      if e.firstBuy {
        newBuyers := Less1(newBuyers);
      }
      if e.isCreator {
        creatorBuy := SubSatRaw(creatorBuy, e.quote);
      }
    }

    method RemoveSell(e: TradeTick)
      requires !e.isBuy
      modifies `sellCount, `sellers, `sellQuote, `sellToken, `newSellers, `creatorSell
      ensures Counts() == Removed(old(Counts()), e)
    {
      sellCount := Less1(sellCount);
      sellers := Drop(sellers, e.trader);
      sellQuote := SubSatRaw(sellQuote, e.quote);
      sellToken := SubSatRaw(sellToken, e.token);
      if e.firstSell {
        newSellers := Less1(newSellers);
      }
      if e.isCreator {
        creatorSell := SubSatRaw(creatorSell, e.quote);
      }
    }

    method Remove(e: TradeTick)
      modifies this
      ensures Counts() == Removed(old(Counts()), e)
      ensures events == old(events)
    {
      if e.isBuy {
        RemoveBuy(e);
      } else {
        RemoveSell(e);
      }
    }

    /** Volumes that were right stay right exactly when the expiry is safe. */
    method Expire(now: I64)
      requires Valid()
      modifies this
      ensures Valid() && events == Expired(duration, now, old(events))
      ensures Dropped(old(Counts()), old(events), Counts(), events)
      ensures old(Right()) ==> (Right() <==> SafeStep(duration, now, old(events), None))
    {
      hide CountsExact, Dropped, VolumesClamped, SafeStep;
      NothingDropped(Counts(), events);
      while events != [] && Saturate(now - events[0].time) >= duration
        invariant Valid() && Dropped(old(Counts()), old(events), Counts(), events)
        invariant Expired(duration, now, events) == Expired(duration, now, old(events))
        decreases |events|
      {
        var e := events[0];
        RemoveKeepsCounts(Counts(), events);
        DropOneMore(old(Counts()), old(events), Counts(), events);
        Remove(e);
        events := events[1..];
      }
      if old(Right()) {
        StepIsSafeExactly(duration, now, old(events), None, old(Counts()), Counts());
      }
    }

    /** A push never makes a right volume wrong, saturating or not. */
    method Push(tick: TradeTick)
      requires Valid()
      modifies this
      ensures Valid() && events == old(events) + [tick] && Counts() == Added(old(Counts()), tick)
      ensures old(Right()) ==> Right()
    {
      hide CountsExact, VolumesClamped, Added;
      AddKeepsCounts(Counts(), events, tick);
      if Right() {
        AddKeepsVolumes(Counts(), events, tick);
      }
      Add(tick);
      events := events + [tick];
    }

    /** The incremental snapshot is the recomputed one exactly when the volumes are right; everything else in
        it always is. */
    method Snapshot() returns (r: WindowSnapshot)
      requires Valid()
      ensures r == Recompute(duration, events) <==> Right()
      ensures var full := Recompute(duration, events);
        && r.buyCount == full.buyCount && r.sellCount == full.sellCount
        && r.uniqueBuyers == full.uniqueBuyers && r.uniqueSellers == full.uniqueSellers
        && r.newBuyers == full.newBuyers && r.newSellers == full.newSellers
        && r.sizeMin == full.sizeMin && r.sizeMax == full.sizeMax && r.sizeMedian == full.sizeMedian
      ensures forall m :: IsVolume(m) ==> SnapshotVolume(r, m) == VolumeOf(Counts(), m)
      ensures r.netFlow == NetSigned(r.buyQuote, r.sellQuote)
    {
      var min, max := SizeRange(events);
      UniqueIsKeyCount(buyers, events, true);
      UniqueIsKeyCount(sellers, events, false);
      VolumesSpelled(Counts(), events);
      hide Total, VolumesClamped, Multiplicities;
      r := WindowSnapshot(
        duration, buyCount, sellCount, |buyers|, |sellers|,
        buyQuote, sellQuote, buyToken, sellToken, NetSigned(buyQuote, sellQuote),
        newBuyers, newSellers, creatorBuy, creatorSell, min, max, MedianRaw(Quotes(events)));
    }

    /** The from-scratch snapshot at a query time: always the recomputation over the trades in the window. */
    method SnapshotAsOf(at: I64) returns (r: WindowSnapshot)
      ensures r == Recompute(duration, Within(duration, at, events))
    {
      var chosen := Within(duration, at, events);
      var c := Accumulate(chosen);
      VolumesSpelled(c, chosen);
      UniqueIsKeyCount(c.buyers, chosen, true);
      UniqueIsKeyCount(c.sellers, chosen, false);
      var min, max := SizeRange(chosen);
      r := WindowSnapshot(
        duration, c.buyCount, c.sellCount, |c.buyers|, |c.sellers|,
        c.buyQuote, c.sellQuote, c.buyToken, c.sellToken, NetSigned(c.buyQuote, c.sellQuote),
        c.newBuyers, c.newSellers, c.creatorBuy, c.creatorSell, min, max, MedianRaw(Quotes(chosen)));
    }
  }

  method Accumulate(s: seq<TradeTick>) returns (c: Counters)
    ensures CountsExact(c, s) && VolumesClamped(c, s)
  {
    c := ZeroCounters();
    var i := 0;
    while i < |s|
      invariant 0 <= i <= |s|
      invariant CountsExact(c, s[..i]) && VolumesClamped(c, s[..i])
    {
      AddKeepsCounts(c, s[..i], s[i]);
      AddKeepsVolumes(c, s[..i], s[i]);
      assert s[..i + 1] == s[..i] + [s[i]];
      c := Added(c, s[i]);
      i := i + 1;
    }
    assert s[..i] == s;
  }

  method SizeRange(s: seq<TradeTick>) returns (min: Option<U256>, max: Option<U256>)
    ensures min == Smallest(s) && max == Largest(s)
  {
    min, max := None, None;
    var i := 0;
    while i < |s|
      invariant 0 <= i <= |s|
      invariant min == Smallest(s[..i]) && max == Largest(s[..i])
    {
      assert s[..i + 1][..i] == s[..i];
      min := match min { case None => Some(s[i].quote) case Some(m) => Some(MinRaw(m, s[i].quote)) };
      max := match max { case None => Some(s[i].quote) case Some(m) => Some(MaxRaw(m, s[i].quote)) };
      i := i + 1;
    }
    assert s[..i] == s;
  }

  // ---------------------------------------------------------------- all seven windows together

  /** The retained deques, one per duration; a dropped structure is disabled. */
  datatype RollingState = RollingState(enabled: bool, deques: seq<seq<TradeTick>>)

  function FreshRolling(): RollingState {
    RollingState(true, seq(|WindowDurations()|, _ => []))
  }

  predicate WellShaped(r: RollingState) {
    r.enabled ==> |r.deques| == |WindowDurations()|
  }

  function ExpiredAll(r: RollingState, now: I64): RollingState
    requires WellShaped(r)
  {
    if !r.enabled then r
    else r.(deques := seq(|r.deques|,
      i requires 0 <= i < |r.deques| => Expired(WindowDurations()[i], now, r.deques[i])))
  }

  function PushedAll(r: RollingState, now: I64, tick: TradeTick): RollingState
    requires WellShaped(r)
  {
    if !r.enabled then r
    else r.(deques := seq(|r.deques|,
      i requires 0 <= i < |r.deques| => Expired(WindowDurations()[i], now, r.deques[i]) + [tick]))
  }

  /** The seven windows recomputed over a list of trades at a query time. */
  function WindowsAt(at: I64, s: seq<TradeTick>): seq<WindowSnapshot> {
    seq(|WindowDurations()|, i requires 0 <= i < |WindowDurations()| =>
      Recompute(WindowDurations()[i], Within(WindowDurations()[i], at, s)))
  }

  function AsOfAll(r: RollingState, at: I64): seq<WindowSnapshot>
    requires WellShaped(r)
  {
    seq(|WindowDurations()|, i requires 0 <= i < |WindowDurations()| =>
      Recompute(WindowDurations()[i], if r.enabled then Within(WindowDurations()[i], at, r.deques[i]) else []))
  }

  /** Every enabled window prunes the same history. */
  ghost predicate PrunesAll(r: RollingState, bound: I64, all: seq<TradeTick>) {
    WellShaped(r)
    && (r.enabled ==> forall i :: 0 <= i < |WindowDurations()| ==>
       Prunes(WindowDurations()[i], bound, r.deques[i], all))
  }

  lemma DisabledPrunes(r: RollingState, bound: I64, all: seq<TradeTick>)
    requires !r.enabled
    ensures PrunesAll(r, bound, all)
  {
  }

  lemma PushKeepsPruning(r: RollingState, bound: I64, all: seq<TradeTick>, now: I64, tick: TradeTick)
    requires PrunesAll(r, bound, all)
    ensures PrunesAll(PushedAll(r, now, tick), if now > bound then now else bound, all + [tick])
  {
    if r.enabled {
      forall i | 0 <= i < |WindowDurations()|
        ensures Prunes(WindowDurations()[i], if now > bound then now
          else bound, PushedAll(r, now, tick).deques[i], all + [tick])
      {
        ExpiredPrunes(WindowDurations()[i], now, bound, r.deques[i], all);
      }
    }
  }

  lemma ExpiryKeepsPruning(r: RollingState, bound: I64, all: seq<TradeTick>, now: I64)
    requires PrunesAll(r, bound, all)
    ensures PrunesAll(ExpiredAll(r, now), if now > bound then now else bound, all)
  {
    if r.enabled {
      forall i | 0 <= i < |WindowDurations()|
        ensures Prunes(WindowDurations()[i], if now > bound then now else bound, ExpiredAll(r, now).deques[i], all)
      {
        ExpiredPrunes(WindowDurations()[i], now, bound, r.deques[i], all);
      }
    }
  }

  /** Fast form refines simple form: at any time not before the last push or expiry, the pruned deques
      give the seven windows of the full history. */
  lemma PrunedWindowsAreExact(r: RollingState, bound: I64, all: seq<TradeTick>, at: I64)
    requires PrunesAll(r, bound, all) && r.enabled && bound <= at
    ensures AsOfAll(r, at) == WindowsAt(at, all)
  {
    forall i | 0 <= i < |WindowDurations()| ensures AsOfAll(r, at)[i] == WindowsAt(at, all)[i] {
      DiscardingIsSafe(WindowDurations()[i], bound, at, r.deques[i], all);
    }
  }

  class RollingWindows {
    var windows: seq<Window>
    var enabled: bool
    /** Every trade pushed, and the latest push or expiry time. */
    ghost var history: seq<TradeTick>
    ghost var bound: I64

    ghost predicate Valid()
      reads this, windows
    {
      && (enabled ==> |windows| == |WindowDurations()|)
      && (forall i, j :: 0 <= i < j < |windows| ==> windows[i] != windows[j])
      && (forall i :: 0 <= i < |windows| ==> windows[i].Valid())
      && (enabled ==> forall i :: 0 <= i < |windows| ==> windows[i].duration == WindowDurations()[i])
      && PrunesAll(State(), bound, history)
    }

    ghost function State(): RollingState
      reads this, windows
    {
      RollingState(enabled, seq(|windows|, i requires 0 <= i < |windows| reads this, windows => windows[i].events))
    }

    constructor ()
      ensures Valid() && fresh(windows) && enabled
      ensures State() == FreshRolling() && history == [] && bound == I64_MIN
      ensures forall i :: 0 <= i < |windows| ==> windows[i].Right()
    {
      windows := [];
      enabled := true;
      history := [];
      bound := I64_MIN;
      new;
      var i := 0;
      while i < |WindowDurations()|
        invariant 0 <= i <= |WindowDurations()| && |windows| == i
        invariant fresh(windows)
        invariant forall k, l :: 0 <= k < l < i ==> windows[k] != windows[l]
        invariant forall k :: 0 <= k < i ==>
          windows[k].Valid() && windows[k].events == [] && windows[k].duration == WindowDurations()[k]
          && windows[k].Right()
        invariant enabled && history == [] && bound == I64_MIN
      {
        var w := new Window(WindowDurations()[i]);
        windows := windows + [w];
        i := i + 1;
      }
    }

    method Push(now: I64, tick: TradeTick)
      requires Valid()
      modifies this, windows
      ensures Valid() && windows == old(windows) && enabled == old(enabled)
      ensures State() == PushedAll(old(State()), now, tick)
      ensures history == old(history) + [tick] && bound == if now > old(bound) then now else old(bound)
      ensures enabled ==> forall i :: 0 <= i < |windows| && old(windows[i].Right()) ==>
        (windows[i].Right() <==> SafeStep(WindowDurations()[i], now, old(windows[i].events), Some(tick)))
    {
      hide PrunesAll, CountsExact, Prunes, Fits, Expired;
      PushKeepsPruning(State(), bound, history, now, tick);
      history := history + [tick];
      bound := if now > bound then now else bound;
      if !enabled {
        DisabledPrunes(State(), bound, history);
        return;
      }
      PushEach(windows, now, tick);
      assert State() == PushedAll(old(State()), now, tick);
    }

    method ExpireAll(now: I64)
      requires Valid()
      modifies this, windows
      ensures Valid() && windows == old(windows) && enabled == old(enabled)
      ensures State() == ExpiredAll(old(State()), now)
      ensures history == old(history) && bound == if now > old(bound) then now else old(bound)
      ensures enabled ==> forall i :: 0 <= i < |windows| && old(windows[i].Right()) ==>
        (windows[i].Right() <==> SafeStep(WindowDurations()[i], now, old(windows[i].events), None))
    {
      hide PrunesAll, CountsExact, Prunes, Expired;
      ExpiryKeepsPruning(State(), bound, history, now);
      bound := if now > bound then now else bound;
      if !enabled {
        DisabledPrunes(State(), bound, history);
        return;
      }
      ExpireEach(windows, now);
      assert State() == ExpiredAll(old(State()), now);
    }

    /** At any time not before the last push or expiry: the seven windows of every trade ever pushed. */
    method SnapshotsAsOf(at: I64) returns (r: seq<WindowSnapshot>)
      requires Valid()
      ensures r == AsOfAll(State(), at)
      ensures enabled && bound <= at ==> r == WindowsAt(at, history)
    {
      r := [];
      var i := 0;
      while i < |WindowDurations()|
        invariant 0 <= i <= |WindowDurations()|
        invariant r == AsOfAll(State(), at)[..i]
      {
        var one: WindowSnapshot;
        if enabled {
          one := windows[i].SnapshotAsOf(at);
        } else {
          one := Recompute(WindowDurations()[i], []);
        }
        r := r + [one];
        i := i + 1;
      }
      assert AsOfAll(State(), at)[..i] == AsOfAll(State(), at);
      if enabled && bound <= at {
        PrunedWindowsAreExact(State(), bound, history, at);
      }
    }

    /** The incremental snapshots: each the recomputation over its deque exactly when its volumes are right. */
    method Snapshots() returns (r: seq<WindowSnapshot>)
      requires Valid()
      ensures |r| == |WindowDurations()|
      ensures enabled ==> forall i :: 0 <= i < |r| ==>
        (r[i] == Recompute(WindowDurations()[i], windows[i].events) <==> windows[i].Right())
      ensures !enabled ==> forall i :: 0 <= i < |r| ==> r[i] == Recompute(WindowDurations()[i], [])
    {
      hide Recompute, CountsExact, PrunesAll;
      if !enabled {
        return seq(|WindowDurations()|, i requires 0 <= i < |WindowDurations()| => Recompute(WindowDurations()[i], []));
      }
      r := [];
      var i := 0;
      while i < |windows|
        invariant 0 <= i <= |windows| && |r| == i
        invariant forall k :: 0 <= k < i ==>
          (r[k] == Recompute(WindowDurations()[k], windows[k].events) <==> windows[k].Right())
      {
        var one := windows[i].Snapshot();
        r := r + [one];
        i := i + 1;
      }
    }

    method DropTicks()
      requires Valid()
      modifies this
      ensures Valid() && !enabled && State() == RollingState(false, [])
      ensures history == old(history) && bound == old(bound)
    {
      enabled := false;
      windows := [];
    }
  }

  method PushOne(w: Window, now: I64, tick: TradeTick)
    requires w.Valid()
    modifies w
    ensures w.Valid() && w.events == Expired(w.duration, now, old(w.events)) + [tick]
    ensures old(w.Right()) ==> (w.Right() <==> SafeStep(w.duration, now, old(w.events), Some(tick)))
  {
    hide CountsExact, VolumesClamped, SafeStep, Dropped, Added;
    w.Expire(now);
    ghost var left := w.Counts();
    w.Push(tick);
    if old(w.Right()) {
      StepIsSafeExactly(w.duration, now, old(w.events), Some(tick), old(w.Counts()), left);
    }
  }

  method PushEach(windows: seq<Window>, now: I64, tick: TradeTick)
    requires forall i, j :: 0 <= i < j < |windows| ==> windows[i] != windows[j]
    requires forall i :: 0 <= i < |windows| ==> windows[i].Valid()
    modifies windows
    ensures forall i :: 0 <= i < |windows| ==> windows[i].Valid()
    ensures forall i :: 0 <= i < |windows| ==>
      windows[i].events == Expired(windows[i].duration, now, old(windows[i].events)) + [tick]
    ensures forall i :: 0 <= i < |windows| && old(windows[i].Right()) ==>
      (windows[i].Right() <==> SafeStep(windows[i].duration, now, old(windows[i].events), Some(tick)))
  {
    hide CountsExact, VolumesClamped, SafeStep, Expired;
    var i := 0;
    while i < |windows|
      invariant 0 <= i <= |windows|
      invariant forall k :: 0 <= k < |windows| ==> windows[k].Valid()
      invariant forall k :: 0 <= k < i ==>
        windows[k].events == Expired(windows[k].duration, now, old(windows[k].events)) + [tick]
      invariant forall k :: 0 <= k < i && old(windows[k].Right()) ==>
        (windows[k].Right() <==> SafeStep(windows[k].duration, now, old(windows[k].events), Some(tick)))
      invariant forall k :: i <= k < |windows| ==>
        windows[k].events == old(windows[k].events) && windows[k].Right() == old(windows[k].Right())
    {
      PushOne(windows[i], now, tick);
      i := i + 1;
    }
  }

  method ExpireEach(windows: seq<Window>, now: I64)
    requires forall i, j :: 0 <= i < j < |windows| ==> windows[i] != windows[j]
    requires forall i :: 0 <= i < |windows| ==> windows[i].Valid()
    modifies windows
    ensures forall i :: 0 <= i < |windows| ==> windows[i].Valid()
    ensures forall i :: 0 <= i < |windows| ==>
      windows[i].events == Expired(windows[i].duration, now, old(windows[i].events))
    ensures forall i :: 0 <= i < |windows| && old(windows[i].Right()) ==>
      (windows[i].Right() <==> SafeStep(windows[i].duration, now, old(windows[i].events), None))
  {
    hide CountsExact, VolumesClamped, SafeStep, Expired, Dropped;
    var i := 0;
    while i < |windows|
      invariant 0 <= i <= |windows|
      invariant forall k :: 0 <= k < |windows| ==> windows[k].Valid()
      invariant forall k :: 0 <= k < i ==>
        windows[k].events == Expired(windows[k].duration, now, old(windows[k].events))
      invariant forall k :: 0 <= k < i && old(windows[k].Right()) ==>
        (windows[k].Right() <==> SafeStep(windows[k].duration, now, old(windows[k].events), None))
      invariant forall k :: i <= k < |windows| ==>
        windows[k].events == old(windows[k].events) && windows[k].Right() == old(windows[k].Right())
    {
      windows[i].Expire(now);
      i := i + 1;
    }
  }

  const BIG := TradeTick(0, "a", true, false, U256_MAX, 0, false, false)
  const SMALL := TradeTick(1, "a", true, false, 1, 0, false, false)

  /** Pushed, pushed, expired: the window holds one trade of one and reports a volume of zero. */
  method SaturatedExpiry() returns (reported: WindowSnapshot, held: seq<TradeTick>)
    ensures held == [SMALL] && Recompute(5_000, held).buyQuote == 1 && reported.buyQuote == 0
  {
    hide Total, Expired, Weight, Added, CountsExact;
    var w := new Window(5_000);
    w.Push(BIG);
    w.Push(SMALL);
    assert w.events == [BIG, SMALL];
    ghost var before := w.Counts();
    w.Expire(5_000);
    DropTheBig(before, w.Counts());
    reported := w.Snapshot();
    held := w.events;
    assert reported.buyQuote == SnapshotVolume(reported, BuyQuote) == VolumeOf(w.Counts(), BuyQuote);
  }

  lemma DropTheBig(c: Counters, c': Counters)
    requires VolumesClamped(c, [BIG, SMALL]) && Dropped(c, [BIG, SMALL], c', Expired(5_000, 5_000, [BIG, SMALL]))
    ensures Expired(5_000, 5_000, [BIG, SMALL]) == [SMALL]
    ensures Clamp(Total(BuyQuote, [SMALL])) == 1 && VolumeOf(c', BuyQuote) == 0
  {
    assert [BIG, SMALL][1..] == [SMALL];
    assert Total(BuyQuote, [SMALL]) == 1 by { assert [SMALL][..0] == []; }
    TotalDropFront(BuyQuote, [BIG, SMALL]);
    assert IsVolume(BuyQuote) && VolumeOf(c, BuyQuote) == U256_MAX;
  }

  lemma {:induction false} WithinAll(duration: I64, at: I64, s: seq<TradeTick>)
    ensures forall i :: 0 <= i < |Within(duration, at, s)| ==> InWindow(duration, at, Within(duration, at, s)[i])
  {
    if s != [] {
      WithinAll(duration, at, s[..|s| - 1]);
    }
  }

  ghost predicate NonDecreasing(s: seq<TradeTick>) {
    forall k, l :: 0 <= k <= l < |s| ==> s[k].time <= s[l].time
  }

  ghost predicate NotAfter(s: seq<TradeTick>, now: I64) {
    forall k :: 0 <= k < |s| ==> s[k].time <= now
  }

  /** One window: with non-decreasing times, a push at the tick's own time leaves exactly the window
      of the full history. */
  lemma PushLeavesExactWindow(d: I64, bound: I64, deque: seq<TradeTick>, all: seq<TradeTick>, tick: TradeTick)
    requires d > 0 && Prunes(d, bound, deque, all) && bound <= tick.time
    requires NonDecreasing(all) && NotAfter(all, tick.time)
    ensures Expired(d, tick.time, deque) + [tick] == Within(d, tick.time, all + [tick])
  {
    var now := tick.time;
    assert NonDecreasing(deque) && NotAfter(deque, now) by {
      assert deque == all[|all| - |deque|..];
    }
    ExpiredIsWithin(d, now, deque);
    DiscardingIsSafe(d, bound, now, deque, all);
    assert (all + [tick])[..|all|] == all;
  }

  /** All seven at once: right after such a push the incremental snapshot, the as-of snapshot and
      recomputation over every trade so far agree. */
  lemma PushLeavesExactWindows(r: RollingState, bound: I64, all: seq<TradeTick>, tick: TradeTick, i: nat)
    requires PrunesAll(r, bound, all) && r.enabled && bound <= tick.time && i < |WindowDurations()|
    requires NonDecreasing(all) && NotAfter(all, tick.time)
    ensures var d := WindowDurations()[i];
            var deque := PushedAll(r, tick.time, tick).deques[i];
            && Within(d, tick.time, deque) == deque
            && Recompute(d, deque) == WindowsAt(tick.time, all + [tick])[i]
  {
    hide Recompute, Within, Expired, Prunes;
    var d := WindowDurations()[i];
    PushLeavesExactWindow(d, bound, r.deques[i], all, tick);
    WithinAll(d, tick.time, all + [tick]);
    AllWithin(d, tick.time, Within(d, tick.time, all + [tick]));
  }

  // ---------------------------------------------------------------- whole runs

  /** A trade pushed at its own time, an expiry, or the windows given up for good. */
  datatype WindowOp = Traded(tick: TradeTick) | Clock(now: I64) | GivenUp(now: I64)

  function OpTime(op: WindowOp): I64 {
    match op
    case Traded(tick) => tick.time
    case Clock(now) => now
    case GivenUp(now) => now
  }

  function Butlast<T>(s: seq<T>): seq<T>
    requires s != []
  {
    s[..|s| - 1]
  }

  function Last<T>(s: seq<T>): T
    requires s != []
  {
    s[|s| - 1]
  }

  function Pushed(ops: seq<WindowOp>): seq<TradeTick> {
    if ops == [] then []
    else Pushed(Butlast(ops)) + if Last(ops).Traded? then [Last(ops).tick] else []
  }

  function StepState(r: RollingState, op: WindowOp): (r': RollingState)
    requires WellShaped(r)
    ensures WellShaped(r')
  {
    match op
    case Traded(tick) => PushedAll(r, tick.time, tick)
    case Clock(now) => ExpiredAll(r, now)
    case GivenUp(_) => RollingState(false, [])
  }

  /** The retained deques after a run. */
  function StateAfter(ops: seq<WindowOp>): (r: RollingState)
    ensures WellShaped(r)
  {
    if ops == [] then FreshRolling() else StepState(StateAfter(Butlast(ops)), Last(ops))
  }

  function BoundStep(bound: I64, op: WindowOp): I64 {
    if op.GivenUp? || OpTime(op) <= bound then bound else OpTime(op)
  }

  /** The latest push or expiry of a run. */
  function BoundAfter(ops: seq<WindowOp>): I64 {
    if ops == [] then I64_MIN else BoundStep(BoundAfter(Butlast(ops)), Last(ops))
  }

  predicate OpsInOrder(ops: seq<WindowOp>) {
    forall i, j :: 0 <= i <= j < |ops| ==> OpTime(ops[i]) <= OpTime(ops[j])
  }

  predicate NoOpAfter(ops: seq<WindowOp>, at: I64) {
    forall n :: 0 <= n < |ops| ==> OpTime(ops[n]) <= at
  }

  /** The trades window `i` holds. */
  function Held(r: RollingState, i: nat): seq<TradeTick>
    requires WellShaped(r) && i < |WindowDurations()|
  {
    if r.enabled then r.deques[i] else []
  }

  lemma {:induction false} PrunesAfter(ops: seq<WindowOp>)
    ensures PrunesAll(StateAfter(ops), BoundAfter(ops), Pushed(ops))
  {
    hide Expired;
    if ops == [] {
    } else {
      var r, bound, all := StateAfter(Butlast(ops)), BoundAfter(Butlast(ops)), Pushed(Butlast(ops));
      PrunesAfter(Butlast(ops));
      match Last(ops)
      case Traded(tick) => PushKeepsPruning(r, bound, all, tick.time, tick);
      case Clock(now) => ExpiryKeepsPruning(r, bound, all, now);
      case GivenUp(_) => DisabledPrunes(RollingState(false, []), bound, Pushed(ops));
    }
  }

  lemma {:induction false} BoundIsLast(ops: seq<WindowOp>, at: I64)
    requires NoOpAfter(ops, at)
    ensures BoundAfter(ops) <= at
  {
    if ops != [] {
      BoundIsLast(Butlast(ops), at);
    }
  }

  lemma {:induction false} PushedTimes(ops: seq<WindowOp>, at: I64)
    requires OpsInOrder(ops) && NoOpAfter(ops, at)
    ensures NonDecreasing(Pushed(ops)) && NotAfter(Pushed(ops), at)
  {
    if ops != [] {
      assert NoOpAfter(Butlast(ops), OpTime(Last(ops)));
      PushedTimes(Butlast(ops), OpTime(Last(ops)));
    }
  }

  /** When times never go back, right after a push every window holds exactly the window of all trades pushed. */
  lemma HeldIsTheWindow(ops: seq<WindowOp>, i: nat)
    requires ops != [] && Last(ops).Traded? && OpsInOrder(ops) && i < |WindowDurations()|
    requires StateAfter(Butlast(ops)).enabled
    ensures Recompute(WindowDurations()[i], Held(StateAfter(ops), i)) == WindowsAt(OpTime(Last(ops)), Pushed(ops))[i]
  {
    hide Recompute, Expired, Prunes;
    var before, tick := Butlast(ops), Last(ops).tick;
    PrunesAfter(before);
    assert NoOpAfter(before, tick.time);
    BoundIsLast(before, tick.time);
    PushedTimes(before, tick.time);
    PushLeavesExactWindows(StateAfter(before), BoundAfter(before), Pushed(before), tick, i);
  }

  // ------------------------------------------------ when the incremental volumes are right

  /** An operation keeps window `i`'s volumes right: only an expiry can spoil them. */
  ghost predicate SafeOp(r: RollingState, op: WindowOp, i: nat)
    requires WellShaped(r) && i < |WindowDurations()|
  {
    !r.enabled
    || match op
       case Traded(tick) => SafeStep(WindowDurations()[i], tick.time, r.deques[i], Some(tick))
       case Clock(now) => SafeStep(WindowDurations()[i], now, r.deques[i], None)
       case GivenUp(_) => true
  }

  ghost predicate SafeUpTo(ops: seq<WindowOp>, k: nat, i: nat)
    requires k <= |ops| && i < |WindowDurations()|
  {
    forall n :: 0 <= n < k ==> SafeOp(StateAfter(ops[..n]), ops[n], i)
  }

  /** The snapshots taken after each of the first `k` operations are the recomputed ones, in window `i`. */
  ghost predicate AgreesUpTo(ops: seq<WindowOp>, k: nat, i: nat, taken: seq<seq<WindowSnapshot>>)
    requires k <= |ops| && k <= |taken| && i < |WindowDurations()|
  {
    forall n :: 0 <= n < k ==> AgreesAt(ops, n, i, taken[n])
  }

  ghost predicate AgreesAt(ops: seq<WindowOp>, n: nat, i: nat, snaps: seq<WindowSnapshot>)
    requires n < |ops| && i < |WindowDurations()|
  {
    |snaps| == |WindowDurations()| && snaps[i] == Recompute(WindowDurations()[i], Held(StateAfter(ops[..n + 1]), i))
  }

  lemma TailWeighsLess(m: Measure, s: seq<TradeTick>, gone: nat)
    requires gone <= |s|
    ensures Total(m, s[gone..]) <= Total(m, s)
  {
    assert s == s[..gone] + s[gone..];
    TotalConcat(m, s[..gone], s[gone..]);
  }

  lemma FitsEach(s: seq<TradeTick>)
    ensures Fits(s) <==> forall m :: IsVolume(m) ==> Total(m, s) <= U256_MAX
  {
    hide Total;
    assert IsVolume(BuyQuote) && IsVolume(SellQuote) && IsVolume(BuyToken)
        && IsVolume(SellToken) && IsVolume(CreatorBuy) && IsVolume(CreatorSell);
  }

  lemma FittingStepIsSafe(d: I64, now: I64, deque: seq<TradeTick>, all: seq<TradeTick>, bound: I64,
      pushed: Option<TradeTick>)
    requires Prunes(d, bound, deque, all) && Fits(all)
    ensures SafeStep(d, now, deque, pushed)
  {
    hide Total, Expired, Fits;
    FitsEach(all);
    forall m | IsVolume(m)
      ensures Total(m, Expired(d, now, deque)) <= Total(m, deque) <= U256_MAX
    {
      ExpiredWeighsLess(d, now, deque, m);
      TailWeighsLess(m, all, |all| - |deque|);
    }
  }

  lemma {:induction false} PushedGrows(ops: seq<WindowOp>, n: nat)
    requires n <= |ops|
    ensures Pushed(ops[..n]) <= Pushed(ops)
  {
    if n == |ops| {
      assert ops[..n] == ops;
    } else {
      PushedGrows(Butlast(ops), n);
      assert Butlast(ops)[..n] == ops[..n];
    }
  }

  lemma PrefixFits(part: seq<TradeTick>, all: seq<TradeTick>)
    requires part <= all && Fits(all)
    ensures Fits(part)
  {
    hide Total, Fits;
    FitsEach(part);
    FitsEach(all);
    assert all == part + all[|part|..];
    forall m | IsVolume(m) ensures Total(m, part) <= U256_MAX {
      TotalConcat(m, part, all[|part|..]);
    }
  }

  /** When the volumes of everything pushed fit, no expiry spoils anything. */
  lemma FittingRunIsSafe(ops: seq<WindowOp>, i: nat)
    requires Fits(Pushed(ops)) && i < |WindowDurations()|
    ensures SafeUpTo(ops, |ops|, i)
  {
    hide Fits, SafeStep, Prunes, Expired, Pushed, StateAfter;
    forall n | 0 <= n < |ops| ensures SafeOp(StateAfter(ops[..n]), ops[n], i) {
      var r, all, bound := StateAfter(ops[..n]), Pushed(ops[..n]), BoundAfter(ops[..n]);
      PushedGrows(ops, n);
      PrefixFits(all, Pushed(ops));
      PrunesAfter(ops[..n]);
      if r.enabled {
        var d := WindowDurations()[i];
        match ops[n]
        case Traded(tick) => FittingStepIsSafe(d, tick.time, r.deques[i], all, bound, Some(tick));
        case Clock(now) => FittingStepIsSafe(d, now, r.deques[i], all, bound, None);
        case GivenUp(_) =>
      }
    }
  }

  /** Window `i` of an enabled structure has right volumes; a disabled structure has no wrong ones. */
  ghost predicate RightAt(w: RollingWindows, i: nat)
    reads w, w.windows
  {
    w.enabled ==> i < |w.windows| && w.windows[i].Right()
  }

  method RunOne(w: RollingWindows, op: WindowOp) returns (snaps: seq<WindowSnapshot>)
    requires w.Valid()
    modifies w, w.windows
    ensures w.Valid() && w.State() == StepState(old(w.State()), op)
    ensures w.windows == old(w.windows) || w.windows == []
    ensures |snaps| == |WindowDurations()|
    ensures forall i :: 0 <= i < |WindowDurations()| ==>
      (snaps[i] == Recompute(WindowDurations()[i], Held(w.State(), i)) <==> RightAt(w, i))
    ensures forall i :: 0 <= i < |WindowDurations()| && old(RightAt(w, i)) ==>
      (RightAt(w, i) <==> SafeOp(old(w.State()), op, i))
  {
    hide PrunesAll, SafeStep, Recompute, Expired, CountsExact, VolumesClamped;
    match op {
      case Traded(tick) => w.Push(tick.time, tick);
      case Clock(now) => w.ExpireAll(now);
      case GivenUp(_) => w.DropTicks();
    }
    snaps := w.Snapshots();
  }

  /** One more operation: the run agrees so far exactly when every step so far was safe. */
  lemma AgreeOneMore(ops: seq<WindowOp>, k: nat, i: nat, taken: seq<seq<WindowSnapshot>>, snaps: seq<WindowSnapshot>,
      wasRight: bool, isRight: bool)
    requires k < |ops| && |taken| == k && i < |WindowDurations()| && |snaps| == |WindowDurations()|
    requires AgreesUpTo(ops, k, i, taken) <==> SafeUpTo(ops, k, i)
    requires SafeUpTo(ops, k, i) ==> wasRight
    requires snaps[i] == Recompute(WindowDurations()[i], Held(StateAfter(ops[..k + 1]), i)) <==> isRight
    requires wasRight ==> (isRight <==> SafeOp(StateAfter(ops[..k]), ops[k], i))
    ensures AgreesUpTo(ops, k + 1, i, taken + [snaps]) <==> SafeUpTo(ops, k + 1, i)
    ensures SafeUpTo(ops, k + 1, i) ==> isRight
  {
    hide Recompute, Held, SafeOp, StateAfter;
    var both := taken + [snaps];
    assert AgreesUpTo(ops, k + 1, i, both) <==> AgreesUpTo(ops, k, i, taken) && AgreesAt(ops, k, i, snaps) by {
      assert both[k] == snaps && forall n :: 0 <= n < k ==> both[n] == taken[n];
    }
    assert SafeUpTo(ops, k + 1, i) <==> SafeUpTo(ops, k, i) && SafeOp(StateAfter(ops[..k]), ops[k], i);
  }

  lemma StateStep(ops: seq<WindowOp>, k: nat)
    requires k < |ops|
    ensures StateAfter(ops[..k + 1]) == StepState(StateAfter(ops[..k]), ops[k])
  {
    hide StepState;
    assert Butlast(ops[..k + 1]) == ops[..k];
  }

  /** Any run of pushes and expiries, windows given up or not. The snapshots taken after every operation are in
      each window the recomputed ones exactly when no expiry spoiled that window; and the as-of windows, at any
      time not before an operation, are always those of every trade pushed, in whatever time order. */
  method RunWindows(ops: seq<WindowOp>, at: I64) returns (asOf: seq<WindowSnapshot>, taken: seq<seq<WindowSnapshot>>)
    ensures |taken| == |ops|
    ensures forall i :: 0 <= i < |WindowDurations()| ==> (AgreesUpTo(ops, |ops|, i, taken) <==> SafeUpTo(ops, |ops|, i))
    ensures NoOpAfter(ops, at) ==> asOf == WindowsAt(at, if StateAfter(ops).enabled then Pushed(ops) else [])
  {
    hide AgreesUpTo, SafeUpTo, SafeOp, StepState, StateAfter, Recompute, WindowsAt, AsOfAll, Held, PrunesAll,
      CountsExact, VolumesClamped;
    var w := new RollingWindows();
    taken := [];
    var k := 0;
    StartsRight(ops);
    while k < |ops|
      invariant 0 <= k <= |ops| && |taken| == k && fresh(w) && fresh(w.windows)
      invariant w.Valid() && w.State() == StateAfter(ops[..k])
      invariant forall i :: 0 <= i < |WindowDurations()| ==> (AgreesUpTo(ops, k, i, taken) <==> SafeUpTo(ops, k, i))
      invariant forall i :: 0 <= i < |WindowDurations()| && SafeUpTo(ops, k, i) ==> RightAt(w, i)
    {
      label Before:
      var snaps := RunOne(w, ops[k]);
      StateStep(ops, k);
      var next, longer := k + 1, taken + [snaps];
      forall i | 0 <= i < |WindowDurations()|
        ensures AgreesUpTo(ops, next, i, longer) <==> SafeUpTo(ops, next, i)
        ensures SafeUpTo(ops, next, i) ==> RightAt(w, i)
      {
        AgreeOneMore(ops, k, i, taken, snaps, old@Before(RightAt(w, i)), RightAt(w, i));
      }
      taken, k := longer, next;
    }
    assert ops[..k] == ops;
    asOf := w.SnapshotsAsOf(at);
    if NoOpAfter(ops, at) {
      AsOfAfter(ops, at);
    }
  }

  lemma StartsRight(ops: seq<WindowOp>)
    ensures StateAfter(ops[..0]) == FreshRolling()
    ensures forall i :: 0 <= i < |WindowDurations()| ==> AgreesUpTo(ops, 0, i, []) && SafeUpTo(ops, 0, i)
  {
    assert ops[..0] == [];
  }

  lemma AsOfAfter(ops: seq<WindowOp>, at: I64)
    requires NoOpAfter(ops, at)
    ensures AsOfAll(StateAfter(ops), at) == WindowsAt(at, if StateAfter(ops).enabled then Pushed(ops) else [])
  {
    hide Recompute, PrunesAll, Prunes;
    PrunesAfter(ops);
    BoundIsLast(ops, at);
    if StateAfter(ops).enabled {
      PrunedWindowsAreExact(StateAfter(ops), BoundAfter(ops), Pushed(ops), at);
    }
  }

  /** In order and safe: right after a push, the incremental windows are those of every trade pushed. */
  lemma IncrementalIsAsOf(ops: seq<WindowOp>, i: nat, taken: seq<seq<WindowSnapshot>>, n: nat)
    requires |taken| == |ops| && i < |WindowDurations()| && n < |ops|
    requires AgreesUpTo(ops, |ops|, i, taken) <==> SafeUpTo(ops, |ops|, i)
    requires OpsInOrder(ops) && ops[n].Traded? && StateAfter(ops[..n]).enabled && SafeUpTo(ops, |ops|, i)
    ensures |taken[n]| == |WindowDurations()| && taken[n][i] == WindowsAt(OpTime(ops[n]), Pushed(ops[..n + 1]))[i]
  {
    hide Recompute, Held, StateAfter, SafeUpTo, WindowsAt, Pushed;
    var part := ops[..n + 1];
    assert Butlast(part) == ops[..n] && Last(part) == ops[n];
    assert AgreesAt(ops, n, i, taken[n]);
    HeldIsTheWindow(part, i);
  }
}
