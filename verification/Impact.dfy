/** What an order of a given size gets from a venue: bonding-curve and constant-product swaps with fees,
    caps and adverse movement, and the largest order that stays within an impact limit. */
module Impact {
  import opened Amounts
  import opened Domain
  import opened TokenBooks

  const U32_MAX: int := 0xFFFF_FFFF
  const WORD: int := 0x1_0000_0000_0000_0000
  const SCALE: U256 := 1_000_000_000_000_000_000
  const BPS: U256 := 10_000

  type U32 = x: int | 0 <= x <= U32_MAX

  datatype Side = Buy | Sell

  datatype Status =
    | Filled | PartialFill | NoFill | Failed | RejectedLiquidity | RejectedSlippage
    | UnavailableMarketState | TemporarilyUnavailable | SecurityRejected | QualityRejected

  predicate IsFill(s: Status) {
    s.Filled? || s.PartialFill?
  }

  datatype Quality = Exact | Modelled | PartialState | NonResearchValid

  datatype Reason =
    | ZeroVirtualReserve | ZeroQuote | FeeTaxConsumedQuote | ZeroTokenOut | ZeroToken | ZeroQuoteOut
    | ImpactAbove(impact: U32, limit: U32)
    | PonsGraduationGap | MarketNotSellable | UnknownCurveReserves | UnknownCurveQuality
    | UnknownCpReserves | UnknownCpQuality | NoUniswapV4Model | UnknownLiquidity

  datatype VenueFill = VenueFill(
    status: Status, quality: Quality, token: U256, quote: U256, protocolFee: U256, snipeTax: U256,
    refPrice: U256, effPrice: U256, impact: Option<U32>, fraction: U32, reason: Option<Reason>)

  function Fail(status: Status, quality: Quality, reason: Reason): VenueFill {
    VenueFill(status, quality, 0, 0, 0, 0, 0, 0, None, 0, Some(reason))
  }

  // ---------------------------------------------------------------- integer arithmetic

  function DivRaw(a: U256, n: U256): (r: U256)
    requires n > 0
    ensures r <= a
  {
    Shrinks(a, n);
    a / n
  }

  lemma Shrinks(a: nat, n: nat)
    requires n > 0
    ensures 0 <= a / n <= a
  {
    var q := a / n;
    assert a == n * q + a % n;
    MulMono(1, n, q);
  }

  lemma MulMono(x: nat, y: nat, n: nat)
    requires x <= y
    ensures x * n <= y * n && n * x <= n * y
  {
  }

  /** A floor reaches `x` exactly when the product does not pass the dividend. */
  lemma DivAtLeast(a: U256, n: U256, x: nat)
    requires n > 0
    ensures x <= DivRaw(a, n) <==> x * n <= a
  {
    var q := a / n;
    assert a == n * q + a % n && 0 <= a % n < n;
    if x <= q {
      MulMono(x, q, n);
    } else {
      MulMono(q + 1, x, n);
    }
  }

  function Price(quote: U256, token: U256): U256 {
    if token == 0 then 0 else DivRaw(SatMul(quote, SCALE), token)
  }

  function ToU32(x: U256, otherwise: U32): U32 {
    if x <= U32_MAX then x else otherwise
  }

  function ImpactBps(refPx: U256, effPx: U256, side: Side): Option<U32> {
    if refPx == 0 then None
    else
      var gap := match side case Buy => SubSatRaw(effPx, refPx) case Sell => SubSatRaw(refPx, effPx);
      Some(ToU32(DivRaw(SatMul(gap, BPS), refPx), U32_MAX))
  }

  function Keep(bps: U32): U256 {
    if bps >= 10_000 then 0 else 10_000 - bps
  }

  function ApplyAdverse(amount: U256, bps: U32): U256 {
    if bps == 0 then amount else DivRaw(SatMul(amount, Keep(bps)), BPS)
  }

  function Capped(amount: U256, cap: Option<U256>): U256 {
    if cap.Some? && cap.value != 0 && amount > cap.value then cap.value else amount
  }

  lemma FractionShrinks(x: U256, bps: U256)
    requires bps <= BPS
    ensures DivRaw(SatMul(x, bps), BPS) <= x
  {
    MulMono(bps, BPS, x);
    DivAtLeast(SatMul(x, bps), BPS, x + 1);
  }

  lemma AdverseShrinks(amount: U256, bps: U32)
    ensures ApplyAdverse(amount, bps) <= amount
  {
    FractionShrinks(amount, Keep(bps));
  }

  lemma NoAdverse(amount: U256)
    ensures ApplyAdverse(amount, 0) == amount
  {
  }

  /** An order passes its impact limit exactly when its scaled price gap, clamped to a word, is less than one
      basis point's worth more than the limit; the largest limit passes everything. */
  lemma ImpactWithin(refPx: U256, effPx: U256, side: Side, limit: U32)
    requires refPx > 0
    ensures var gap := if side.Buy? then SubSatRaw(effPx, refPx) else SubSatRaw(refPx, effPx);
      ImpactBps(refPx, effPx, side).Some?
      && (ImpactBps(refPx, effPx, side).value <= limit <==> limit == U32_MAX || SatMul(gap, BPS) < (limit + 1) * refPx)
  {
    hide DivRaw, SatMul;
    var gap := if side.Buy? then SubSatRaw(effPx, refPx) else SubSatRaw(refPx, effPx);
    DivAtLeast(SatMul(gap, BPS), refPx, limit + 1);
  }

  // ---------------------------------------------------------------- the curve

  /** The constant product. */
  function Product(vs: U256, vt: U256): U256 {
    SatMul(vs, vt)
  }

  /** Tokens out for a net quote in. */
  function Forward(vs: U256, vt: U256, a: U256): U256
    requires vs > 0
  {
    SubSatRaw(vt, DivRaw(Product(vs, vt), AddRaw(vs, a)))
  }

  /** Quote out for tokens in. */
  function Backward(vs: U256, vt: U256, t: U256): U256
    requires vt > 0
  {
    SubSatRaw(vs, DivRaw(Product(vs, vt), AddRaw(vt, t)))
  }

  /** The curve gives the fewest tokens whose removal does not raise the product: its floor rounds in
      the trader's favour. */
  lemma ForwardIsLeast(vs: U256, vt: U256, a: U256, t: nat)
    requires vs > 0 && t <= vt
    ensures Forward(vs, vt, a) <= vt
    ensures Forward(vs, vt, a) <= t <==> (vt - t) * AddRaw(vs, a) <= Product(vs, vt)
  {
    hide SatMul, DivRaw, Clamp;
    assert AddRaw(vs, a) > 0 by { NoLess(vs, a); }
    DivAtLeast(Product(vs, vt), AddRaw(vs, a), vt - t);
  }

  lemma NoLess(x: U256, y: U256)
    ensures AddRaw(x, y) >= x
  {
  }

  lemma BackwardIsLeast(vs: U256, vt: U256, t: U256, q: nat)
    requires vt > 0 && q <= vs
    ensures Backward(vs, vt, t) <= vs
    ensures Backward(vs, vt, t) <= q <==> (vs - q) * AddRaw(vt, t) <= Product(vs, vt)
  {
    hide SatMul, DivRaw, Clamp;
    assert AddRaw(vt, t) > 0 by { NoLess(vt, t); }
    DivAtLeast(Product(vs, vt), AddRaw(vt, t), vs - q);
  }

  lemma BackwardMonotone(vs: U256, vt: U256, t: U256, u: U256)
    requires vt > 0 && t <= u
    ensures Backward(vs, vt, t) <= Backward(vs, vt, u)
  {
    hide DivRaw, SatMul;
    var q := Backward(vs, vt, u);
    assert q <= vs by { BackwardIsLeast(vs, vt, u, vs); }
    BackwardIsLeast(vs, vt, u, q);
    BackwardIsLeast(vs, vt, t, q);
    MulMono(AddRaw(vt, t), AddRaw(vt, u), vs - q);
  }

  // ---------------------------------------------------------------- buying

  datatype BuyFees = BuyFees(tax: U256, proto: U256, net: U256)

  function FeesOf(quote: U256, feeBps: U32, snipeBps: U32): BuyFees {
    var tax := DivRaw(SatMul(quote, snipeBps), BPS);
    var afterTax := SubSatRaw(quote, tax);
    var proto := DivRaw(SatMul(afterTax, feeBps), BPS);
    BuyFees(tax, proto, SubSatRaw(afterTax, proto))
  }

  /** Nothing of the quote is lost between tax, fee and net. */
  lemma FeesConserve(quote: U256, feeBps: U32, snipeBps: U32)
    ensures FeesOf(quote, feeBps, snipeBps).net <= quote
    ensures feeBps <= 10_000 && snipeBps <= 10_000 ==>
      var f := FeesOf(quote, feeBps, snipeBps); f.tax + f.proto + f.net == quote
  {
    if feeBps <= 10_000 && snipeBps <= 10_000 {
      var tax := DivRaw(SatMul(quote, snipeBps), BPS);
      FractionShrinks(quote, snipeBps);
      FractionShrinks(quote - tax, feeBps);
    }
  }

  /** The quote charged: all of it when the curve delivers what it can, and otherwise the quote that
      would have bought the delivered tokens. */
  function ChargedQuote(vs: U256, vt: U256, quote: U256, uncapped: U256, tok: U256): U256 {
    if tok < uncapped && tok > 0 then
      var left := SubSatRaw(vt, tok);
      if left == 0 then quote else SubSatRaw(DivRaw(Product(vs, vt), left), vs)
    else quote
  }

  function BuyFraction(tok: U256, uncapped: U256): U32 {
    if uncapped == 0 then 10_000 else ToU32(DivRaw(SatMul(tok, BPS), uncapped), 10_000)
  }

  function BuyStatus(tok: U256, uncapped: U256): Status {
    if tok < uncapped then PartialFill
    else if BuyFraction(tok, uncapped) >= 10_000 then Filled
    else if BuyFraction(tok, uncapped) > 0 then PartialFill
    else NoFill
  }

  function BuySwap(vs: U256, vt: U256, realTok: Option<U256>, quote: U256, feeBps: U32, snipeBps: U32,
                   adverseBps: U32, maxSlipBps: U32, quality: Quality): VenueFill
    requires vs > 0 && vt > 0
  {
    if quote == 0 then Fail(NoFill, quality, ZeroQuote)
    else
      var f := FeesOf(quote, feeBps, snipeBps);
      if f.net == 0 then Fail(RejectedSlippage, quality, FeeTaxConsumedQuote)
      else
        var refPx := Price(vs, vt);
        var uncapped := Forward(vs, vt, f.net);
        var tok := ApplyAdverse(Capped(uncapped, realTok), adverseBps);
        if tok == 0 then Fail(NoFill, quality, ZeroTokenOut)
        else
          var charged := ChargedQuote(vs, vt, quote, uncapped, tok);
          var eff := Price(MaxRaw(charged, f.net), tok);
          var found := ImpactBps(refPx, eff, Buy);
          var imp := if found.Some? then found.value else 0;
          if imp > maxSlipBps then Fail(RejectedSlippage, quality, ImpactAbove(imp, maxSlipBps))
          else
            var frac := BuyFraction(tok, uncapped);
            VenueFill(BuyStatus(tok, uncapped), quality, tok, charged, f.proto, f.tax, refPx, eff, Some(imp),
                      if frac < 10_000 then frac else 10_000, None)
  }

  function SellSwap(vs: U256, vt: U256, realQuote: Option<U256>, tokens: U256, feeBps: U32, snipeBps: U32,
                    adverseBps: U32, maxSlipBps: U32, quality: Quality): VenueFill
    requires vs > 0 && vt > 0
  {
    if tokens == 0 then Fail(NoFill, quality, ZeroToken)
    else
      var refPx := Price(vs, vt);
      var gross := Capped(Backward(vs, vt, tokens), realQuote);
      var proto := DivRaw(SatMul(gross, feeBps), BPS);
      var afterFee := SubSatRaw(gross, proto);
      var tax := DivRaw(SatMul(afterFee, snipeBps), BPS);
      var out := ApplyAdverse(SubSatRaw(afterFee, tax), adverseBps);
      if out == 0 then Fail(NoFill, quality, ZeroQuoteOut)
      else
        var eff := Price(out, tokens);
        var found := ImpactBps(refPx, eff, Sell);
        var imp := if found.Some? then found.value else 0;
        if imp > maxSlipBps then Fail(RejectedSlippage, quality, ImpactAbove(imp, maxSlipBps))
        else VenueFill(Filled, quality, tokens, out, proto, tax, refPx, eff, Some(imp), 10_000, None)
  }

  function CurveSwap(vs: U256, vt: U256, realTok: Option<U256>, realQuote: Option<U256>, side: Side, amount: U256,
                     feeBps: U32, snipeBps: U32, adverseBps: U32, maxSlipBps: U32, quality: Quality): VenueFill {
    if vs == 0 || vt == 0 then Fail(RejectedLiquidity, quality, ZeroVirtualReserve)
    else
      match side
      case Buy => BuySwap(vs, vt, realTok, amount, feeBps, snipeBps, adverseBps, maxSlipBps, quality)
      case Sell => SellSwap(vs, vt, realQuote, amount, feeBps, snipeBps, adverseBps, maxSlipBps, quality)
  }

  /** No fill, nothing moves; a fill always delivers tokens and reports an impact within its limit. */
  ghost predicate FillOrNothing(r: VenueFill, maxSlipBps: U32) {
    if IsFill(r.status) then
      r.token > 0 && r.reason.None? && r.impact.Some? && r.impact.value <= maxSlipBps && r.fraction <= 10_000
    else
      && r.token == 0 && r.quote == 0 && r.protocolFee == 0 && r.snipeTax == 0 && r.fraction == 0
      && r.impact.None? && r.reason.Some?
  }

  lemma WholeFraction(tok: U256)
    requires tok > 0
    ensures 0 < BuyFraction(tok, tok) <= 10_000
    ensures BuyFraction(tok, tok) == 10_000 <==> tok * 10_000 <= U256_MAX
  {
    var p := SatMul(tok, BPS);
    DivAtLeast(p, tok, 1);
    DivAtLeast(p, tok, 10_000);
    DivAtLeast(p, tok, 10_001);
  }

  /** The status after a buy: filled exactly when the curve's whole output was delivered (and its
      ten-thousandfold fits a word); a delivered buy never ends as no fill. */
  lemma BuyStatusMeaning(tok: U256, uncapped: U256)
    requires 0 < tok <= uncapped
    ensures IsFill(BuyStatus(tok, uncapped))
    ensures BuyStatus(tok, uncapped).Filled? <==> tok == uncapped && tok * 10_000 <= U256_MAX
  {
    WholeFraction(tok);
    hide BuyFraction;
  }

  lemma BuyIsFillOrNothing(vs: U256, vt: U256, realTok: Option<U256>, quote: U256, feeBps: U32, snipeBps: U32,
                           adverseBps: U32, maxSlipBps: U32, quality: Quality)
    requires vs > 0 && vt > 0
    ensures FillOrNothing(BuySwap(vs, vt, realTok, quote, feeBps, snipeBps, adverseBps, maxSlipBps, quality),
      maxSlipBps)
  {
    hide DivRaw, SatMul, Forward, Price, ImpactBps, ChargedQuote, BuyFraction, BuyStatus, FeesOf, ApplyAdverse;
    var f := FeesOf(quote, feeBps, snipeBps);
    var uncapped := Forward(vs, vt, f.net);
    var tok := ApplyAdverse(Capped(uncapped, realTok), adverseBps);
    AdverseShrinks(Capped(uncapped, realTok), adverseBps);
    if tok > 0 {
      BuyStatusMeaning(tok, uncapped);
    }
  }

  /** A buy never delivers more than the curve's reserve or a nonzero cap, and never charges more than
      was offered. */
  lemma BuyBounds(vs: U256, vt: U256, realTok: Option<U256>, quote: U256, feeBps: U32, snipeBps: U32,
                  adverseBps: U32, maxSlipBps: U32, quality: Quality)
    requires vs > 0 && vt > 0
    ensures var r := BuySwap(vs, vt, realTok, quote, feeBps, snipeBps, adverseBps, maxSlipBps, quality);
            var f := FeesOf(quote, feeBps, snipeBps);
      && r.token <= Forward(vs, vt, f.net) <= vt
      && (realTok.Some? && realTok.value != 0 ==> r.token <= realTok.value)
      && r.quote <= quote
      && (IsFill(r.status) && r.token < Forward(vs, vt, f.net) ==> r.quote < f.net)
      && (IsFill(r.status) && r.token == Forward(vs, vt, f.net) ==> r.quote == quote)
      && (IsFill(r.status) ==> r.protocolFee == f.proto && r.snipeTax == f.tax)
      && (IsFill(r.status) && adverseBps == 0 ==> r.token == Capped(Forward(vs, vt, f.net), realTok))
  {
    hide DivRaw, SatMul, Price, ImpactBps, ChargedQuote, BuyFraction, BuyStatus, FeesOf, ApplyAdverse, Forward;
    var f := FeesOf(quote, feeBps, snipeBps);
    var uncapped := Forward(vs, vt, f.net);
    var tok := ApplyAdverse(Capped(uncapped, realTok), adverseBps);
    AdverseShrinks(Capped(uncapped, realTok), adverseBps);
    NoAdverse(Capped(uncapped, realTok));
    ForwardIsLeast(vs, vt, f.net, vt);
    FeesConserve(quote, feeBps, snipeBps);
    if f.net > 0 {
      ChargedBounds(vs, vt, quote, f.net, tok);
    }
  }

  lemma ChargedBounds(vs: U256, vt: U256, quote: U256, net: U256, tok: U256)
    requires vs > 0 && 0 < net <= quote
    ensures var uncapped := Forward(vs, vt, net);
      && (0 < tok < uncapped ==> ChargedQuote(vs, vt, quote, uncapped, tok) < net)
      && (tok >= uncapped ==> ChargedQuote(vs, vt, quote, uncapped, tok) == quote)
  {
    var uncapped := Forward(vs, vt, net);
    ForwardIsLeast(vs, vt, net, vt);
    if 0 < tok < uncapped {
      ShortInverse(vs, vt, quote, uncapped, tok, net);
    }
    hide Forward, Product, DivRaw;
  }

  /** For any net quote whose sum with the reserve fits a word: the curve gives no more than `tok` for it
      exactly when it is no more than the quote charged for `tok` — provided the product holds what is
      left; and if the product does not hold it, nothing is charged. */
  lemma ShortInverse(vs: U256, vt: U256, quote: U256, uncapped: U256, tok: U256, a: U256)
    requires vs > 0 && 0 < tok < uncapped <= vt
    ensures var charged := ChargedQuote(vs, vt, quote, uncapped, tok);
      && (vs * (vt - tok) <= Product(vs, vt) && vs + a <= U256_MAX ==> (Forward(vs, vt, a) <= tok <==> a <= charged))
      && (vs * (vt - tok) > Product(vs, vt) ==> charged == 0)
      && (Forward(vs, vt, a) > tok && a > 0 ==> charged < a)
  {
    var k, left := Product(vs, vt), vt - tok;
    var d := DivRaw(k, left);
    hide SatMul, DivRaw, Product, Forward;
    ForwardIsLeast(vs, vt, a, tok);
    DivAtLeast(k, left, vs);
    DivAtLeast(k, left, vs + a);
    DivAtLeast(k, left, AddRaw(vs, a));
    Commutes(vs, left);
    Commutes(vs + a, left);
    Commutes(AddRaw(vs, a), left);
  }

  lemma Commutes(x: int, y: int)
    ensures x * y == y * x
  {
  }

  /** A short fill is charged the largest net quote for which the curve gives no more than was delivered —
      exactly when the stored product, a word, still holds the reserve times the tokens left. */
  lemma ShortFillIsLargest(vs: U256, vt: U256, quote: U256, uncapped: U256, tok: U256)
    requires vs > 0 && 0 < tok < uncapped <= vt
    ensures var charged := ChargedQuote(vs, vt, quote, uncapped, tok);
      (forall a: U256 :: vs + a <= U256_MAX ==> (Forward(vs, vt, a) <= tok <==> a <= charged))
      <==> vs * (vt - tok) <= Product(vs, vt)
    ensures vs * vt <= U256_MAX ==> vs * (vt - tok) <= Product(vs, vt)
  {
    var charged := ChargedQuote(vs, vt, quote, uncapped, tok);
    MulMono(vt - tok, vt, vs);
    hide Forward, ChargedQuote, Product;
    forall a: U256 | vs + a <= U256_MAX && vs * (vt - tok) <= Product(vs, vt)
      ensures Forward(vs, vt, a) <= tok <==> a <= charged
    {
      ShortInverse(vs, vt, quote, uncapped, tok, a);
    }
    ForwardIsLeast(vs, vt, 0, tok);
    Commutes(vs, vt - tok);
    assert AddRaw(vs, 0) == vs;
  }

  /** Reserves so large that the product saturates: a token bought short is charged nothing. */
  lemma SaturatedShortFill()
    ensures var r: U256 := U256_MAX;
      Forward(r, r, 1) > 1 && ChargedQuote(r, r, 1, Forward(r, r, 1), 1) == 0 && Forward(r, r, 0) > 1
  {
    var r: U256 := U256_MAX;
    SquareIsMore(r);
    assert Product(r, r) == AddRaw(r, 1) == AddRaw(r, 0) == r;
    hide SatMul, DivRaw;
    QuotientIs(r, r, 1, 0);
    QuotientIs(r, r - 1, 1, 1);
  }

  lemma SquareIsMore(x: nat)
    ensures x * x >= x
  {
    if x > 0 { MulMono(1, x, x); }
  }

  lemma QuotientIs(a: U256, n: U256, q: nat, r: nat)
    requires a == q * n + r && r < n
    ensures DivRaw(a, n) == q
  {
    hide DivRaw;
    DivAtLeast(a, n, q);
    DivAtLeast(a, n, q + 1);
    assert (q + 1) * n == q * n + n;
  }

  // ---------------------------------------------------------------- selling, and the round trip

  lemma SellBounds(vs: U256, vt: U256, realQuote: Option<U256>, tokens: U256, feeBps: U32, snipeBps: U32,
                   adverseBps: U32, maxSlipBps: U32, quality: Quality)
    requires vs > 0 && vt > 0
    ensures var r := SellSwap(vs, vt, realQuote, tokens, feeBps, snipeBps, adverseBps, maxSlipBps, quality);
      && FillOrNothing(r, maxSlipBps)
      && (IsFill(r.status) ==> r.token == tokens && r.quote > 0)
      && r.quote <= Backward(vs, vt, tokens) <= vs
      && (realQuote.Some? && realQuote.value != 0 ==> r.quote <= realQuote.value)
      && (IsFill(r.status) && feeBps <= 10_000 && snipeBps <= 10_000 ==>
            var gross := Capped(Backward(vs, vt, tokens), realQuote);
            r.quote + r.protocolFee + r.snipeTax <= gross
            && (adverseBps == 0 ==> r.quote + r.protocolFee + r.snipeTax == gross))
  {
    hide DivRaw, SatMul, Price, ImpactBps, ApplyAdverse, Backward;
    BackwardIsLeast(vs, vt, tokens, vs);
    var gross := Capped(Backward(vs, vt, tokens), realQuote);
    var afterFee := SubSatRaw(gross, DivRaw(SatMul(gross, feeBps), BPS));
    if feeBps <= 10_000 && snipeBps <= 10_000 {
      FractionShrinks(gross, feeBps);
      FractionShrinks(afterFee, snipeBps);
    }
    NoAdverse(SubSatRaw(afterFee, DivRaw(SatMul(afterFee, snipeBps), BPS)));
    AdverseShrinks(SubSatRaw(afterFee, DivRaw(SatMul(afterFee, snipeBps), BPS)), adverseBps);
  }

  lemma MulCancel(x: int, y: int, n: nat)
    requires n > 0 && x * n <= y * n
    ensures x <= y
  {
    if y < x { MulMono2(y + 1, x, n); }
  }

  lemma MulMono2(x: int, y: int, n: nat)
    requires x <= y
    ensures x * n <= y * n
  {
  }

  /** The buy's floor leaves at most this much more than the exact output. */
  lemma FloorSlack(vs: nat, vt: nat, a: nat, left: nat)
    requires left <= vt && vs * vt < (left + 1) * (vs + a)
    ensures (vt - left) * (vs + a) <= vt * a + vs + a - 1
  {
    var n := vs + a;
    assert (left + 1) * n == left * n + n;
    assert (vt - left) * n == vt * n - left * n;
    assert vt * n == vt * vs + vt * a;
    Commutes(vt, vs);
  }

  lemma SquareSlack(vs: nat, a: nat)
    requires a < vs
    ensures (vs - a) * (vs + a - 1) <= vs * vs
  {
    MulMono(vs + a - 1, vs + a, vs - a);
    assert (vs - a) * (vs + a) == vs * vs - a * a;
    assert a * a >= 0;
  }

  lemma RoundTripCore(vs: nat, vt: nat, a: nat, tok: nat)
    requires 0 < a < vs && tok * (vs + a) <= vt * a + vs + a - 1
    requires vs * vs <= 2 * (a * a * vt)
    ensures (vs - a) * (vt + tok) <= vs * vt
  {
    var d, n := vs - a, vs + a;
    var slack := vs + a - 1;
    MulMono(tok * n, vt * a + slack, d);
    SquareSlack(vs, a);
    RoundTripExpand(vs, vt, a, slack);
    assert d * (tok * n) == (tok * d) * n by { Regroup(d, tok, n); }
    assert (tok * d) * n <= (a * vt) * n;
    MulCancel(tok * d, a * vt, n);
    RoundTripSplit(vs, vt, a, tok);
  }

  lemma Regroup(d: int, tok: int, n: int)
    ensures d * (tok * n) == (tok * d) * n
  {
  }

  lemma RoundTripSplit(vs: nat, vt: nat, a: nat, tok: nat)
    requires a < vs && tok * (vs - a) <= a * vt
    ensures (vs - a) * (vt + tok) <= vs * vt
  {
    assert (vs - a) * (vt + tok) == (vs - a) * vt + (vs - a) * tok;
    assert (vs - a) * vt == vs * vt - a * vt;
    Commutes(tok, vs - a);
  }

  lemma RoundTripExpand(vs: nat, vt: nat, a: nat, slack: nat)
    requires a < vs && (vs - a) * slack <= 2 * (a * a * vt)
    ensures (vs - a) * (vt * a + slack) <= (a * vt) * (vs + a)
  {
    var d := vs - a;
    assert d * (vt * a + slack) == d * (vt * a) + d * slack;
    assert d * (vt * a) == vs * (vt * a) - a * (vt * a);
    assert (a * vt) * (vs + a) == (a * vt) * vs + (a * vt) * a;
    Regroup(vs, a, vt);
    assert vs * (vt * a) == (a * vt) * vs;
    assert a * (vt * a) == a * a * vt;
    assert (a * vt) * a == a * a * vt;
  }

  lemma RoundTripAtForward(vs: U256, vt: U256, a: U256)
    requires vs > 0 && vt > 0
    ensures Backward(vs, vt, Forward(vs, vt, a)) <= a
       <==> a >= vs || (vs - a) * AddRaw(vt, Forward(vs, vt, a)) <= Product(vs, vt)
  {
    hide Backward, Forward, Product;
    RoundTripExact(vs, vt, a, Forward(vs, vt, a));
  }

  /** The stored product, whether or not it saturated, holds no more whole new reserves than there are tokens. */
  lemma QuotientFits(vs: U256, vt: U256, a: U256)
    requires vs > 0 && vt > 0
    ensures AddRaw(vs, a) > 0 && Product(vs, vt) / AddRaw(vs, a) <= vt
    ensures Forward(vs, vt, a) == vt - Product(vs, vt) / AddRaw(vs, a)
  {
    var k, n := Product(vs, vt), AddRaw(vs, a);
    assert n > 0 && k <= U256_MAX && k <= vs * vt;
    MulMono(vs, n, vt);
    MulMono(1, vt, n);
    assert k <= vt * n by { hide SatMul; if n < vs + a { assert n == U256_MAX; } }
    QuotientBound(k, n, vt);
  }

  lemma QuotientBound(k: nat, n: nat, t: nat)
    requires n > 0 && k <= t * n
    ensures k / n <= t
  {
    var q := k / n;
    assert q * n + k % n == k;
    MulCancel(q, t, n);
  }

  /** What is left of the product by whole new reserves is what the buy's floor gives away. */
  lemma TokensTimesReserve(k: nat, n: nat, vt: nat)
    requires n > 0 && k / n <= vt
    ensures (vt + (vt - k / n)) * n == 2 * vt * n - k + k % n
  {
    assert (k / n) * n + k % n == k;
    assert (vt + (vt - k / n)) * n == 2 * vt * n - (k / n) * n;
  }

  lemma SmallerOf(c: nat, x: nat, y: nat, k: nat)
    ensures c * (if x <= y then x else y) <= k <==> c * x <= k || c * y <= k
  {
    if x <= y { MulMono(x, y, c); } else { MulMono(y, x, c); }
  }

  lemma ScaleBoth(c: nat, x: nat, k: nat, n: nat)
    requires n > 0
    ensures c * x <= k <==> c * (x * n) <= k * n
  {
    assert c * (x * n) == (c * x) * n;
    if c * x <= k { MulMono(c * x, k, n); }
    if c * x > k { MulMono(k + 1, c * x, n); assert (k + 1) * n == k * n + n; }
  }

  lemma CappedSum(c: nat, vt: nat, k: nat, n: nat, most: nat)
    requires n > 0 && k / n <= vt
    ensures var sum := vt + (vt - k / n);
      c * (if sum <= most then sum else most) <= k <==> c * (2 * vt * n - k + k % n) <= k * n || c * most <= k
  {
    var sum := vt + (vt - k / n);
    TokensTimesReserve(k, n, vt);
    SmallerOf(c, sum, most, k);
    ScaleBoth(c, sum, k, n);
  }

  /** Exactly when selling everything a net quote buys returns no more than it, on any reserves: a condition on
      the reserves and the quote alone, with the product and the new reserve as the code stores them. */
  lemma FullRoundTripExact(vs: U256, vt: U256, a: U256)
    requires vs > 0 && vt > 0
    ensures AddRaw(vs, a) > 0
    ensures var k, n := Product(vs, vt), AddRaw(vs, a);
      (Backward(vs, vt, Forward(vs, vt, a)) <= a
       <==> a >= vs || (vs - a) * (2 * vt * n - k + k % n) <= k * n || (vs - a) * U256_MAX <= k)
  {
    hide Backward, Forward, Product;
    RoundTripAtForward(vs, vt, a);
    QuotientFits(vs, vt, a);
    if a < vs {
      CappedSum(vs - a, vt, Product(vs, vt), AddRaw(vs, a), U256_MAX);
    }
  }

  lemma Areas(vs: nat, vt: nat, a: nat, r: nat)
    requires a < vs
    ensures (vs - a) * (2 * vt * (vs + a) - vs * vt + r) <= (vs * vt) * (vs + a) <==> (vs - a) * r <= 2 * (a * a * vt)
  {
    var x, y := vs * vt, a * vt;
    assert 2 * vt * (vs + a) - vs * vt == x + 2 * y;
    assert (vs - a) * (x + 2 * y + r) == (vs - a) * (x + 2 * y) + (vs - a) * r;
    assert (vs - a) * (x + 2 * y) == vs * x + 2 * (vs * y) - a * x - 2 * (a * y);
    assert vs * y == a * x && x * (vs + a) == vs * x + a * x;
    assert a * y == a * a * vt;
  }

  lemma FloorsInAreas(vs: nat, vt: nat, a: nat, k: nat, n: nat)
    requires 0 < n == vs + a && a < vs && k == vs * vt
    ensures (vs - a) * (2 * vt * n - k + k % n) <= k * n <==> (vs - a) * (k % n) <= 2 * (a * a * vt)
  {
    Areas(vs, vt, a, k % n);
  }

  lemma WordIsRoom(c: nat, vt: nat, n: nat, k: nat, most: nat)
    requires n > 0 && 2 * vt <= most
    ensures c * most <= k ==> c * (2 * vt * n - k + k % n) <= k * n
  {
    if c * most <= k {
      var r := k % n;
      assert k == (k / n) * n + r;
      assert r <= k by { MulMono(0, k / n, n); }
      MulMono(2 * vt, most, n);
      var room := 2 * vt * n - k + r;
      Stretch(c, room, most, n, k);
    }
  }

  lemma Stretch(c: nat, room: int, most: nat, n: nat, k: nat)
    requires room <= most * n && c * most <= k
    ensures c * room <= k * n
  {
    MulMono2(room, most * n, c);
    assert c * (most * n) == (c * most) * n;
    MulMono(c * most, k, n);
  }

  /** The same while nothing saturates: what the two floors give away, against twice the area of the quote. */
  lemma RoundTripFits(vs: U256, vt: U256, a: U256)
    requires vs > 0 && vt > 0
    ensures vs * vt <= U256_MAX && vs + a <= U256_MAX && 2 * vt <= U256_MAX ==>
      (Backward(vs, vt, Forward(vs, vt, a)) <= a <==> a >= vs || (vs - a) * ((vs * vt) % (vs + a)) <= 2 * (a * a * vt))
  {
    hide Backward, Forward, Product;
    FullRoundTripExact(vs, vt, a);
    if vs * vt <= U256_MAX && vs + a <= U256_MAX && 2 * vt <= U256_MAX && a < vs {
      ProductFits(vs, vt);
      FloorsInAreas(vs, vt, a, vs * vt, vs + a);
      WordIsRoom(vs - a, vt, vs + a, vs * vt, U256_MAX);
    }
  }

  /** Exactly when selling returns no more than `a`, whatever the reserves. */
  lemma RoundTripExact(vs: U256, vt: U256, a: U256, tok: U256)
    requires vt > 0
    ensures Backward(vs, vt, tok) <= a <==> a >= vs || (vs - a) * AddRaw(vt, tok) <= Product(vs, vt)
  {
    hide Backward, Product;
    BackwardIsLeast(vs, vt, tok, if a >= vs then vs else a);
  }

  /** Selling what `a` bought, or less, returns at most `a`, once the square of the quote reserve is at
      most twice `a` squared times the token reserve: both floors favour the trader. */
  lemma RoundTripWithin(vs: U256, vt: U256, a: U256, tok: U256)
    requires vs > 0 && vt > 0 && a > 0
    ensures vs * vt <= U256_MAX && vs * vs <= 2 * (a * a * vt) && tok <= Forward(vs, vt, a) ==>
      Backward(vs, vt, tok) <= a
  {
    hide Forward, Backward;
    var best := Forward(vs, vt, a);
    if tok <= best {
      BackwardMonotone(vs, vt, tok, best);
    }
    RoundTripExact(vs, vt, a, best);
    if a < vs && vs * vt <= U256_MAX && vs * vs <= 2 * (a * a * vt) {
      if vs + a <= U256_MAX {
        ForwardSlack(vs, vt, a);
        RoundTripCore(vs, vt, a, best);
        MulMono(AddRaw(vt, best), vt + best, vs - a);
      } else {
        OnlyOne(vs, vt, U256_MAX);
        AtMostTwice(vs, a);
        ForwardIsLeast(vs, vt, a, vt);
        ProductFits(vs, vt);
        MulMono(AddRaw(vt, best), 2, vs - a);
      }
    }
  }

  lemma ForwardSlack(vs: U256, vt: U256, a: U256)
    requires vs > 0 && vs * vt <= U256_MAX && vs + a <= U256_MAX
    ensures Forward(vs, vt, a) * (vs + a) <= vt * a + vs + a - 1
  {
    var k, n := Product(vs, vt), vs + a;
    hide DivRaw, SatMul;
    var left := DivRaw(k, n);
    assert k == vs * vt by { ProductFits(vs, vt); }
    DivAtLeast(k, n, left + 1);
    if left <= vt {
      FloorSlack(vs, vt, a, left);
    }
  }

  lemma ProductFits(vs: U256, vt: U256)
    requires vs * vt <= U256_MAX
    ensures Product(vs, vt) == vs * vt
  {
  }

  lemma SquareGrows(x: nat, a: nat)
    requires x > 2 * a
    ensures x * x > 2 * (a * a)
  {
    MulMono(2 * a + 1, x, x);
    MulMono(2 * a + 1, x, 2 * a + 1);
    assert (2 * a + 1) * (2 * a + 1) == 4 * (a * a) + 4 * a + 1;
    assert a * a >= 0;
  }

  lemma OnlyOne(vs: nat, vt: nat, most: nat)
    requires vt > 0 && vs * vt <= most < 2 * vs
    ensures vt == 1
  {
    if vt >= 2 {
      MulMono(2, vt, vs);
    }
  }

  lemma AtMostTwice(vs: nat, a: nat)
    requires vs * vs <= 2 * (a * a * 1)
    ensures vs <= 2 * a
  {
    if vs > 2 * a {
      SquareGrows(vs, a);
    }
  }

  /** Buying and selling everything received, on the same reserves, with any fees, caps and adverse
      movement on either side, returns at most the net quote that bought it. */
  lemma RoundTripNeverGains(vs: U256, vt: U256, realTok: Option<U256>, realQuote: Option<U256>, quote: U256,
                            feeBps: U32, snipeBps: U32, adverseBps: U32, maxSlipBps: U32,
                            sellFee: U32, sellSnipe: U32, sellAdverse: U32, sellSlip: U32, quality: Quality)
    requires vs > 0 && vt > 0
    ensures var bought := CurveSwap(vs, vt, realTok, realQuote, Buy, quote, feeBps, snipeBps, adverseBps, maxSlipBps,
      quality);
            var sold := CurveSwap(vs, vt, realTok, realQuote, Sell, bought.token, sellFee, sellSnipe, sellAdverse,
              sellSlip, quality);
            var net := FeesOf(quote, feeBps, snipeBps).net;
      net <= quote
      && (IsFill(bought.status) && vs * vt <= U256_MAX && vs * vs <= 2 * (net * net * vt) ==> sold.quote <= net)
  {
    hide BuySwap, SellSwap, FeesOf, Forward, Backward, FillOrNothing;
    var net := FeesOf(quote, feeBps, snipeBps).net;
    var bought := BuySwap(vs, vt, realTok, quote, feeBps, snipeBps, adverseBps, maxSlipBps, quality);
    FeesConserve(quote, feeBps, snipeBps);
    BuyBounds(vs, vt, realTok, quote, feeBps, snipeBps, adverseBps, maxSlipBps, quality);
    SellBounds(vs, vt, realQuote, bought.token, sellFee, sellSnipe, sellAdverse, sellSlip, quality);
    if IsFill(bought.status) && vs * vt <= U256_MAX && vs * vs <= 2 * (net * net * vt) {
      assert vs * vs > 0 by { MulMono(1, vs, vs); }
      RoundTripWithin(vs, vt, net, bought.token);
    }
  }

  /** Below that size the two floors can win: one unit buys one token, which sells for twenty-five. */
  lemma RoundTripCanGain()
    ensures CurveSwap(100, 3, None, None, Buy, 1, 0, 0, 0, 10_000, Modelled).token == 1
    ensures CurveSwap(100, 3, None, None, Sell, 1, 0, 0, 0, 10_000, Modelled).quote == 25
  {
    assert FeesOf(1, 0, 0) == BuyFees(0, 0, 1);
    assert Forward(100, 3, 1) == 1 && Backward(100, 3, 1) == 25;
    assert ChargedQuote(100, 3, 1, 1, 1) == 1;
    assert Price(100, 3) == 33_333_333_333_333_333_333;
    assert Price(1, 1) == SCALE && Price(25, 1) == 25_000_000_000_000_000_000;
    assert ImpactBps(Price(100, 3), Price(1, 1), Buy) == Some(0);
    assert ImpactBps(Price(100, 3), Price(25, 1), Sell) == Some(2_499);
    hide DivRaw, SatMul, Price, ImpactBps, FeesOf, Forward, Backward, ChargedQuote;
    assert SatMul(25, 0) == 0 && DivRaw(0, BPS) == 0 by { ZeroRate(); }
  }

  lemma ZeroRate()
    ensures SatMul(25, 0) == 0 && DivRaw(0, BPS) == 0
  {
  }

  // ---------------------------------------------------------------- fees and venues

  datatype FeeModel = FeeModel(pumpCurveProtocol: U32, pumpCurveCreator: U32, pumpSwapLp: U32, ponsCurve: U32,
      ponsSnipeTax: U32, ponsSnipeWindow: int)

  function DefaultFees(): FeeModel {
    FeeModel(100, 0, 25, 100, 9_900, 1_000)
  }

  /** Two configured rates whose sum is itself a rate. */
  predicate FeesFit(f: FeeModel) {
    f.pumpCurveProtocol + f.pumpCurveCreator <= U32_MAX
  }

  function ProtocolBps(f: FeeModel, pad: Launchpad, stage: Stage): U32
    requires FeesFit(f)
  {
    match pad
    case PumpFun => f.pumpCurveProtocol + f.pumpCurveCreator
    case PumpSwap => f.pumpSwapLp
    case PonsV2 => if stage.AmmActive? then f.pumpSwapLp else f.ponsCurve
    case ClankerV4 => 0
    case UnknownPad => 0
  }

  function SnipeTaxBps(f: FeeModel, pad: Launchpad, age: int, force: bool): U32 {
    if pad.PonsV2? && (force || age < f.ponsSnipeWindow) then f.ponsSnipeTax else 0
  }

  datatype MarketQuality = Complete | Partial | Unseen

  datatype Market =
    | BondingCurve(vs: Option<U256>, vt: Option<U256>, realQuote: Option<U256>, realToken: Option<U256>,
        quality: MarketQuality)
    | ConstantProduct(vs: Option<U256>, vt: Option<U256>, quality: MarketQuality)
    | UniswapV4
    | NoMarket

  /** What execution reads of a token snapshot. */
  datatype View = View(time: int, age: int, launchpad: Launchpad, stage: Stage, market: Market,
                       lastQuote: Option<U256>, lastToken: Option<U256>)

  predicate KnownReserves(m: Market) {
    (m.BondingCurve? || m.ConstantProduct?) && m.vs.Some? && m.vt.Some? && m.vs.value > 0 && m.vt.value > 0
  }

  function ExecutableFill(v: View, side: Side, amount: U256, fees: FeeModel, adverseBps: U32, maxSlipBps: U32,
                          forceSnipe: bool): VenueFill
    requires FeesFit(fees)
  {
    if v.stage.GraduationGap? || v.stage.LaunchSweptStage?
      then Fail(TemporarilyUnavailable, Modelled, PonsGraduationGap)
    else if (v.stage.Inactive? || v.stage.Migrating?) && side.Sell?
      then Fail(RejectedLiquidity, Modelled, MarketNotSellable)
    else
      var snipe := SnipeTaxBps(fees, v.launchpad, v.age, forceSnipe);
      var m := v.market;
      match m
      case BondingCurve(_, _, _, _, _) =>
        if !KnownReserves(m) then Fail(UnavailableMarketState, NonResearchValid, UnknownCurveReserves)
        else if m.quality.Unseen? then Fail(UnavailableMarketState, NonResearchValid, UnknownCurveQuality)
        else
          CurveSwap(m.vs.value, m.vt.value, m.realToken, m.realQuote, side, amount,
                    ProtocolBps(fees, v.launchpad, v.stage), snipe, adverseBps, maxSlipBps,
                    if m.quality.Complete? then Exact else Modelled)
      case ConstantProduct(_, _, _) =>
        if !KnownReserves(m) then Fail(UnavailableMarketState, NonResearchValid, UnknownCpReserves)
        else if m.quality.Unseen? then Fail(UnavailableMarketState, NonResearchValid, UnknownCpQuality)
        else
          CurveSwap(m.vs.value, m.vt.value, m.vt, m.vs, side, amount,
                    ProtocolBps(fees, if v.launchpad.PumpFun? then PumpSwap else v.launchpad, v.stage),
                    snipe, adverseBps, maxSlipBps, if m.quality.Complete? then Exact else PartialState)
      case UniswapV4 => Fail(UnavailableMarketState, PartialState, NoUniswapV4Model)
      case NoMarket => Fail(UnavailableMarketState, NonResearchValid, UnknownLiquidity)
  }

  function SpotPrice(v: View): Option<U256> {
    if v.market.BondingCurve? || v.market.ConstantProduct? then
      if v.market.vs.Some? && v.market.vt.Some? then Some(Price(v.market.vs.value, v.market.vt.value)) else None
    else if v.lastQuote.Some? && v.lastToken.Some? && v.lastToken.value != 0 then
      Some(Price(v.lastQuote.value, v.lastToken.value))
    else None
  }

  /** What selling these tokens now would return. */
  function MarkExitQuote(v: View, tokens: U256, fees: FeeModel): Option<U256>
    requires FeesFit(fees)
  {
    var fill := ExecutableFill(v, Sell, tokens, fees, 0, U32_MAX, false);
    if IsFill(fill.status) then Some(fill.quote) else None
  }

  /** Every venue answer is a fill within its limits or nothing at all; a fill needs known reserves of
      known quality, a sell fills whole, and a buy never charges more than offered. */
  lemma VenueFillsAreHonest(v: View, side: Side, amount: U256, fees: FeeModel, adverseBps: U32, maxSlipBps: U32,
      forceSnipe: bool)
    requires FeesFit(fees)
    ensures var r := ExecutableFill(v, side, amount, fees, adverseBps, maxSlipBps, forceSnipe);
      && FillOrNothing(r, maxSlipBps)
      && (IsFill(r.status) ==>
            && KnownReserves(v.market) && !v.market.quality.Unseen? && !r.quality.NonResearchValid?
            && !v.stage.GraduationGap? && !v.stage.LaunchSweptStage?
            && (if side.Buy? then r.quote <= amount && r.token <= v.market.vt.value
                else r.token == amount && 0 < r.quote <= v.market.vs.value))
  {
    hide BuySwap, SellSwap, ProtocolBps, SnipeTaxBps;
    if KnownReserves(v.market) {
      SwapIsHonest(v.market.vs.value, v.market.vt.value, side, amount, adverseBps, maxSlipBps);
    }
  }

  lemma SwapIsHonest(vs: U256, vt: U256, side: Side, amount: U256, adverseBps: U32, maxSlipBps: U32)
    requires vs > 0 && vt > 0
    ensures forall realTok, realQuote, feeBps, snipeBps, quality ::
      var r := CurveSwap(vs, vt, realTok, realQuote, side, amount, feeBps, snipeBps, adverseBps, maxSlipBps, quality);
      && FillOrNothing(r, maxSlipBps) && r.quality == quality
      && (IsFill(r.status) ==>
         if side.Buy? then r.quote <= amount && r.token <= vt else r.token == amount && 0 < r.quote <= vs)
  {
    hide DivRaw, SatMul, Price, ImpactBps, ChargedQuote, BuyFraction, BuyStatus, FeesOf, ApplyAdverse, Forward,
      Backward;
    forall realTok, realQuote, feeBps, snipeBps, quality
      ensures var r := CurveSwap(vs, vt, realTok, realQuote, side, amount, feeBps, snipeBps, adverseBps, maxSlipBps,
        quality);
        && FillOrNothing(r, maxSlipBps) && r.quality == quality
        && (IsFill(r.status) ==>
           if side.Buy? then r.quote <= amount && r.token <= vt else r.token == amount && 0 < r.quote <= vs)
    {
      if side.Buy? {
        BuyIsFillOrNothing(vs, vt, realTok, amount, feeBps, snipeBps, adverseBps, maxSlipBps, quality);
        BuyBounds(vs, vt, realTok, amount, feeBps, snipeBps, adverseBps, maxSlipBps, quality);
      } else {
        SellBounds(vs, vt, realQuote, amount, feeBps, snipeBps, adverseBps, maxSlipBps, quality);
      }
    }
  }

  // ---------------------------------------------------------------- the largest order within an impact

  function ProbeFill(vs: U256, vt: U256, amount: U256): VenueFill {
    CurveSwap(vs, vt, None, None, Buy, amount, DefaultFees().pumpCurveProtocol, 0, 0, U32_MAX, Modelled)
  }

  predicate Accepts(vs: U256, vt: U256, amount: U256, limit: U32) {
    var r := ProbeFill(vs, vt, amount);
    IsFill(r.status) && (if r.impact.Some? then r.impact.value else U32_MAX) <= limit
  }

  /** Nothing between `best` and `reach` is known, but beyond `reach` is the bound or a rejection. */
  ghost predicate Reach(vs: U256, vt: U256, limit: U32, bound: U256, best: U256, reach: U256) {
    best <= reach <= bound && reach - best <= bound / WORD && (reach == bound || !Accepts(vs, vt, reach + 1, limit))
  }

  function Halved(x: nat, times: nat): nat {
    if times == 0 then x else Halved(x, times - 1) / 2
  }

  function TwoTo(n: nat): nat {
    if n == 0 then 1 else 2 * TwoTo(n - 1)
  }

  lemma {:induction false} HalvedIsShift(x: nat, times: nat)
    ensures TwoTo(times) > 0 && Halved(x, times) == x / TwoTo(times)
  {
    if times > 0 {
      HalvedIsShift(x, times - 1);
      HalfOfFloor(x, TwoTo(times - 1));
    }
  }

  lemma HalfOfFloor(x: nat, p: nat)
    requires p > 0
    ensures (x / p) / 2 == x / (2 * p)
  {
    var q := x / p;
    var h := q / 2;
    assert x == p * q + x % p;
    assert q == 2 * h + q % 2;
    var r := p * (q % 2) + x % p;
    assert p * q == p * (2 * h) + p * (q % 2);
    assert p * (2 * h) == (2 * p) * h;
    assert 0 <= r < 2 * p by { if q % 2 == 0 { assert p * 0 == 0; } else { assert p * 1 == p; } }
    FloorIs(x, 2 * p, h, r);
  }

  lemma FloorIs(x: nat, n: nat, q: nat, r: nat)
    requires x == n * q + r && r < n
    ensures x / n == q
  {
    var d := x / n;
    assert x == n * d + x % n;
    if d < q { MulMono(d + 1, q, n); }
    if q < d { MulMono(q + 1, d, n); }
  }

  lemma SixtyFour()
    ensures TwoTo(64) == WORD
  {
    assert TwoTo(8) == 256;
    assert TwoTo(16) == 0x1_0000;
    assert TwoTo(24) == 0x100_0000;
    assert TwoTo(32) == 0x1_0000_0000;
    assert TwoTo(40) == 0x100_0000_0000;
    assert TwoTo(48) == 0x1_0000_0000_0000;
    assert TwoTo(56) == 0x100_0000_0000_0000;
  }

  /** At most 64 probes: `best` is accepted (or zero), and some `reach`, at most a 2^64-th of the first
      bound beyond it, is that bound itself or has its next integer rejected. So when the bound is below
      2^64 the answer is exact at its boundary, and no answer means one was rejected; nothing is assumed
      about how acceptance varies with the amount. */
  method MaxQuoteAtImpact(m: Market, limit: U32) returns (r: Option<U256>)
    ensures r.Some? ==> KnownReserves(m) && r.value > 0 && Accepts(m.vs.value, m.vt.value, r.value, limit)
    ensures KnownReserves(m) ==>
      var bound := if m.vs.value / 2 == 0 then m.vs.value else m.vs.value / 2;
      var best := if r.Some? then r.value else 0;
      best <= bound
      && (bound < WORD ==> best == bound || !Accepts(m.vs.value, m.vt.value, best + 1, limit))
      && exists reach: U256 :: Reach(m.vs.value, m.vt.value, limit, bound, best, reach)
  {
    hide Accepts, Halved, TwoTo, CurveSwap;
    if !KnownReserves(m) {
      return None;
    }
    var vs, vt := m.vs.value, m.vt.value;
    var lo: U256, hi: U256, best: U256 := 1, vs / 2, 0;
    if hi == 0 {
      hi := vs;
    }
    var bound := hi;
    HalvedStart(bound);
    var i := 0;
    while i < 64 && lo <= hi
      invariant 0 <= i <= 64 && 1 <= lo <= hi + 1 && hi <= bound && best == lo - 1
      invariant best > 0 ==> Accepts(vs, vt, best, limit)
      invariant hi == bound || !Accepts(vs, vt, hi + 1, limit)
      invariant hi + 1 - lo <= Halved(bound, i)
    {
      var mid := lo + (hi - lo) / 2;
      HalvedStep(bound, i);
      var fill := ProbeFill(vs, vt, mid);
      var ok := IsFill(fill.status) && (if fill.impact.Some? then fill.impact.value else U32_MAX) <= limit;
      assert ok == Accepts(vs, vt, mid, limit) by { AcceptsMeans(vs, vt, mid, limit); }
      if ok {
        best := mid;
        lo := mid + 1;
      } else {
        if mid == 0 {
          break;
        }
        hi := mid - 1;
      }
      i := i + 1;
    }
    Closed(bound, i, hi + 1 - lo);
    assert Reach(vs, vt, limit, bound, best, hi);
    r := if best == 0 then None else Some(best);
  }

  lemma AcceptsMeans(vs: U256, vt: U256, amount: U256, limit: U32)
    ensures var r := ProbeFill(vs, vt, amount);
      Accepts(vs, vt, amount, limit)
        == (IsFill(r.status) && (if r.impact.Some? then r.impact.value else U32_MAX) <= limit)
  {
    hide ProbeFill;
  }

  lemma HalvedStart(x: nat)
    ensures Halved(x, 0) == x
  {
  }

  lemma HalvedStep(x: nat, i: nat)
    ensures Halved(x, i + 1) == Halved(x, i) / 2
  {
  }

  lemma Closed(bound: nat, i: nat, width: int)
    requires i == 64 || width <= 0
    requires width <= Halved(bound, i)
    ensures width <= bound / WORD && bound / WORD >= 0 && (bound < WORD ==> width <= 0)
  {
    if i == 64 {
      HalvedIsShift(bound, 64);
      SixtyFour();
    }
    hide Halved;
  }
}
