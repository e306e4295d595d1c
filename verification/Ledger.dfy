/** The exits of one position, and its realized profit computed in two ways: one floor per exit, as the
    position stores it, and one floor over the total, as reconciliation recomputes it. */
module Ledger {
  import opened Amounts
  import opened Impact

  datatype Exit = Exit(sold: U256, received: U256)

  function Sold(exits: seq<Exit>): nat {
    if exits == [] then 0 else Sold(exits[..|exits| - 1]) + exits[|exits| - 1].sold
  }

  function Received(exits: seq<Exit>): nat {
    if exits == [] then 0 else Received(exits[..|exits| - 1]) + exits[|exits| - 1].received
  }

  /** The share of the cost carried by the tokens sold, rounded down. */
  function SoldCost(cost: U256, initial: U256, sold: U256): U256 {
    if initial == 0 then 0 else DivRaw(SatMul(cost, sold), initial)
  }

  function Difference(received: U256, cost: U256): Signed {
    if received >= cost then Signed(false, received - cost) else Signed(true, cost - received)
  }

  /** Profit as stored: each exit's own floor, added up. */
  function StoredPnl(cost: U256, initial: U256, exits: seq<Exit>): Signed {
    if exits == [] then Signed(false, 0)
    else
      var last := exits[|exits| - 1];
      SignedAdd(StoredPnl(cost, initial, exits[..|exits| - 1]),
                Difference(last.received, SoldCost(cost, initial, last.sold)))
  }

  /** Profit as reconciled: one floor over everything sold. */
  function RealizedPnlFromFills(entryToken: U256, entryQuote: U256, sold: U256, exitQuote: U256): Signed {
    if entryToken == 0 then Signed(false, 0)
    else Difference(exitQuote, SoldCost(entryQuote, entryToken, sold))
  }

  lemma ExitsAppend(cost: U256, initial: U256, exits: seq<Exit>, e: Exit)
    ensures Sold(exits + [e]) == Sold(exits) + e.sold
    ensures Received(exits + [e]) == Received(exits) + e.received
    ensures StoredPnl(cost, initial, exits + [e])
         == SignedAdd(StoredPnl(cost, initial, exits), Difference(e.received, SoldCost(cost, initial, e.sold)))
  {
    assert (exits + [e])[..|exits|] == exits;
  }

  /** No run of exits from zero ever stores a negative zero. */
  lemma {:induction false} StoredIsCanonical(cost: U256, initial: U256, exits: seq<Exit>)
    ensures Canonical(StoredPnl(cost, initial, exits))
  {
    hide SoldCost;
    if exits != [] {
      var front, last := exits[..|exits| - 1], exits[|exits| - 1];
      StoredIsCanonical(cost, initial, front);
      SignedAddIsAddition(StoredPnl(cost, initial, front),
        Difference(last.received, SoldCost(cost, initial, last.sold)));
    }
  }

  // ---------------------------------------------------------------- what each way rounds off

  function Floors(cost: U256, initial: U256, exits: seq<Exit>): nat {
    if exits == [] then 0
    else Floors(cost, initial, exits[..|exits| - 1]) + SoldCost(cost, initial, exits[|exits| - 1].sold)
  }

  /** What the per-exit floors leave behind, in units of cost times tokens. */
  function LeftBehind(cost: U256, initial: U256, exits: seq<Exit>): nat
    requires initial > 0
  {
    if exits == [] then 0
    else LeftBehind(cost, initial, exits[..|exits| - 1]) + (cost * exits[|exits| - 1].sold) % initial
  }

  /** Amounts small enough that nothing saturates, and no more sold than bought. */
  ghost predicate InBounds(cost: U256, initial: U256, exits: seq<Exit>) {
    initial > 0 && cost * initial <= U256_MAX && Sold(exits) <= initial && Received(exits) <= U256_MAX
  }

  lemma InBoundsFront(cost: U256, initial: U256, exits: seq<Exit>)
    requires InBounds(cost, initial, exits) && exits != []
    ensures InBounds(cost, initial, exits[..|exits| - 1]) && exits[|exits| - 1].sold <= initial
  {
  }

  lemma SoldCostIs(cost: U256, initial: U256, sold: U256)
    requires initial > 0 && cost * initial <= U256_MAX && sold <= initial
    ensures cost * sold == initial * SoldCost(cost, initial, sold) + (cost * sold) % initial
    ensures 0 <= (cost * sold) % initial < initial && SoldCost(cost, initial, sold) <= cost
  {
    MulMono(sold, initial, cost);
    var p := cost * sold;
    assert SatMul(cost, sold) == p;
    FloorParts(p, initial);
    DivAtLeast(p, initial, cost + 1);
    Commutes(cost, initial);
    assert (cost + 1) * initial == cost * initial + initial;
  }

  lemma FloorParts(p: nat, n: nat)
    requires n > 0
    ensures p == n * (p / n) + p % n && 0 <= p % n < n
  {
  }

  /** The per-exit floors and what they leave behind add up to the whole cost share. */
  lemma {:induction false} FloorsSplit(cost: U256, initial: U256, exits: seq<Exit>)
    requires InBounds(cost, initial, exits)
    ensures cost * Sold(exits) == initial * Floors(cost, initial, exits) + LeftBehind(cost, initial, exits)
    ensures LeftBehind(cost, initial, exits) <= |exits| * (initial - 1)
  {
    hide SoldCost;
    if exits != [] {
      var front, last := exits[..|exits| - 1], exits[|exits| - 1];
      InBoundsFront(cost, initial, exits);
      FloorsSplit(cost, initial, front);
      SoldCostIs(cost, initial, last.sold);
      Distribute(cost, Sold(front), last.sold);
      Distribute(initial, Floors(cost, initial, front), SoldCost(cost, initial, last.sold));
      Distribute(initial - 1, |front|, 1);
    }
  }

  lemma Distribute(x: int, y: int, z: int)
    ensures x * (y + z) == x * y + x * z
    ensures (y + z) * x == y * x + z * x
  {
  }

  lemma FloorsWithinCost(cost: U256, initial: U256, exits: seq<Exit>)
    requires InBounds(cost, initial, exits)
    ensures Floors(cost, initial, exits) <= cost
  {
    FloorsSplit(cost, initial, exits);
    var f := Floors(cost, initial, exits);
    MulMono(Sold(exits), initial, cost);
    Commutes(cost, initial);
    Commutes(initial, f);
    MulCancel(f, cost, initial);
  }

  lemma {:induction false} StoredDenotes(cost: U256, initial: U256, exits: seq<Exit>)
    requires InBounds(cost, initial, exits)
    ensures Denote(StoredPnl(cost, initial, exits)) == Received(exits) - Floors(cost, initial, exits)
  {
    hide SoldCost;
    if exits != [] {
      var front, last := exits[..|exits| - 1], exits[|exits| - 1];
      InBoundsFront(cost, initial, exits);
      StoredDenotes(cost, initial, front);
      FloorsWithinCost(cost, initial, exits);
      SignedAddIsAddition(StoredPnl(cost, initial, front),
        Difference(last.received, SoldCost(cost, initial, last.sold)));
    }
  }

  lemma FloorOfSum(n: nat, a: nat, b: nat)
    requires n > 0
    ensures (n * a + b) / n == a + b / n
  {
    FloorParts(b, n);
    Distribute(n, a, b / n);
    FloorIs(n * a + b, n, a + b / n, b % n);
  }

  /** The stored profit exceeds the reconciled profit by exactly the whole units the per-exit floors left
      behind: never negative, and less than the number of exits. */
  lemma DriftExact(cost: U256, initial: U256, exits: seq<Exit>)
    requires InBounds(cost, initial, exits)
    ensures var stored := StoredPnl(cost, initial, exits);
            var reconciled := RealizedPnlFromFills(initial, cost, Sold(exits), Received(exits));
            var drift := Denote(stored) - Denote(reconciled);
      && drift == LeftBehind(cost, initial, exits) / initial
      && 0 <= drift && (if exits == [] then drift == 0 else drift <= |exits| - 1)
      && (stored == reconciled <==> LeftBehind(cost, initial, exits) < initial)
  {
    hide StoredPnl, SoldCost, Floors, LeftBehind, Sold, Received, SignedAdd;
    var left, floors, n := LeftBehind(cost, initial, exits), Floors(cost, initial, exits), |exits|;
    FloorsSplit(cost, initial, exits);
    StoredDenotes(cost, initial, exits);
    StoredIsCanonical(cost, initial, exits);
    TotalFloor(cost, initial, Sold(exits), floors, left);
    CanonicalEquality(StoredPnl(cost, initial, exits),
      RealizedPnlFromFills(initial, cost, Sold(exits), Received(exits)));
    DriftRange(left, initial, n);
  }

  lemma TotalFloor(cost: U256, initial: U256, sold: nat, floors: nat, left: nat)
    requires initial > 0 && cost * initial <= U256_MAX && sold <= initial
    requires cost * sold == initial * floors + left
    ensures SoldCost(cost, initial, sold) == floors + left / initial
  {
    MulMono(sold, initial, cost);
    FloorOfSum(initial, floors, left);
  }

  lemma DriftRange(left: nat, initial: nat, n: nat)
    requires initial > 0 && left <= n * (initial - 1)
    ensures 0 <= left / initial && (n == 0 ==> left / initial == 0) && (n > 0 ==> left / initial <= n - 1)
    ensures left / initial == 0 <==> left < initial
  {
    FloorParts(left, initial);
    var q := left / initial;
    if n > 0 && q >= n {
      MulMono(n, q, initial);
      Distribute(n, initial - 1, 1);
    }
    if q == 0 { assert initial * 0 == 0; }
    if q >= 1 { MulMono(1, q, initial); }
  }

  function Singles(n: nat): seq<Exit> {
    if n == 0 then [] else Singles(n - 1) + [Exit(1, 0)]
  }

  /** The bound is reached for every number of exits. */
  lemma {:induction false} DriftIsTight(n: U256)
    requires 0 < n < 0x1_0000_0000
    ensures |Singles(n)| == n && InBounds(n - 1, n, Singles(n))
    ensures Denote(StoredPnl(n - 1, n, Singles(n)))
         == Denote(RealizedPnlFromFills(n, n - 1, Sold(Singles(n)), Received(Singles(n)))) + (n - 1)
  {
    SinglesAre(n, n);
    MulMono(n - 1, 0x1_0000_0000, n);
    DriftExact(n - 1, n, Singles(n));
    FloorIs(n * (n - 1), n, n - 1, 0);
  }

  lemma OneUnitLeaves(n: nat)
    requires n > 0
    ensures ((n - 1) * 1) % n == n - 1
  {
    FloorIs(n - 1, n, 0, n - 1);
    FloorParts(n - 1, n);
  }

  lemma LeftAppend(cost: U256, initial: U256, exits: seq<Exit>, e: Exit)
    requires initial > 0
    ensures LeftBehind(cost, initial, exits + [e]) == LeftBehind(cost, initial, exits) + (cost * e.sold) % initial
  {
    assert (exits + [e])[..|exits|] == exits;
  }

  lemma SinglesStep(m: nat)
    ensures Singles(m + 1) == Singles(m) + [Exit(1, 0)]
  {
  }

  lemma {:induction false} SinglesAre(m: nat, n: U256)
    requires n > 0
    ensures |Singles(m)| == m && Sold(Singles(m)) == m && Received(Singles(m)) == 0
    ensures LeftBehind(n - 1, n, Singles(m)) == m * (n - 1)
  {
    if m > 0 {
      hide Sold, Received, LeftBehind, StoredPnl, Singles;
      var front := Singles(m - 1);
      SinglesAre(m - 1, n);
      SinglesStep(m - 1);
      ExitsAppend(0, 0, front, Exit(1, 0));
      LeftOne(n, front);
      Distribute(n - 1, m - 1, 1);
    }
  }

  /** Selling one token for a cost of one less than the inventory leaves that much behind. */
  lemma LeftOne(n: U256, front: seq<Exit>)
    requires n > 0
    ensures LeftBehind(n - 1, n, front + [Exit(1, 0)]) == LeftBehind(n - 1, n, front) + (n - 1)
  {
    hide LeftBehind;
    LeftAppend(n - 1, n, front, Exit(1, 0));
    OneUnitLeaves(n);
  }
}
