/** Exact integer amounts: 256-bit words with saturating arithmetic, and signed results. */
module Amounts {
  function PowerOfTwo(n: nat): (r: nat)
    ensures r > n
  {
    if n == 0 then 1 else 2 * PowerOfTwo(n - 1)
  }

  lemma {:induction false} PowersMultiply(m: nat, n: nat)
    ensures PowerOfTwo(m + n) == Times(PowerOfTwo(m), PowerOfTwo(n))
  {
    hide Times;
    if n == 0 {
      TimesOne(PowerOfTwo(m));
    } else {
      PowersMultiply(m, n - 1);
      TimesTwo(PowerOfTwo(m), PowerOfTwo(n - 1));
    }
  }

  function Times(x: nat, y: nat): nat {
    x * y
  }

  lemma TimesOne(x: nat)
    ensures Times(x, 1) == x
  {
  }

  lemma TimesTwo(x: nat, y: nat)
    ensures Times(x, 2 * y) == 2 * Times(x, y)
  {
  }

  /** The bits of a limb. */
  const LIMB: nat := 64

  const LARGE: nat := 0x1_0000_0000_0000_0000_0000_0000_0000_0000

  /** The largest word of four limbs. Little is ever needed of it but that it is large. */
  function LargestWord(): (r: nat)
    ensures r >= LARGE
  {
    LargestIsLarge();
    PowerOfTwo(4 * LIMB) - 1
  }

  lemma LargestIsLarge()
    ensures PowerOfTwo(4 * LIMB) > LARGE
  {
    Bytes();
    hide PowerOfTwo;
    Squared(8, 0x100, 0x1_0000);
    Squared(16, 0x1_0000, 0x1_0000_0000);
    Squared(32, 0x1_0000_0000, 0x1_0000_0000_0000_0000);
    Squared(64, 0x1_0000_0000_0000_0000, LARGE);
    Squared(128, LARGE, LARGE * LARGE);
  }

  lemma Bytes()
    ensures PowerOfTwo(8) == 0x100
  {
  }

  lemma Squared(n: nat, x: nat, y: nat)
    requires PowerOfTwo(n) == x && y == x * x
    ensures PowerOfTwo(2 * n) == y
  {
    hide PowerOfTwo;
    PowersMultiply(n, n);
    assert 2 * n == n + n;
  }

  const U256_MAX: int := LargestWord()

  type U256 = x: int | 0 <= x <= U256_MAX

  datatype Option<+T> = None | Some(value: T)

  function Clamp(x: nat): U256 {
    if x <= U256_MAX then x else U256_MAX
  }

  function AddRaw(a: U256, b: U256): U256 {
    Clamp(a + b)
  }

  function SubSatRaw(a: U256, b: U256): U256 {
    if a >= b then a - b else 0
  }

  function SatMul(a: U256, b: U256): U256 {
    Clamp(a * b)
  }

  function MinRaw(a: U256, b: U256): U256 {
    if a <= b then a else b
  }

  function MaxRaw(a: U256, b: U256): U256 {
    if a >= b then a else b
  }

  /** A printed signed amount: sign and magnitude, as the engine's parser reads it back. */
  datatype Signed = Signed(neg: bool, mag: U256)

  function Denote(s: Signed): int {
    if s.neg then 0 - s.mag else s.mag
  }

  /** No "-0": with it, comparing sign and magnitude would not be comparing integers. */
  predicate Canonical(s: Signed) {
    s.neg ==> s.mag > 0
  }

  function NetSigned(buy: U256, sell: U256): Signed {
    if buy >= sell then Signed(false, buy - sell) else Signed(true, sell - buy)
  }

  function SignedAdd(a: Signed, b: Signed): Signed {
    match (a.neg, b.neg)
    case (false, false) => Signed(false, AddRaw(a.mag, b.mag))
    case (true, true) => Signed(true, AddRaw(a.mag, b.mag))
    case (false, true) =>
      if a.mag >= b.mag then Signed(false, SubSatRaw(a.mag, b.mag)) else Signed(true, SubSatRaw(b.mag, a.mag))
    case (true, false) =>
      if b.mag >= a.mag then Signed(false, SubSatRaw(b.mag, a.mag)) else Signed(true, SubSatRaw(a.mag, b.mag))
  }

  /** `SignedAdd` is addition of the denoted integers exactly when the sum fits in a signed word,
      and it never introduces a negative zero. */
  lemma SignedAddIsAddition(a: Signed, b: Signed)
    ensures Denote(SignedAdd(a, b)) == Denote(a) + Denote(b)
       <==> -U256_MAX <= Denote(a) + Denote(b) <= U256_MAX
    ensures Canonical(a) && Canonical(b) ==> Canonical(SignedAdd(a, b))
  {
    var s := SignedAdd(a, b);
    assert -U256_MAX <= Denote(s) <= U256_MAX;
  }

  /** On canonical values, sign-and-magnitude equality is integer equality. */
  lemma CanonicalEquality(a: Signed, b: Signed)
    requires Canonical(a) && Canonical(b)
    ensures a == b <==> Denote(a) == Denote(b)
  {
    if Denote(a) == Denote(b) {
      assert a.neg == b.neg && a.mag == b.mag;
    }
  }

  // ---------------------------------------------------------------- sorting and the median

  predicate Sorted(s: seq<int>) {
    forall i, j :: 0 <= i < j < |s| ==> s[i] <= s[j]
  }

  function Insert(x: int, s: seq<int>): seq<int> {
    if s == [] || x <= s[0] then [x] + s else [s[0]] + Insert(x, s[1..])
  }

  /** The standard library's slice sort, as insertion sort. */
  function Sort(s: seq<int>): seq<int> {
    if s == [] then [] else Insert(s[0], Sort(s[1..]))
  }

  lemma Uncons(s: seq<int>)
    requires s != []
    ensures s == [s[0]] + s[1..]
    ensures multiset(s) == multiset{s[0]} + multiset(s[1..])
  {
    assert s == [s[0]] + s[1..];
  }

  lemma {:induction false} InsertBag(x: int, s: seq<int>)
    ensures multiset(Insert(x, s)) == multiset(s) + multiset{x}
  {
    if s != [] && x > s[0] {
      InsertBag(x, s[1..]);
      Uncons(s);
    }
  }

  lemma ConsSorted(x: int, s: seq<int>)
    requires Sorted(s) && (s != [] ==> x <= s[0])
    ensures Sorted([x] + s)
  {
  }

  lemma {:induction false} InsertSorted(x: int, s: seq<int>)
    requires Sorted(s)
    ensures Sorted(Insert(x, s))
  {
    if s == [] || x <= s[0] {
      ConsSorted(x, s);
    } else {
      InsertSorted(x, s[1..]);
      ConsSorted(s[0], Insert(x, s[1..]));
    }
  }

  /** The result is sorted and holds the same values, with the same multiplicities. */
  lemma {:induction false} SortFacts(s: seq<int>)
    ensures Sorted(Sort(s)) && multiset(Sort(s)) == multiset(s) && |Sort(s)| == |s|
  {
    if s != [] {
      SortFacts(s[1..]);
      InsertBag(s[0], Sort(s[1..]));
      InsertSorted(s[0], Sort(s[1..]));
      Uncons(s);
    }
    assert |multiset(Sort(s))| == |Sort(s)| && |multiset(s)| == |s|;
  }

  lemma SameMembers(a: seq<int>, b: seq<int>)
    requires multiset(a) == multiset(b)
    ensures forall x :: x in a <==> x in b
  {
    forall x ensures x in a <==> x in b {
      assert x in a <==> x in multiset(a);
      assert x in b <==> x in multiset(b);
    }
  }

  lemma TailBag(s: seq<int>)
    requires s != []
    ensures multiset(s[1..]) == multiset(s) - multiset{s[0]}
  {
    Uncons(s);
  }

  lemma {:induction false} SortedUnique(a: seq<int>, b: seq<int>)
    requires Sorted(a) && Sorted(b) && multiset(a) == multiset(b)
    ensures a == b
  {
    assert |a| == |b| by { assert |multiset(a)| == |a| && |multiset(b)| == |b|; }
    if a != [] {
      assert a[0] == b[0] by {
        SameMembers(a, b);
        assert a[0] in a && b[0] in b;
      }
      TailBag(a);
      TailBag(b);
      SortedUnique(a[1..], b[1..]);
      Uncons(a);
      Uncons(b);
    }
  }

  /** Middle element, or the floored midpoint of the two middle elements. */
  function Middle(s: seq<int>): (r: int)
    requires s != [] && Sorted(s)
    ensures s[0] <= r <= s[|s| - 1]
  {
    var mid := |s| / 2;
    if |s| % 2 == 1 then s[mid]
    else s[mid - 1] + (s[mid] - s[mid - 1]) / 2
  }

  function MedianRaw(values: seq<U256>): Option<U256> {
    if values == [] then None
    else
      SortFacts(values);
      SameMembers(Sort(values), values);
      var s := Sort(values);
      assert s[0] in s && s[|s| - 1] in s;
      Some(Middle(s))
  }

  /** The median does not depend on the order the trades arrived in. */
  lemma MedianIgnoresOrder(a: seq<U256>, b: seq<U256>)
    requires multiset(a) == multiset(b)
    ensures MedianRaw(a) == MedianRaw(b)
  {
    SortFacts(a);
    SortFacts(b);
    SortedUnique(Sort(a), Sort(b));
  }
}
