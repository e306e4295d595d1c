/** Chains, token keys, canonical events, and the deterministic order events are applied in. */
module Domain {
  import opened Amounts

  /** Logical milliseconds, within what a calendar date can express. */
  const TIME_LIMIT: int := 0x20_0000_0000_0000

  type Time = x: int | -TIME_LIMIT < x < TIME_LIMIT

  datatype Chain = Solana | Base | Robinhood {
    function AsStr(): string {
      match this
      case Solana => "solana"
      case Base => "base"
      case Robinhood => "robinhood"
    }

    static function Parse(v: string): Option<Chain> {
      if v == "solana" then Some(Solana)
      else if v == "base" then Some(Base)
      else if v == "robinhood" then Some(Robinhood)
      else None
    }
  }

  // ---------------------------------------------------------------- token keys

  predicate IsWhitespace(c: char) {
    || '\U{9}' <= c <= '\U{d}' || c == ' ' || c == '\U{85}' || c == '\U{a0}' || c == '\U{1680}'
    || '\U{2000}' <= c <= '\U{200a}' || c == '\U{2028}' || c == '\U{2029}' || c == '\U{202f}'
    || c == '\U{205f}' || c == '\U{3000}'
  }

  function TrimStart(s: string): string {
    if s != "" && IsWhitespace(s[0]) then TrimStart(s[1..]) else s
  }

  function TrimEnd(s: string): string {
    if s != "" && IsWhitespace(s[|s| - 1]) then TrimEnd(s[..|s| - 1]) else s
  }

  function Lower(s: string): string {
    seq(|s|, i requires 0 <= i < |s| => if 'A' <= s[i] <= 'Z' then s[i] - 'A' + 'a' else s[i])
  }

  function StripHexPrefix(s: string): string {
    if |s| >= 2 && s[0] == '0' && (s[1] == 'x' || s[1] == 'X') then s[2..] else s
  }

  function NormalizeAddress(v: string): string {
    "0x" + Lower(StripHexPrefix(TrimEnd(TrimStart(v))))
  }

  datatype TokenKey = TokenKey(chain: Chain, token: string)

  function AddrKey(chain: Chain, value: string): string {
    if chain.Solana? then value else NormalizeAddress(value)
  }

  function NewKey(chain: Chain, token: string): TokenKey {
    TokenKey(chain, AddrKey(chain, token))
  }

  /** A key that building again leaves alone. */
  predicate NormalKey(k: TokenKey) {
    k.token != "" && NewKey(k.chain, k.token) == k
  }

  lemma TrimEndFacts(s: string)
    ensures var r := TrimEnd(s);
      && |r| <= |s| && r == s[..|r|] && (r != "" ==> !IsWhitespace(r[|r| - 1]))
  {
  }

  /** Normalising an address twice is normalising it once, so a key rebuilt from its own text is
      the same key: without this, a trade that creates its token would look it up under another key. */
  lemma NewKeyIsNormal(chain: Chain, token: string)
    requires token != ""
    ensures NormalKey(NewKey(chain, token))
  {
    if !chain.Solana? {
      var t := TrimEnd(TrimStart(token));
      var body := Lower(StripHexPrefix(t));
      var n := "0x" + body;
      assert NormalizeAddress(token) == n;
      TrimEndFacts(TrimStart(token));
      assert TrimStart(n) == n;
      assert TrimEnd(n) == n by {
        if body != "" {
          assert n[|n| - 1] == body[|body| - 1];
          assert StripHexPrefix(t)[|body| - 1] == t[|t| - 1];
        }
      }
      assert StripHexPrefix(n) == body;
      assert Lower(body) == body;
    }
  }

  // ---------------------------------------------------------------- events

  datatype Launchpad = PumpFun | PumpSwap | PonsV2 | ClankerV4 | UnknownPad

  datatype LifecycleType =
    | TokenCreated | MigrationStarted | Migrated | CurveCompleted
    | LaunchSwept | PoolCreated | PoolGraduated | SnipeTaxCharged

  /** Where on its chain an event happened; every part may be absent. */
  datatype Origin = Origin(
    block: Option<nat>, slot: Option<nat>, transactionIndex: Option<nat>,
    logIndex: Option<nat>, instructionIndex: Option<nat>, innerIndex: Option<nat>)

  /** Which reserves a trade's metadata carries. */
  datatype MarketHint = VirtualReserves | SqrtPrice | NoReserves

  datatype Event =
    | Discovered(chain: Chain, token: string, launchpad: Launchpad, creator: string,
                 curve: Option<string>, pool: Option<string>, time: Time, origin: Origin, id: string)
    | Trade(chain: Chain, token: string, launchpad: Launchpad, trader: string, isBuy: bool,
            base: U256, quote: U256, hint: MarketHint,
            curve: Option<string>, pool: Option<string>, time: Time, origin: Origin, id: string)
    | Lifecycle(chain: Chain, token: string, launchpad: Launchpad, kind: LifecycleType,
                curve: Option<string>, pool: Option<string>, time: Time, origin: Origin, id: string)

  /** The key of an event that names its token. */
  function KeyOf(e: Event): Option<TokenKey> {
    if e.token == "" then None else Some(NewKey(e.chain, e.token))
  }

  // ---------------------------------------------------------------- the order

  datatype StateOrder = StateOrder(
    chain: Chain, blockOrSlot: nat, transactionIndex: nat, logOrIx: nat, inner: nat, eventIndex: nat, eventId: string)

  function OrElse(a: Option<nat>, b: Option<nat>): nat {
    match a
    case Some(x) => x
    case None => match b { case Some(y) => y case None => 0 }
  }

  function FromCanonical(e: Event): StateOrder {
    var o := e.origin;
    StateOrder(
      e.chain,
      OrElse(o.block, o.slot),
      if e.Discovered? then 0 else OrElse(o.transactionIndex, None),
      OrElse(o.logIndex, o.instructionIndex),
      match o.innerIndex { case Some(v) => v + 1 case None => 0 },
      0,
      e.id)
  }

  function TextLess(a: string, b: string): bool {
    if b == "" then false
    else if a == "" then true
    else if a[0] != b[0] then a[0] < b[0]
    else TextLess(a[1..], b[1..])
  }

  lemma {:induction false} TextOrder(a: string, b: string, c: string)
    ensures !TextLess(a, a)
    ensures TextLess(a, b) || TextLess(b, a) || a == b
    ensures TextLess(a, b) && TextLess(b, c) ==> TextLess(a, c)
  {
    if a != "" {
      var b' := if b == "" then "" else b[1..];
      var c' := if c == "" then "" else c[1..];
      TextOrder(a[1..], b', c');
      if b != "" && a[0] == b[0] && a[1..] == b[1..] {
        assert a == [a[0]] + a[1..] && b == [b[0]] + b[1..];
      }
    }
  }

  function Less(a: StateOrder, b: StateOrder): bool {
    if a.chain != b.chain then TextLess(a.chain.AsStr(), b.chain.AsStr())
    else if a.blockOrSlot != b.blockOrSlot then a.blockOrSlot < b.blockOrSlot
    else if a.transactionIndex != b.transactionIndex then a.transactionIndex < b.transactionIndex
    else if a.logOrIx != b.logOrIx then a.logOrIx < b.logOrIx
    else if a.inner != b.inner then a.inner < b.inner
    else if a.eventIndex != b.eventIndex then a.eventIndex < b.eventIndex
    else TextLess(a.eventId, b.eventId)
  }

  lemma ChainOrder(a: Chain, b: Chain)
    ensures TextLess(a.AsStr(), b.AsStr()) <==> (a.Base? && !b.Base?) || (a.Robinhood? && b.Solana?)
  {
    if a == b {
      TextOrder(a.AsStr(), a.AsStr(), a.AsStr());
    } else {
      assert a.AsStr()[0] == (if a.Base? then 'b' else if a.Robinhood? then 'r' else 's');
      assert b.AsStr()[0] == (if b.Base? then 'b' else if b.Robinhood? then 'r' else 's');
    }
  }

  /** The event order is a strict total order, decided by the event id only when all positions tie. */
  lemma OrderIsTotal(a: StateOrder, b: StateOrder, c: StateOrder)
    ensures !Less(a, a)
    ensures Less(a, b) || Less(b, a) || a == b
    ensures Less(a, b) && Less(b, c) ==> Less(a, c)
  {
    hide TextLess;
    TextOrder(a.eventId, b.eventId, c.eventId);
    ChainOrder(a.chain, b.chain);
    ChainOrder(b.chain, a.chain);
    ChainOrder(b.chain, c.chain);
    ChainOrder(a.chain, c.chain);
  }

  // ---------------------------------------------------------------- sorting events

  predicate InOrder(s: seq<Event>) {
    forall i, j :: 0 <= i < j < |s| ==> !Less(FromCanonical(s[j]), FromCanonical(s[i]))
  }

  function InsertEvent(e: Event, s: seq<Event>): seq<Event> {
    if s == [] || !Less(FromCanonical(s[0]), FromCanonical(e)) then [e] + s
    else [s[0]] + InsertEvent(e, s[1..])
  }

  /** The library's stable sort by event order. */
  function SortEvents(s: seq<Event>): seq<Event> {
    if s == [] then [] else InsertEvent(s[0], SortEvents(s[1..]))
  }

  lemma {:induction false} InsertEventKeeps(e: Event, s: seq<Event>)
    requires InOrder(s)
    ensures multiset(InsertEvent(e, s)) == multiset(s) + multiset{e}
    ensures InOrder(InsertEvent(e, s))
    ensures forall x :: x in InsertEvent(e, s) <==> x == e || x in s
  {
    hide Less, FromCanonical;
    if s == [] || !Less(FromCanonical(s[0]), FromCanonical(e)) {
      var r := [e] + s;
      forall j | 0 < j < |r| ensures !Less(FromCanonical(r[j]), FromCanonical(e)) {
        OrderIsTotal(FromCanonical(s[0]), FromCanonical(r[j]), FromCanonical(e));
        OrderIsTotal(FromCanonical(r[j]), FromCanonical(e), FromCanonical(s[0]));
      }
    } else {
      InsertEventKeeps(e, s[1..]);
      assert s == [s[0]] + s[1..];
      var rest := InsertEvent(e, s[1..]);
      OrderIsTotal(FromCanonical(s[0]), FromCanonical(e), FromCanonical(s[0]));
      forall j | 0 <= j < |rest| ensures !Less(FromCanonical(rest[j]), FromCanonical(s[0])) {
        assert rest[j] in rest;
      }
    }
  }

  lemma {:induction false} SortEventsFacts(s: seq<Event>)
    ensures InOrder(SortEvents(s)) && multiset(SortEvents(s)) == multiset(s)
    ensures forall x :: x in SortEvents(s) <==> x in s
  {
    if s != [] {
      SortEventsFacts(s[1..]);
      InsertEventKeeps(s[0], SortEvents(s[1..]));
      assert s == [s[0]] + s[1..];
    }
  }
}
