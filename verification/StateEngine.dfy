/** The event-sourced engine: applies ordered events to tokens, parks trades whose token is unknown,
    marks tokens of late events for rebuild, and emits due snapshots. */
module StateEngine {
  import opened Amounts
  import opened Schedule
  import opened Domain
  import opened Rolling
  import opened TokenBooks
  import opened EngineBooks

  const REORDER_LIMIT: nat := 64

  /** A schedule whose ages and steps are calendar-sized, so that due times of calendar times are safe. */
  predicate Modest(s: SnapshotSchedule) {
    forall b :: b in s.bands ==> 0 < b.every < TIME_LIMIT && -TIME_LIMIT < b.fromAge < TIME_LIMIT
  }

  lemma ModestIsSafe(s: SnapshotSchedule, discovered: Time, from: I64, until: Time)
    requires Modest(s) && -TIME_LIMIT < from < TIME_LIMIT
    ensures Safe(s, discovered, from, until)
  {
    forall b | b in s.bands ensures BandSafe(b, discovered, from, until) {
      var start := Saturate(discovered + b.fromAge);
      if start <= from {
        DivisionBounds(from - start, b.every);
      }
    }
  }

  lemma DefaultIsModest()
    ensures Modest(DefaultSchedule())
  {
  }

  /** The i-th due time comes right after the one before it. */
  lemma DueGap(sched: SnapshotSchedule, d: Time, from: I64, until: Time, i: nat)
    requires i < |DueSeq(sched, d, from, until)|
    ensures var due := DueSeq(sched, d, from, until);
      && (if i == 0 then from else due[i - 1]) < due[i] <= until && IsDue(sched, d, due[i])
      && forall t :: (if i == 0 then from else due[i - 1]) < t < due[i] ==> !IsDue(sched, d, t)
  {
    var due := DueSeq(sched, d, from, until);
    DueSeqMembers(sched, d, from, until);
    assert due[i] in due;
    if i > 0 { assert due[i - 1] in due; }
    forall t | (if i == 0 then from else due[i - 1]) < t < due[i] ensures t !in due {
      assert forall j :: 0 <= j < |due| ==> due[j] != t;
    }
  }

  lemma DueTail(sched: SnapshotSchedule, d: Time, from: I64, until: Time)
    ensures var due := DueSeq(sched, d, from, until);
      forall t :: (if due == [] then from else due[|due| - 1]) < t <= until ==> !IsDue(sched, d, t)
  {
    var due := DueSeq(sched, d, from, until);
    DueSeqMembers(sched, d, from, until);
    if due != [] { assert due[|due| - 1] in due; }
    forall t | (if due == [] then from else due[|due| - 1]) < t <= until ensures t !in due {
      assert forall j :: 0 <= j < |due| ==> due[j] != t;
    }
  }

  function Later(a: Time, b: Time): Time {
    if a >= b then a else b
  }

  function TriggerOf(kind: LifecycleType): string {
    match kind
    case TokenCreated => "TOKEN_CREATED"
    case MigrationStarted => "MIGRATION_STARTED"
    case Migrated => "MIGRATED"
    case CurveCompleted => "CURVE_COMPLETED"
    case LaunchSwept => "LAUNCH_SWEPT"
    case PoolCreated => "POOL_CREATED"
    case PoolGraduated => "POOL_GRADUATED"
    case SnipeTaxCharged => "SNIPE_TAX_CHARGED"
  }

  /** What a repeated discovery still fills in. */
  function Rediscovered(st: TokenState, tok: Event): TokenState
    requires tok.Discovered?
  {
    st.(creator := if st.creator == "" then tok.creator else st.creator,
        curve := if st.curve.None? then tok.curve else st.curve,
        pool := if st.pool.None? then tok.pool else st.pool,
        stage := if tok.launchpad.ClankerV4? then AmmActive else st.stage)
  }

  /** The token after a lifecycle event. */
  function WithLifecycle(st: TokenState, e: Event): TokenState
    requires e.Lifecycle?
  {
    var st1 := st.(curve := if e.curve.Some? then e.curve else st.curve, pool := if e.pool.Some? then e.pool
      else st.pool);
    match e.kind
    case TokenCreated => if st.launchpad.ClankerV4? then st1.(stage := AmmActive) else st1
    case MigrationStarted => st1.(stage := Migrating)
    case Migrated => st1.(stage := Migrating)
    case CurveCompleted => st1.(stage := Migrating)
    case LaunchSwept => st1.(stage := GraduationGap)
    case PoolCreated =>
      if st.launchpad.PumpFun? || st.launchpad.PumpSwap? then st1.(stage := AmmActive, launchpad := PumpSwap) else st1
    case PoolGraduated => st1.(stage := AmmActive)
    case SnipeTaxCharged => st1
  }

  lemma WithLifecycleSame(st: TokenState, e: Event)
    requires e.Lifecycle?
    ensures SameBooks(WithLifecycle(st, e), st)
  {
  }

  /** Forgetting a token keeps everyone's books. */
  lemma BooksForget(sched: SnapshotSchedule, k: TokenKey, b: BookSet)
    requires BooksOk(sched, b.tokens, b.life, b.ledger, b.history)
    ensures BooksOk(sched, b.tokens - {k}, b.life, b.ledger, b.history)
    ensures Only(k, b, b.(tokens := b.tokens - {k}))
    ensures Current(k, b.(tokens := b.tokens - {k})) == []
  {
    hide LifeKept, StateKept, EntryOk;
  }

  lemma IndexForget(parked: seq<Event>, byCurve: Index, byPool: Index, k: TokenKey)
    requires IndexOk(byCurve) && IndexOk(byPool) && NoneStuck(parked, byCurve, byPool)
    ensures IndexOk(Without(byCurve, k)) && IndexOk(Without(byPool, k))
    ensures NoneStuck(parked, Without(byCurve, k), Without(byPool, k))
  {
    hide NormalKey, AddrKey;
    forall i | 0 <= i < |parked| ensures Resolve(Without(byCurve, k), Without(byPool, k), parked[i]).None? {
      assert Resolve(byCurve, byPool, parked[i]).None?;
    }
  }

  function Without(m: Index, k: TokenKey): Index {
    map p | p in m && m[p] != k :: m[p]
  }

  lemma BooksBounds(sched: SnapshotSchedule, b: BookSet)
    requires BooksOk(sched, b.tokens, b.life, b.ledger, b.history)
    ensures forall k :: k in b.life ==> b.life[k].from <= |b.ledger| && b.life[k].born <= |b.history|
    ensures b.tokens.Keys <= b.life.Keys
  {
    hide LifeOk, StateKept, EntryOk;
    forall k | k in b.life ensures b.life[k].from <= |b.ledger| && b.life[k].born <= |b.history| {
      assert LifeKept(sched, k, b.life[k], b.ledger, b.history);
    }
  }

  lemma LeastExists(s: set<StateOrder>)
    requires s != {}
    ensures exists o :: o in s && forall p :: p in s ==> !Less(p, o)
  {
    hide Less;
    var x :| x in s;
    var rest := s - {x};
    assert s == rest + {x};
    if rest == {} {
      OrderIsTotal(x, x, x);
      assert x in s && forall p :: p in s ==> p == x;
    } else {
      LeastExists(rest);
      var y :| y in rest && forall p :: p in rest ==> !Less(p, y);
      var o := if Less(x, y) then x else y;
      forall p | p in s ensures !Less(p, o) {
        OrderIsTotal(p, x, y);
        OrderIsTotal(p, x, p);
        OrderIsTotal(x, y, p);
        OrderIsTotal(x, x, x);
        assert p == x || p in rest;
      }
      assert o in s;
    }
  }

  lemma ParkKeepsNoneStuck(parked: seq<Event>, byCurve: Index, byPool: Index, e: Event)
    requires NoneStuck(parked, byCurve, byPool) && e.Trade? && Resolve(byCurve, byPool, e).None?
    ensures NoneStuck(parked + [e], byCurve, byPool)
  {
  }

  lemma IdentityTrans(a: TokenState, b: TokenState, c: TokenState)
    requires SameIdentity(a, b) && SameIdentity(b, c)
    ensures SameIdentity(a, c)
  {
  }

  lemma RediscoveredSame(st: TokenState, tok: Event)
    requires tok.Discovered?
    ensures SameBooks(Rediscovered(st, tok), st)
  {
  }

  datatype BookSet = BookSet(tokens: map<TokenKey, TokenState>, life: map<TokenKey, Life>, ledger: seq<Entry>,
    history: seq<Snapshot>)

  /** Nothing but `k`'s state changed, and the logs only grew, and only by trades and snapshots of `k`. */
  ghost predicate Only(k: TokenKey, a: BookSet, b: BookSet) {
    && (forall j :: j != k ==> (j in b.tokens <==> j in a.tokens) && (j in b.life <==> j in a.life))
    && (forall j :: j != k && j in a.tokens && j in b.tokens ==> b.tokens[j] == a.tokens[j])
    && (forall j :: j != k && j in a.life && j in b.life ==> b.life[j] == a.life[j])
    && a.ledger <= b.ledger && a.history <= b.history
    && (forall i :: |a.ledger| <= i < |b.ledger| ==> b.ledger[i].key == k)
    && (forall i :: |a.history| <= i < |b.history| ==> b.history[i].key == k)
  }

  lemma OnlyTrans(k: TokenKey, a: BookSet, b: BookSet, c: BookSet)
    requires Only(k, a, b) && Only(k, b, c)
    ensures Only(k, a, c)
  {
  }

  lemma OnlyGrows(k: TokenKey, a: BookSet, b: BookSet)
    requires Only(k, a, b)
    ensures a.history <= b.history && a.ledger <= b.ledger
  {
  }

  lemma OnlyNothing(k: TokenKey, a: BookSet, b: BookSet)
    requires a.tokens == b.tokens && a.life == b.life && a.ledger == b.ledger && a.history == b.history
    ensures Only(k, a, b)
  {
  }

  lemma OnlyUpdate(k: TokenKey, a: BookSet, b: BookSet, st: TokenState, l: Life)
    requires b.tokens == a.tokens[k := st] && (b.life == a.life[k := l] || b.life == a.life)
    requires a.history <= b.history && forall i :: |a.history| <= i < |b.history| ==> b.history[i].key == k
    requires b.ledger == a.ledger || exists e: Entry :: e.key == k && b.ledger == a.ledger + [e]
    ensures Only(k, a, b)
  {
  }

  lemma BagStep(x: multiset<Event>, x': multiset<Event>, t: Event, r: multiset<Event>, r': multiset<Event>)
    requires x' == x + multiset{t} && r == multiset{t} + r'
    ensures x' + r' == x + r
  {
  }

  lemma FirstParked(k: TokenKey, parked: seq<Event>, byCurve: Index, byPool: Index)
    requires OnlyFor(k, parked, byCurve, byPool) && parked != []
    ensures Parkable(parked[0])
    ensures Resolve(byCurve, byPool, parked[0]).None? || Resolve(byCurve, byPool, parked[0]) == Some(k)
    ensures OnlyFor(k, parked[1..], byCurve, byPool)
    ensures multiset(parked) == multiset{parked[0]} + multiset(parked[1..])
  {
    assert parked == [parked[0]] + parked[1..];
    hide Resolve;
  }

  /** With nothing parked, applying an event to a token adds at most the event's own trade to the
      ledger, and begins a life only if the token was not in memory. */
  ghost predicate Joined(k: TokenKey, t: Time, trade: bool, a: BookSet, b: BookSet) {
    && (if trade then |b.ledger| == |a.ledger| + 1 else b.ledger == a.ledger)
    && k in b.life && k in b.tokens
    && (k !in a.tokens ==> b.life[k] == Life(t, t, |a.ledger|, |a.history|, true, None))
    && (k in a.tokens ==>
         && k in a.life
         && b.life[k] == (if trade then a.life[k].(ordered := a.life[k].ordered && t == a.life[k].latest)
            else a.life[k]))
  }

  lemma JoinedThenTraded(k: TokenKey, t: Time, a: BookSet, m: BookSet, b: BookSet)
    requires Joined(k, t, false, a, m) && k in b.tokens
    requires b.life == m.life[k := m.life[k].(ordered := m.life[k].ordered && t == m.life[k].latest)]
    requires |b.ledger| == |m.ledger| + 1
    ensures Joined(k, t, true, a, b)
  {
  }

  /** Asking a token for its due snapshots. */
  ghost predicate Asked(k: TokenKey, t: Time, a: BookSet, b: BookSet) {
    && b.tokens.Keys == a.tokens.Keys && b.ledger == a.ledger
    && (k !in a.tokens ==> b.life == a.life && b.history == a.history)
    && (k in a.tokens ==> k in a.life && b.life == a.life[k := a.life[k].(latest := Later(a.life[k].latest, t))])
  }

  /** The whole effect of an event that names its token when nothing is parked: a trade keeps its token
      in order exactly when its time is not before the latest time already asked for. */
  ghost predicate Folded(k: TokenKey, e: Event, a: BookSet, b: BookSet) {
    && k in b.tokens && k in b.life
    && (if e.Trade? then |b.ledger| == |a.ledger| + 1 && b.ledger[|a.ledger|].trade == e else b.ledger == a.ledger)
    && (k !in a.tokens ==> b.life[k] == Life(e.time, e.time, |a.ledger|, |a.history|, true, None))
    && (k in a.tokens ==>
         && k in a.life
         && b.life[k] == a.life[k].(
              latest := Later(a.life[k].latest, e.time),
              ordered := a.life[k].ordered && (e.Trade? ==> e.time >= a.life[k].latest)))
  }

  /** The token's stay in memory goes on, or began at the end of the ledger as it was. */
  ghost predicate StaysOn(k: TokenKey, a: BookSet, b: BookSet) {
    k in b.tokens && k in b.life
      && b.life[k].from == if k in a.tokens && k in a.life then a.life[k].from else |a.ledger|
  }

  /** What applying an event about `r` does to the books, and to the trades parked. */
  ghost predicate Applies(r: Option<TokenKey>, e: Event, nothingParked: bool, a: BookSet, b: BookSet,
      parked: seq<Event>) {
    if r.None? then b == a
    else
      var k := r.value;
      && Only(k, a, b)
      && (e.Trade? || e.token != "" ==> k in b.tokens && StaysOn(k, a, b))
      && (nothingParked && k in b.tokens ==> parked == [] && Folded(k, e, a, b))
  }

  /** An event that names its token is about that token. */
  lemma AppliesToItsKey(byCurve: Index, byPool: Index, e: Event, nothingParked: bool, a: BookSet, b: BookSet,
      parked: seq<Event>)
    requires KeyOf(e).Some? && Applies(Target(byCurve, byPool, e), e, nothingParked, a, b, parked)
    ensures var k := KeyOf(e).value;
      && k in b.tokens && Only(k, a, b) && StaysOn(k, a, b)
      && (nothingParked ==> parked == [] && Folded(k, e, a, b))
  {
    hide Only, StaysOn, Folded, NewKey;
    TargetIsKey(byCurve, byPool, e);
  }

  lemma StaysOnTrans(k: TokenKey, a: BookSet, b: BookSet, c: BookSet)
    requires StaysOn(k, a, b) && StaysOn(k, b, c)
    ensures StaysOn(k, a, c)
  {
  }

  lemma {:induction false} TailTrades(k: TokenKey, ledger: seq<Entry>, from: nat)
    requires from <= |ledger| && forall i :: from <= i < |ledger| ==> ledger[i].key == k
    ensures TradesIn(ledger, from, k) == Trades(ledger)[from..]
  {
    if |ledger| > from {
      TailTrades(k, ledger[..|ledger| - 1], from);
    }
  }

  /** What a stay that has just begun holds, and what is parked, is what was parked and what was brought. */
  lemma BegunBag(k: TokenKey, a: BookSet, b: BookSet, parked: seq<Event>, parked': seq<Event>, trades: multiset<Event>)
    requires Only(k, a, b) && StaysOn(k, a, b) && k !in a.tokens
    requires multiset(Trades(b.ledger)) + multiset(parked') == multiset(Trades(a.ledger)) + multiset(parked) + trades
    ensures multiset(Current(k, b)) + multiset(parked') == multiset(parked) + trades
  {
    var from := |a.ledger|;
    TailTrades(k, b.ledger, from);
    var tail := Trades(b.ledger)[from..];
    assert Trades(b.ledger) == Trades(a.ledger) + tail;
    hide Only, Trades, TradesIn;
    Cancel(multiset(Trades(a.ledger)), multiset(tail), multiset(parked'), multiset(parked), trades);
  }

  lemma Cancel(x: multiset<Event>, a: multiset<Event>, b: multiset<Event>, c: multiset<Event>, d: multiset<Event>)
    requires x + a + b == x + c + d
    ensures a + b == c + d
  {
    forall e ensures (a + b)[e] == (c + d)[e] {
      assert (x + a + b)[e] == (x + c + d)[e];
    }
  }

  /** The trades folded into a token during its current stay in memory, in the order of folding. */
  ghost function Current(k: TokenKey, b: BookSet): seq<Event> {
    if k in b.tokens && k in b.life then TradesIn(b.ledger, b.life[k].from, k) else []
  }

  function TradesOnly(s: seq<Event>): seq<Event> {
    if s == [] then [] else TradesOnly(s[..|s| - 1]) + if s[|s| - 1].Trade? then [s[|s| - 1]] else []
  }

  lemma FoldedCurrent(k: TokenKey, e: Event, a: BookSet, b: BookSet)
    requires Folded(k, e, a, b) && Only(k, a, b)
    requires k in a.life && k in a.tokens ==> a.life[k].from <= |a.ledger|
    ensures Current(k, b) == Current(k, a) + if e.Trade? then [e] else []
  {
    if e.Trade? {
      var entry := b.ledger[|a.ledger|];
      assert b.ledger == a.ledger + [entry] && entry.key == k;
      LedgerAppend(a.ledger, b.life[k].from, k, entry);
    }
  }

  lemma {:induction false} TradesOfOthers(k: TokenKey, j: TokenKey, short: seq<Entry>, long: seq<Entry>, from: nat)
    requires j != k && short <= long && from <= |short|
    requires forall i :: |short| <= i < |long| ==> long[i].key == k
    ensures TradesIn(long, from, j) == TradesIn(short, from, j)
  {
    if |short| < |long| {
      TradesOfOthers(k, j, short, long[..|long| - 1], from);
    } else {
      assert short == long;
    }
  }

  lemma OnlyCurrent(k: TokenKey, j: TokenKey, a: BookSet, b: BookSet)
    requires Only(k, a, b) && j != k && (j in a.life ==> a.life[j].from <= |a.ledger|)
    ensures Current(j, b) == Current(j, a)
  {
    if j in a.life {
      TradesOfOthers(k, j, a.ledger, b.ledger, a.life[j].from);
    }
  }

  lemma FoldedStays(k: TokenKey, e: Event, a: BookSet, b: BookSet)
    requires Folded(k, e, a, b)
    ensures k in b.tokens
  {
  }

  lemma SortedLength(s: seq<Event>)
    ensures |SortEvents(s)| == |s|
  {
    SortEventsFacts(s);
    assert |multiset(SortEvents(s))| == |SortEvents(s)| && |multiset(s)| == |s|;
  }

  lemma SortedStep(events: seq<Event>, i: nat, key: TokenKey)
    requires i < |SortEvents(events)| && forall j :: 0 <= j < |events| ==> KeyOf(events[j]) == Some(key)
    ensures KeyOf(SortEvents(events)[i]) == Some(key)
    ensures i > 0 ==> !Less(FromCanonical(SortEvents(events)[i]), FromCanonical(SortEvents(events)[i - 1]))
  {
    hide Less, FromCanonical, KeyOf, SortEvents;
    SortEventsFacts(events);
    assert SortEvents(events)[i] in events;
  }

  function TradesUpTo(s: seq<Event>, i: nat): seq<Event>
    requires i <= |s|
  {
    TradesOnly(s[..i])
  }

  lemma TradesUpToEnds(s: seq<Event>)
    ensures TradesUpTo(s, 0) == [] && TradesUpTo(s, |s|) == TradesOnly(s)
  {
    assert s[..|s|] == s;
  }

  lemma TradesUpToStep(s: seq<Event>, i: nat)
    requires i < |s|
    ensures TradesUpTo(s, i + 1) == TradesUpTo(s, i) + if s[i].Trade? then [s[i]] else []
  {
    assert s[..i + 1][..i] == s[..i];
  }

  /** One tick, for one token: due snapshots up to `until`, then eviction at the cold age. */
  ghost predicate Ticked(k: TokenKey, until: Time, memory: MemoryPolicy, a: BookSet, b: BookSet) {
    && k in a.life && k in b.life
    && b.life[k] == a.life[k].(latest := Later(a.life[k].latest, until), warmAfter := b.life[k].warmAfter)
    && (b.life[k].warmAfter == a.life[k].warmAfter
        || (b.life[k].warmAfter == Some(b.life[k].latest) && Saturate(until - a.life[k].discovered) >= memory.hot))
    && (k in b.tokens <==> Saturate(until - a.life[k].discovered) < memory.cold)
  }

  /** Every token has ticked, except those in `todo`, which are as they were. */
  ghost predicate TickedAllBut(todo: set<TokenKey>, until: Time, memory: MemoryPolicy, a: BookSet, b: BookSet) {
    && todo <= a.tokens.Keys <= a.life.Keys
    && (forall i :: |a.history| <= i < |b.history| ==> b.history[i].key in a.tokens)
    && b.ledger == a.ledger && a.history <= b.history && b.tokens.Keys <= a.tokens.Keys && b.life.Keys == a.life.Keys
    && (forall k :: k in a.tokens && k !in todo ==> Ticked(k, until, memory, a, b))
    && (forall k :: k in a.life && (k in todo || k !in a.tokens) ==> b.life[k] == a.life[k])
    && (forall k :: k in todo ==> k in b.tokens)
  }

  lemma TickOneMore(todo: set<TokenKey>, k: TokenKey, until: Time, memory: MemoryPolicy, a: BookSet, m: BookSet,
      b: BookSet)
    requires TickedAllBut(todo, until, memory, a, m) && k in todo
    requires Only(k, m, b) && Ticked(k, until, memory, m, b) && b.ledger == m.ledger
    ensures TickedAllBut(todo - {k}, until, memory, a, b)
  {
    forall j | j in a.tokens && j !in todo - {k} ensures Ticked(j, until, memory, a, b) {
      if j != k { assert Ticked(j, until, memory, a, m); }
    }
    assert b.life.Keys == a.life.Keys by {
      forall j ensures j in b.life <==> j in a.life {
        assert j != k ==> (j in b.life <==> j in m.life);
      }
    }
    forall j | j in b.tokens ensures j in a.tokens {
      assert j != k ==> j in m.tokens;
    }
  }

  lemma StillThere(todo: set<TokenKey>, k: TokenKey, until: Time, memory: MemoryPolicy, a: BookSet, b: BookSet)
    requires TickedAllBut(todo, until, memory, a, b) && k in todo
    ensures k in b.tokens
  {
  }

  lemma TickedNothing(until: Time, memory: MemoryPolicy, a: BookSet)
    requires a.tokens.Keys <= a.life.Keys
    ensures TickedAllBut(a.tokens.Keys, until, memory, a, a)
  {
  }

  lemma AskedThenEvicted(k: TokenKey, until: Time, memory: MemoryPolicy, a: BookSet, m: BookSet, b: BookSet)
    requires Asked(k, until, a, m) && k in a.tokens && k in b.life && k in m.life && k in m.tokens
    requires b.life[k] == m.life[k].(warmAfter := b.life[k].warmAfter)
    requires b.life[k].warmAfter == m.life[k].warmAfter
      || (b.life[k].warmAfter == Some(m.life[k].latest) && Saturate(until - m.life[k].discovered) >= memory.hot)
    requires k in b.tokens <==> Saturate(until - m.life[k].discovered) < memory.cold
    ensures Ticked(k, until, memory, a, b)
  {
  }

  lemma AskedKeepsKeys(k: TokenKey, t: Time, a: BookSet, b: BookSet)
    requires Asked(k, t, a, b) && k in a.tokens
    ensures k in b.tokens && k in b.life && b.ledger == a.ledger
  {
  }

  lemma AskedThenJoined(k: TokenKey, e: Event, a: BookSet, m: BookSet, b: BookSet)
    requires Asked(k, e.time, a, m) && Joined(k, e.time, e.Trade?, m, b)
    requires e.Trade? ==> b.ledger[|m.ledger|].trade == e
    ensures Folded(k, e, a, b)
  {
  }

  lemma RebuiltKey(k: TokenKey)
    requires NormalKey(k)
    ensures k.token != "" && NewKey(k.chain, k.token) == k
  {
  }

  /** Emission touches the two emission marks and nothing else of a token. */
  predicate EmissionOnly(before: TokenState, after: TokenState) {
    after == before.(lastEmitted := after.lastEmitted, emittedMilestones := after.emittedMilestones)
  }

  lemma KeptShape(sched: SnapshotSchedule, k: TokenKey, tokens: map<TokenKey, TokenState>, life: map<TokenKey, Life>,
                  ledger: seq<Entry>, history: seq<Snapshot>, at: Time)
    requires BooksOk(sched, tokens, life, ledger, history) && k in tokens
    ensures k in life && WellShaped(tokens[k].rolling)
    ensures tokens[k].discoveredAt == life[k].discovered
      && life[k].discovered <= tokens[k].lastEmitted <= life[k].latest
    ensures forall t :: tokens[k].lastEmitted < t <= life[k].latest ==> !IsDue(sched, life[k].discovered, t)
    ensures life[k].latest < at ==> at - life[k].discovered !in tokens[k].emittedMilestones
  {
    var l := life[k];
    assert LifeKept(sched, k, l, ledger, history) && StateKept(sched, k, tokens[k], l, ledger, history);
    var ticks, snaps := TicksIn(ledger, l.from, k), SnapsIn(history, l.born, k);
    NothingBetween(sched, l, snaps);
    if l.latest < at {
      NotYetEmitted(sched, l, ticks, snaps, at);
    }
    hide IsDue, PrunesAll, AggMatches, ExactAt, Milestones, DueSeq;
  }

  lemma NextIsLater(sched: SnapshotSchedule, l: Life, at: Time)
    requires NextDue(sched, l, at)
    ensures l.latest < at
  {
  }

  // ---------------------------------------------------------------- the live reorder buffer

  /** Every buffered event is filed under its own order. */
  ghost predicate Filed(m: map<StateOrder, Event>) {
    forall o :: o in m ==> FromCanonical(m[o]) == o
  }

  lemma NothingFiled()
    ensures Filed(map[])
  {
  }

  function OneTrade(e: Event): multiset<Event> {
    if e.Trade? then multiset{e} else multiset{}
  }

  function TradesAt(m: map<StateOrder, Event>, orders: set<StateOrder>): set<Event> {
    set o | o in orders && o in m && m[o].Trade? :: m[o]
  }

  function MarksAt(m: map<StateOrder, Event>, orders: set<StateOrder>): set<TokenKey> {
    set o | o in orders && o in m && KeyOf(m[o]).Some? :: KeyOf(m[o]).value
  }

  predicate Behind(o: StateOrder, last: Option<StateOrder>) {
    last.Some? && Less(o, last.value)
  }

  /** The buffered orders that are before the last applied one. */
  function LateIn(m: map<StateOrder, Event>, last: Option<StateOrder>): set<StateOrder> {
    set o | o in m && Behind(o, last)
  }

  /** What emptying a buffer comes to: the trades dropped and the trades applied, how many events were late, and
      which tokens they mark. */
  datatype Emptying = Emptying(late: multiset<Event>, timely: multiset<Event>, count: nat, marks: set<TokenKey>)

  function EmptyingOf(m: map<StateOrder, Event>, last: Option<StateOrder>): Emptying {
    var late := LateIn(m, last);
    Emptying(multiset(TradesAt(m, late)), multiset(TradesAt(m, m.Keys - late)), |late|, MarksAt(m, late))
  }

  lemma TakeFrom(m: map<StateOrder, Event>, orders: set<StateOrder>, o: StateOrder)
    requires Filed(m) && o in m && o in orders
    ensures multiset(TradesAt(m, orders)) == multiset(TradesAt(m - {o}, orders - {o})) + OneTrade(m[o])
    ensures MarksAt(m, orders) == MarksAt(m - {o}, orders - {o}) + if KeyOf(m[o]).Some? then {KeyOf(m[o]).value} else {}
  {
    hide KeyOf, FromCanonical;
    var rest, one := TradesAt(m - {o}, orders - {o}), if m[o].Trade? then {m[o]} else {};
    forall p | p in orders - {o} && p in m ensures m[p] != m[o] {
      assert FromCanonical(m[p]) == p && FromCanonical(m[o]) == o;
    }
    forall p | p in orders && p in m ensures p == o || (p in orders - {o} && p in m - {o} && (m - {o})[p] == m[p]) {
    }
    assert TradesAt(m, orders) == rest + one && m[o] !in rest;
    assert multiset(rest + one) == multiset(rest) + multiset(one);
    TakeMark(m, orders, o);
  }

  lemma TakeMark(m: map<StateOrder, Event>, orders: set<StateOrder>, o: StateOrder)
    requires o in m && o in orders
    ensures MarksAt(m, orders) == MarksAt(m - {o}, orders - {o}) + if KeyOf(m[o]).Some? then {KeyOf(m[o]).value} else {}
  {
    hide KeyOf;
    forall p | p in orders && p in m ensures p == o || (p in orders - {o} && p in m - {o} && (m - {o})[p] == m[p]) {
    }
  }

  lemma TakeOther(m: map<StateOrder, Event>, orders: set<StateOrder>, o: StateOrder)
    requires o !in orders
    ensures TradesAt(m, orders) == TradesAt(m - {o}, orders) && MarksAt(m, orders) == MarksAt(m - {o}, orders)
  {
    hide KeyOf;
  }

  /** A buffered event that is late is dropped and marks its token. */
  lemma EmptyLate(m: map<StateOrder, Event>, o: StateOrder, last: Option<StateOrder>)
    requires Filed(m) && o in m && Behind(o, last)
    ensures var all, rest := EmptyingOf(m, last), EmptyingOf(m - {o}, last);
      && all.late == rest.late + OneTrade(m[o]) && all.timely == rest.timely && all.count == rest.count + 1
      && all.marks == rest.marks + if KeyOf(m[o]).Some? then {KeyOf(m[o]).value} else {}
    ensures Filed(m - {o})
  {
    hide KeyOf, FromCanonical, Behind, TradesAt, MarksAt;
    var late, late' := LateIn(m, last), LateIn(m - {o}, last);
    assert late' == late - {o} && (m - {o}).Keys - late' == m.Keys - late;
    TakeFrom(m, late, o);
    TakeOther(m, m.Keys - late, o);
  }

  /** The first buffered event, when it is not late: then none of the others is, before or after applying it. */
  lemma EmptyTimely(m: map<StateOrder, Event>, o: StateOrder, last: Option<StateOrder>)
    requires Filed(m) && o in m && !Behind(o, last) && forall p :: p in m ==> !Less(p, o)
    ensures var all, rest := EmptyingOf(m, last), EmptyingOf(m - {o}, Some(o));
      && all.late == rest.late == multiset{} && all.timely == rest.timely + OneTrade(m[o])
      && all.count == rest.count == 0 && all.marks == rest.marks == {}
    ensures Filed(m - {o})
  {
    hide KeyOf, FromCanonical, Less;
    assert LateIn(m, last) == {} by {
      forall p | p in m ensures !Behind(p, last) {
        if last.Some? {
          OrderIsTotal(o, p, last.value);
          OrderIsTotal(p, o, p);
        }
      }
    }
    assert LateIn(m - {o}, Some(o)) == {};
    hide Behind, LateIn;
    TakeFrom(m, m.Keys, o);
    assert m.Keys - {} == m.Keys && (m - {o}).Keys - {} == m.Keys - {o};
  }

  lemma EmptyNothing(last: Option<StateOrder>)
    ensures EmptyingOf(map[], last) == Emptying(multiset{}, multiset{}, 0, {})
  {
    hide KeyOf, Less;
  }

  /** A buffer that is all late is dropped whole. */
  lemma EmptyAllLate(m: map<StateOrder, Event>, last: Option<StateOrder>)
    requires forall o :: o in m ==> Behind(o, last)
    ensures LateIn(m, last) == m.Keys && EmptyingOf(m, last).timely == multiset{}
    ensures EmptyingOf(m, last).late == multiset(TradesAt(m, m.Keys))
  {
    hide Less;
    assert LateIn(m, last) == m.Keys;
    assert m.Keys - m.Keys == {};
  }

  /** The trade that an event displaces in the buffer. */
  function Overwritten(m: map<StateOrder, Event>, e: Event): multiset<Event> {
    if FromCanonical(e) in m then OneTrade(m[FromCanonical(e)]) else multiset{}
  }

  /** The buffer after a late event: emptied once it is over its limit. */
  function Refiled(m: map<StateOrder, Event>, e: Event): map<StateOrder, Event> {
    var filed := m[FromCanonical(e) := e];
    if |filed| > REORDER_LIMIT then map[] else filed
  }

  lemma FileOne(m: map<StateOrder, Event>, e: Event)
    requires Filed(m)
    ensures var filed := m[FromCanonical(e) := e];
      && Filed(filed)
      && multiset(TradesAt(filed, filed.Keys)) + Overwritten(m, e) == multiset(TradesAt(m, m.Keys)) + OneTrade(e)
  {
    hide FromCanonical, KeyOf;
    var o := FromCanonical(e);
    var filed := m[o := e];
    TakeFrom(filed, filed.Keys, o);
    var rest := m - {o};
    assert filed - {o} == rest && filed.Keys - {o} == rest.Keys == m.Keys - {o};
    if o in m {
      TakeFrom(m, m.Keys, o);
    } else {
      assert rest == m;
    }
  }

  lemma EmptyingIsAll(m: map<StateOrder, Event>, last: Option<StateOrder>)
    requires Filed(m)
    ensures EmptyingOf(m, last).late + EmptyingOf(m, last).timely == multiset(TradesAt(m, m.Keys))
    ensures (forall o :: o in m ==> Behind(o, last)) ==> EmptyingOf(m, last).timely == multiset{}
  {
    hide KeyOf, FromCanonical, Behind;
    var late := LateIn(m, last);
    SplitTrades(m, late);
    if forall o :: o in m ==> Behind(o, last) {
      EmptyAllLate(m, last);
    }
  }

  lemma SplitTrades(m: map<StateOrder, Event>, some: set<StateOrder>)
    requires Filed(m)
    ensures multiset(TradesAt(m, some)) + multiset(TradesAt(m, m.Keys - some)) == multiset(TradesAt(m, m.Keys))
  {
    hide FromCanonical;
    var a, b, all := TradesAt(m, some), TradesAt(m, m.Keys - some), TradesAt(m, m.Keys);
    forall o, p | o in some && o in m && p in m.Keys - some ensures m[o] != m[p] {
      assert FromCanonical(m[o]) == o && FromCanonical(m[p]) == p;
    }
    assert a !! b && a + b == all;
  }

  lemma LateAreMarked(m: map<StateOrder, Event>, last: Option<StateOrder>)
    ensures var done := EmptyingOf(m, last);
      forall x :: x in done.late && KeyOf(x).Some? ==> KeyOf(x).value in done.marks
  {
    hide KeyOf, Behind;
    var late := LateIn(m, last);
    forall x | x in TradesAt(m, late) && KeyOf(x).Some? ensures KeyOf(x).value in MarksAt(m, late) {
      var o :| o in late && o in m && m[o].Trade? && m[o] == x;
    }
  }

  /** What was late stays late. */
  lemma StillLate(m: map<StateOrder, Event>, last: Option<StateOrder>, order: StateOrder)
    requires last.Some? ==> !Less(order, last.value)
    ensures (forall o :: o in m ==> Behind(o, last)) ==> forall o :: o in m ==> Behind(o, Some(order))
  {
    hide Less;
    if forall o :: o in m ==> Behind(o, last) {
      forall o | o in m ensures Behind(o, Some(order)) {
        OrderIsTotal(o, last.value, order);
        OrderIsTotal(last.value, order, o);
      }
    }
  }

  /** The trades held and dropped, the late events counted, and the tokens marked. */
  datatype Tally = Tally(held: multiset<Event>, dropped: multiset<Event>, late: nat, marks: set<TokenKey>)

  function Settled(t: Tally, e: Emptying): Tally {
    Tally(t.held + e.timely, t.dropped + e.late, t.late + e.count, t.marks + e.marks)
  }

  function MarkOf(e: Event): set<TokenKey> {
    if KeyOf(e).Some? then {KeyOf(e).value} else {}
  }

  lemma SettleLate(t: Tally, m: map<StateOrder, Event>, o: StateOrder, last: Option<StateOrder>)
    requires Filed(m) && o in m && Behind(o, last)
    ensures Filed(m - {o})
    ensures Settled(t.(dropped := t.dropped + OneTrade(m[o]), late := t.late + 1, marks := t.marks + MarkOf(m[o])),
                    EmptyingOf(m - {o}, last))
         == Settled(t, EmptyingOf(m, last))
  {
    hide EmptyingOf, Behind, KeyOf, Filed, OneTrade;
    EmptyLate(m, o, last);
  }

  lemma SettleTimely(t: Tally, m: map<StateOrder, Event>, o: StateOrder, last: Option<StateOrder>)
    requires Filed(m) && o in m && !Behind(o, last) && forall p :: p in m ==> !Less(p, o)
    ensures Filed(m - {o})
    ensures Settled(t.(held := t.held + OneTrade(m[o])), EmptyingOf(m - {o}, Some(o)))
      == Settled(t, EmptyingOf(m, last))
  {
    hide EmptyingOf, Behind, KeyOf, Filed, OneTrade, Less;
    EmptyTimely(m, o, last);
  }

  lemma SettleEmpty(t: Tally, last: Option<StateOrder>)
    ensures Settled(t, EmptyingOf(map[], last)) == t
  {
    hide EmptyingOf;
    EmptyNothing(last);
  }

  /** Of a buffer that is all late, nothing is held, everything is dropped and counted, and every token marked. */
  lemma SettledAllLate(t: Tally, m: map<StateOrder, Event>, last: Option<StateOrder>)
    requires forall o :: o in m ==> Behind(o, last)
    ensures Settled(t, EmptyingOf(m, last))
      == Tally(t.held, t.dropped + multiset(TradesAt(m, m.Keys)), t.late + |m|, t.marks + MarksAt(m, m.Keys))
  {
    hide Behind, TradesAt, MarksAt;
    EmptyAllLate(m, last);
    assert t.held + multiset{} == t.held && |m.Keys| == |m|;
  }

  /** Everything buffered ends up held or dropped; what was dropped is marked; and if all of it was late, nothing
      more is held. */
  lemma SettledBags(t: Tally, m: map<StateOrder, Event>, last: Option<StateOrder>)
    requires Filed(m)
    ensures var t' := Settled(t, EmptyingOf(m, last));
      && t'.held + t'.dropped == t.held + multiset(TradesAt(m, m.Keys)) + t.dropped
      && t.dropped <= t'.dropped && t.marks <= t'.marks
      && (forall x :: x in t'.dropped - t.dropped && KeyOf(x).Some? ==> KeyOf(x).value in t'.marks)
      && ((forall o :: o in m ==> Behind(o, last)) ==> t'.held == t.held)
  {
    hide KeyOf, Behind, EmptyingOf, TradesAt, Filed;
    EmptyingIsAll(m, last);
    LateAreMarked(m, last);
    var e := EmptyingOf(m, last);
    assert (t.held + e.timely) + (t.dropped + e.late) == t.held + (e.late + e.timely) + t.dropped;
    assert t.dropped + e.late - t.dropped == e.late;
    assert t.held + multiset{} == t.held;
  }

  lemma FiledBags(held: multiset<Event>, dropped: multiset<Event>, displaced: multiset<Event>,
      m: map<StateOrder, Event>, e: Event)
    requires Filed(m)
    ensures var filed := m[FromCanonical(e) := e];
      held + multiset(TradesAt(filed, filed.Keys)) + dropped + (displaced + Overwritten(m, e))
        == held + multiset(TradesAt(m, m.Keys)) + dropped + displaced + OneTrade(e)
    ensures Filed(m[FromCanonical(e) := e])
  {
    hide FromCanonical, TradesAt, Overwritten, OneTrade;
    FileOne(m, e);
    var filed := m[FromCanonical(e) := e];
    var b, b', over, one := multiset(TradesAt(m, m.Keys)), multiset(TradesAt(filed, filed.Keys)), Overwritten(m, e),
      OneTrade(e);
    assert held + b' + dropped + (displaced + over) == held + (b' + over) + dropped + displaced;
    assert held + (b + one) + dropped + displaced == held + b + dropped + displaced + one;
  }

  class StateEngine {
    const schedule: SnapshotSchedule
    const memory: MemoryPolicy
    const replay: bool
    /** The latest event time seen; a live clock also has a wall reading, set from outside. */
    var clock: Time
    var wall: Time
    var tokens: map<TokenKey, TokenState>
    var byCurve: Index
    var byPool: Index
    var reorder: map<StateOrder, Event>
    var lastApplied: Option<StateOrder>
    var lateEvents: nat
    var rebuilds: nat
    var evictions: nat
    var pending: set<TokenKey>
    var buffer: seq<Snapshot>
    var history: seq<Snapshot>
    var unresolved: seq<Event>
    /** Every trade ever folded into a token, in the order of folding; and every token's latest life. */
    ghost var ledger: seq<Entry>
    ghost var life: map<TokenKey, Life>
    /** Every trade dropped as late; and every trade displaced in the reorder buffer by one of the same order, or
        cleared from it by a rebuild. */
    ghost var dropped: multiset<Event>
    ghost var displaced: multiset<Event>

    ghost predicate Core()
      reads `tokens, `life, `ledger, `history, `byCurve, `byPool, `reorder
    {
      && Modest(schedule)
      && BooksOk(schedule, tokens, life, ledger, history)
      && IndexOk(byCurve) && IndexOk(byPool)
      && (forall k :: k in tokens ==> NormalKey(k))
      && (replay ==> reorder == map[]) && Filed(reorder)
    }

    /** ... and no parked trade could be applied. */
    ghost predicate Valid()
      reads `tokens, `life, `ledger, `history, `byCurve, `byPool, `reorder, `unresolved
    {
      Core() && NoneStuck(unresolved, byCurve, byPool)
    }

    /** Every trade the engine holds: folded in, or parked. */
    ghost function Held(): multiset<Event>
      reads `ledger, `unresolved
    {
      multiset(Trades(ledger)) + multiset(unresolved)
    }

    /** The trades waiting in the reorder buffer. */
    ghost function Buffered(): multiset<Event>
      reads `reorder
    {
      multiset(TradesAt(reorder, reorder.Keys))
    }

    ghost function Tallied(): Tally
      reads `ledger, `unresolved, `dropped, `lateEvents, `pending
    {
      Tally(Held(), dropped, lateEvents, pending)
    }

    /** Every trade the engine ever received. */
    ghost function Received(): multiset<Event>
      reads `ledger, `unresolved, `reorder, `dropped, `displaced
    {
      Held() + Buffered() + dropped + displaced
    }

    /** Everything in the reorder buffer is before the last applied event. */
    ghost predicate BufferLate()
      reads `reorder, `lastApplied
    {
      forall o :: o in reorder ==> Behind(o, lastApplied)
    }

    ghost function Books(): BookSet
      reads `tokens, `life, `ledger, `history
    {
      BookSet(tokens, life, ledger, history)
    }

    /** Since the call began, only this token's state and logs have changed. */
    twostate predicate OnlyToken(k: TokenKey)
      reads `tokens, `life, `ledger, `history
    {
      Only(k, old(Books()), Books())
    }

    constructor (sched: SnapshotSchedule, policy: MemoryPolicy, isReplay: bool)
      requires Modest(sched)
      ensures Valid() && schedule == sched && memory == policy && replay == isReplay
      ensures tokens == map[] && unresolved == [] && pending == {} && lastApplied == None
      ensures ledger == [] && history == [] && life == map[]
      ensures reorder == map[] && Received() == multiset{} && dropped == displaced == multiset{} && BufferLate()
    {
      dropped, displaced := multiset{}, multiset{};
      schedule, memory, replay := sched, policy, isReplay;
      clock, wall := 0, 0;
      tokens, byCurve, byPool, reorder := map[], map[], map[], map[];
      lastApplied := None;
      lateEvents, rebuilds, evictions := 0, 0, 0;
      pending := {};
      buffer, history, unresolved, ledger, life := [], [], [], [], map[];
    }

    function Now(): Time
      reads this
    {
      if replay then clock else Later(clock, wall)
    }

    // -------------------------------------------------------------- snapshots

    method PushSnapshot(key: TokenKey, at: Time, kind: SnapshotKind)
      requires Core()
      requires key in tokens && !kind.LifecycleSnap? && tokens[key].lastEmitted < at ==>
        NextDue(schedule, life[key], at)
        && kind == DueKind(schedule, tokens[key].emittedMilestones, Saturate(at - tokens[key].discoveredAt))
      modifies `tokens, `life, `history, `buffer
      ensures Core()
      ensures key !in old(tokens) || (!kind.LifecycleSnap? && old(tokens)[key].lastEmitted >= at) ==>
        tokens == old(tokens) && life == old(life) && history == old(history) && buffer == old(buffer)
      ensures old(history) <= history && forall i :: |old(history)| <= i < |history| ==> history[i].key == key
      ensures key in old(tokens) && kind.LifecycleSnap? ==>
        && tokens == old(tokens) && life == old(life) && WellShaped(tokens[key].rolling)
        && history == old(history) + [SnapshotOf(tokens[key], key, at, kind)]
      ensures key in old(tokens) && !kind.LifecycleSnap? && old(tokens)[key].lastEmitted < at ==>
        && tokens == old(tokens)[key := WithEmitted(schedule, old(tokens)[key], at)]
        && life == old(life)[key := old(life)[key].(latest := at)]
        && WellShaped(old(tokens)[key].rolling)
        && history == old(history) + [SnapshotOf(old(tokens)[key], key, at, kind)]
    {
      hide BooksOk, IndexOk, NormalKey, Modest, NextDue, AsOfAll, Upto, Traders, Total, LifeOk, StateOk;
      if key !in tokens {
        return;
      }
      var st := tokens[key];
      if !kind.LifecycleSnap? && at <= st.lastEmitted {
        return;
      }
      KeptShape(schedule, key, tokens, life, ledger, history, at);
      var rolls := AsOfAll(st.rolling, at);
      var c := Counts(st.agg.buyCount, st.agg.sellCount, |st.agg.buyers|, |st.agg.sellers|);
      if st.tradeLog != [] {
        c := CountTradeLog(st.tradeLog, at);
      }
      var snap := Snapshot(
        key, at, Saturate(at - st.discoveredAt), kind, st.stage,
        c.buys, c.sells, c.buyers, c.sellers,
        st.agg.buyQuote, st.agg.sellQuote, st.agg.buyToken, st.agg.sellToken, rolls);
      assert snap == SnapshotOf(st, key, at, kind);
      if kind.LifecycleSnap? {
        BooksLifecycle(schedule, key, tokens, life, ledger, history, snap);
      } else {
        BooksEmit(schedule, key, tokens, life, ledger, history, at, kind);
        var age := snap.age;
        st := st.(lastEmitted := if at > st.lastEmitted then at else st.lastEmitted);
        if age in schedule.milestones {
          st := st.(emittedMilestones := st.emittedMilestones + {age as int});
        }
        tokens := tokens[key := st];
        life := life[key := life[key].(latest := at)];
      }
      history := history + [snap];
      buffer := buffer + [snap];
    }

    /** What the books say of a token in memory, as emission needs it. */
    lemma ShapeNow(key: TokenKey, until: Time)
      requires Core() && key in tokens
      ensures Modest(schedule) && key in life && tokens[key].discoveredAt == life[key].discovered
      ensures -TIME_LIMIT < tokens[key].lastEmitted < TIME_LIMIT && tokens[key].lastEmitted <= life[key].latest
      ensures forall t :: tokens[key].lastEmitted < t <= life[key].latest ==> !IsDue(schedule, life[key].discovered, t)
    {
      hide BooksOk, IsDue, Modest;
      KeptShape(schedule, key, tokens, life, ledger, history, until);
    }

    /** One due time: a milestone unless its age was already emitted before this batch. */
    method EmitOne(key: TokenKey, t: Time, discovered: Time, already: set<int>)
      requires Core() && key in tokens && key in life && NextDue(schedule, life[key], t)
      requires discovered == tokens[key].discoveredAt && already <= tokens[key].emittedMilestones
      modifies `tokens, `life, `history, `buffer
      ensures Core() && OnlyToken(key) && tokens.Keys == old(tokens).Keys
      ensures life == old(life)[key := old(life)[key].(latest := t)]
      ensures EmissionOnly(old(tokens)[key], tokens[key]) && already <= tokens[key].emittedMilestones
    {
      hide BooksOk, IndexOk, NormalKey, Modest, SnapshotOf, IsDue, DueSeq, NextDue, Only;
      KeptShape(schedule, key, tokens, life, ledger, history, t);
      assert life[key].latest < t by { assert NextDue(schedule, life[key], t); NextIsLater(schedule, life[key], t); }
      var age := Saturate(t - discovered);
      var kind := if age in schedule.milestones && age !in already then MilestoneSnap else PeriodicSnap;
      PushSnapshot(key, t, kind);
      OnlyUpdate(key, old(Books()), Books(), tokens[key], life[key]);
    }

    /** On the way through a token's due times: they are taken up to `reached`, and nothing else has changed. */
    ghost predicate Emitted(key: TokenKey, books: BookSet, reached: Time, already: set<int>)
      reads `tokens, `life, `ledger, `history
    {
      && key in books.tokens && key in books.life && Only(key, books, Books()) && tokens.Keys == books.tokens.Keys
      && life == books.life[key := books.life[key].(latest := reached)]
      && EmissionOnly(books.tokens[key], tokens[key]) && already <= tokens[key].emittedMilestones
    }

    method EmitNext(key: TokenKey, t: Time, discovered: Time, already: set<int>, ghost books: BookSet,
        ghost reached: Time)
      requires Core() && Emitted(key, books, reached, already) && discovered == books.tokens[key].discoveredAt
      requires NextDue(schedule, books.life[key].(latest := reached), t)
      modifies `tokens, `life, `history, `buffer
      ensures Core() && Emitted(key, books, t, already)
    {
      hide BooksOk, IndexOk, NormalKey, Modest, IsDue, DueSeq, NextDue, Only, Core;
      EmitOne(key, t, discovered, already);
      OnlyTrans(key, books, old(Books()), Books());
    }

    method EmitDue(key: TokenKey, until: Time)
      requires Core()
      modifies `tokens, `life, `history, `buffer
      ensures Core() && OnlyToken(key) && tokens.Keys == old(tokens).Keys
      ensures Asked(key, until, old(Books()), Books())
      ensures key !in old(tokens) ==> tokens == old(tokens) && life == old(life) && history == old(history)
      ensures key in old(tokens) ==>
        && key in old(life) && life == old(life)[key := old(life)[key].(latest := Later(old(life)[key].latest, until))]
        && EmissionOnly(old(tokens)[key], tokens[key])
    {
      hide BooksOk, IndexOk, NormalKey, Modest, SnapshotOf, IsDue, DueSeq, Only, Core, Safe;
      ghost var books := Books();
      OnlyNothing(key, books, books);
      if key !in tokens {
        return;
      }
      ShapeNow(key, until);
      var discovered := tokens[key].discoveredAt;
      var from := tokens[key].lastEmitted;
      var already := tokens[key].emittedMilestones;
      ghost var latest := life[key].latest;
      ModestIsSafe(schedule, discovered, from, until);
      var due := DueTimes(schedule, discovered, from, until);
      ghost var reached: Time := latest;
      assert life == life[key := life[key].(latest := reached)];
      var i := 0;
      while i < |due|
        invariant 0 <= i <= |due| && Core() && Emitted(key, books, reached, already)
        invariant reached == (if i == 0 then latest else due[i - 1]) && latest <= reached <= Later(latest, until)
      {
        DueGap(schedule, discovered, from, until, i);
        var t: Time := due[i];
        EmitNext(key, t, discovered, already, books, reached);
        reached := t;
        i := i + 1;
      }
      DueTail(schedule, discovered, from, until);
      ghost var emitted := Books();
      AdvanceLatest(key, until);
      OnlyTrans(key, books, emitted, Books());
    }

    /** Nothing more is due: only the time asked for moves. */
    ghost method AdvanceLatest(key: TokenKey, until: Time)
      requires Core() && key in tokens && key in life
      requires forall t :: life[key].latest < t <= until ==> !IsDue(schedule, life[key].discovered, t)
      modifies `life
      ensures Core() && OnlyToken(key)
      ensures life == old(life)[key := old(life)[key].(latest := Later(old(life)[key].latest, until))]
    {
      hide BooksOk, IndexOk, NormalKey, Modest, IsDue, Only;
      OnlyNothing(key, Books(), Books());
      if life[key].latest < until {
        BooksAdvance(schedule, key, tokens, life, ledger, history, until);
        life := life[key := life[key].(latest := until)];
        assert tokens == tokens[key := tokens[key]];
        OnlyUpdate(key, old(Books()), Books(), tokens[key], life[key]);
      }
    }

    method EmitLifecycle(key: TokenKey, trigger: string)
      requires Core() && key in tokens
      modifies `tokens, `life, `history, `buffer
      ensures Core() && tokens == old(tokens) && life == old(life)
      ensures |history| == |old(history)| + 1 && old(history) <= history
      ensures history[|old(history)|].key == key && history[|old(history)|].kind == LifecycleSnap(trigger)
      ensures history[|old(history)|].time == Now()
    {
      hide BooksOk, IndexOk, NormalKey, Modest;
      PushSnapshot(key, Now(), LifecycleSnap(trigger));
    }

    // -------------------------------------------------------------- trades

    method FoldTrade(key: TokenKey, trade: Event)
      requires Core() && key in tokens && trade.Trade?
      modifies `tokens, `life, `ledger, `history, `buffer
      ensures Core() && key in old(life) && WellShaped(old(tokens)[key].rolling)
      ensures tokens == old(tokens)[key := WithTrade(old(tokens)[key], trade, trade.time)]
      ensures life == old(life)[key := old(life)[key].(
        ordered := old(life)[key].ordered && trade.time == old(life)[key].latest)]
      ensures ledger == old(ledger) + [Entry(key, trade, TickFor(old(tokens)[key], trade, trade.time))]
      ensures old(history) <= history && OnlyToken(key) && Held() == old(Held()) + multiset{trade}
      ensures StaysOn(key, old(Books()), Books())
      ensures Trades(ledger) == old(Trades(ledger)) + [trade] && SameIdentity(old(tokens)[key], tokens[key])
    {
      hide BooksOk, IndexOk, NormalKey, Modest, WithTrade, TickFor, SnapshotOf, Only, Filed, SameIdentity, AsOfAll;
      var st := tokens[key];
      KeptShape(schedule, key, tokens, life, ledger, history, trade.time);
      BooksTrade(schedule, key, tokens, life, ledger, history, trade);
      var after := WithTrade(st, trade, trade.time);
      var isFirstTrade := st.firstTradeAt.None?;
      var isFirstAmm := after.stage.AmmActive? && !st.firstAmmTrade;
      TradeKeepsIdentity(st, trade, trade.time);
      tokens := tokens[key := after];
      ledger := ledger + [Entry(key, trade, TickFor(st, trade, trade.time))];
      life := life[key := life[key].(ordered := life[key].ordered && trade.time == life[key].latest)];
      assert Core();
      hide Core;
      EmitFirsts(key, isFirstTrade, isFirstAmm);
      assert ledger[|old(ledger)|].key == key;
      assert Trades(ledger) == old(Trades(ledger)) + [trade];
      OnlyUpdate(key, old(Books()), Books(), tokens[key], life[key]);
    }

    method EmitFirsts(key: TokenKey, isFirstTrade: bool, isFirstAmm: bool)
      requires Core() && key in tokens
      modifies `tokens, `life, `history, `buffer
      ensures Core() && tokens == old(tokens) && life == old(life) && old(history) <= history
      ensures forall i :: |old(history)| <= i < |history| ==> history[i].key == key
    {
      hide Core;
      if isFirstTrade {
        EmitLifecycle(key, "FIRST_TRADE");
      }
      if isFirstAmm {
        EmitLifecycle(key, "AMM_FIRST_TRADE");
      }
    }

    method ApplyTrade(trade: Event)
      requires Core() && trade.Trade?
      requires (Resolve(byCurve, byPool, trade).Some? && Resolve(byCurve, byPool, trade).value in tokens)
        || NoneStuck(unresolved, byCurve, byPool)
      modifies `tokens, `life, `ledger, `history, `buffer, `byCurve, `byPool, `unresolved
      ensures Core() && Held() == old(Held()) + multiset{trade}
      ensures var r := old(Resolve(byCurve, byPool, trade));
        && (r.None? ==> unresolved == old(unresolved) + [trade] && tokens == old(tokens) && life == old(life)
                        && ledger == old(ledger) && history == old(history)
                        && byCurve == old(byCurve) && byPool == old(byPool))
        && (r.Some? ==>
              r.value in tokens && r.value in life && OnlyToken(r.value) && StaysOn(r.value, old(Books()), Books()))
        && (r.Some? && r.value in old(tokens) ==>
              unresolved == old(unresolved) && byCurve == old(byCurve) && byPool == old(byPool)
              && Trades(ledger) == old(Trades(ledger)) + [trade] && SameIdentity(old(tokens)[r.value], tokens[r.value]))
        && (r.Some? && r.value !in old(tokens) ==>
              Trades(ledger) == old(Trades(ledger)) + Freed(old(unresolved), byCurve, byPool) + [trade]
              && unresolved == StillParked(old(unresolved), byCurve, byPool))
        && (r.Some? && r.value !in old(tokens) ==> NoneStuck(unresolved, byCurve, byPool))
        && (r.Some? && old(unresolved) == [] ==>
              unresolved == [] && Joined(r.value, trade.time, true, old(Books()), Books())
              && ledger[|old(ledger)|].trade == trade)
      decreases |unresolved|, 3
    {
      hide BooksOk, IndexOk, NormalKey, Modest, WithTrade, TickFor, SnapshotOf, Lookup, Only, Joined, NewKey,
        NoneStuck, StaysOn;
      var r := Resolve(byCurve, byPool, trade);
      ResolvedIsNormal(byCurve, byPool, trade);
      if r.None? {
        unresolved := unresolved + [trade];
        return;
      }
      hide Held, Trades, Core;
      var key := r.value;
      EnsureToken(key, trade);
      label Ready:
      FoldTrade(key, trade);
      OnlyTrans(key, old(Books()), old@Ready(Books()), Books());
      StaysOnTrans(key, old(Books()), old@Ready(Books()), Books());
      if old(unresolved) == [] {
        JoinedThenTraded(key, trade.time, old(Books()), old@Ready(Books()), Books());
      }
    }

    /** A trade of an unknown token first creates it, as if it had just been discovered. */
    method EnsureToken(key: TokenKey, trade: Event)
      requires Core() && trade.Trade? && NormalKey(key) && key.chain == trade.chain
      requires key in tokens || NoneStuck(unresolved, byCurve, byPool)
      modifies `tokens, `life, `ledger, `history, `buffer, `byCurve, `byPool, `unresolved
      ensures Core() && Held() == old(Held()) && key in tokens && OnlyToken(key) && StaysOn(key, old(Books()), Books())
      ensures key in old(tokens) ==>
        Books() == old(Books()) && unresolved == old(unresolved) && byCurve == old(byCurve) && byPool == old(byPool)
      ensures key !in old(tokens) ==>
        NoneStuck(unresolved, byCurve, byPool)
        && Flushed(old(ledger), old(unresolved), ledger, unresolved, byCurve, byPool)
      ensures old(unresolved) == [] ==> unresolved == [] && Joined(key, trade.time, false, old(Books()), Books())
      decreases |unresolved|, 2
    {
      hide BooksOk, IndexOk, NormalKey, Modest, WithTrade, TickFor, SnapshotOf, Lookup, Only;
      if key !in tokens {
        var tok := Discovered(trade.chain, key.token, trade.launchpad, "", trade.curve, trade.pool,
                              trade.time, trade.origin, trade.id);
        RebuiltKey(key);
        ApplyDiscovered(tok);
      } else {
        KeptShape(schedule, key, tokens, life, ledger, history, trade.time);
        OnlyNothing(key, Books(), Books());
      }
    }

    method ApplyDiscovered(tok: Event)
      requires Valid() && tok.Discovered?
      modifies `tokens, `life, `ledger, `history, `buffer, `byCurve, `byPool, `unresolved
      ensures Valid() && Held() == old(Held())
      ensures tok.token == "" ==>
        tokens == old(tokens) && life == old(life) && ledger == old(ledger) && history == old(history)
        && unresolved == old(unresolved)
      ensures tok.token != "" ==> var k := NewKey(tok.chain, tok.token);
        && k in tokens && k in life && OnlyToken(k) && StaysOn(k, old(Books()), Books())
        && SameIdentity(Rediscovered(if k in old(tokens) then old(tokens)[k] else FreshState(tok), tok), tokens[k])
        && byCurve == Indexed(old(byCurve), k.chain, tokens[k].curve, k)
           && byPool == Indexed(old(byPool), k.chain, tokens[k].pool, k)
        && Flushed(old(ledger), old(unresolved), ledger, unresolved, byCurve, byPool)
        && (k !in old(tokens) ==>
           |old(history)| < |history| && history[|old(history)|].kind == LifecycleSnap("TOKEN_CREATED"))
        && (old(unresolved) == [] ==>
              unresolved == [] && Joined(k, tok.time, false, old(Books()), Books())
              && tokens[k] == Rediscovered(if k in old(tokens) then old(tokens)[k] else FreshState(tok), tok))
      decreases |unresolved|, 1
    {
      hide BooksOk, IndexOk, Modest, WithTrade, TickFor, SnapshotOf, Lookup, FreshState, SameBooks, Rediscovered, Only;
      if tok.token == "" {
        return;
      }
      var key := NewKey(tok.chain, tok.token);
      NewKeyIsNormal(tok.chain, tok.token);
      hide NormalKey, NewKey;
      var inserted := key !in tokens;
      if inserted {
        BooksCreate(schedule, key, tokens, life, ledger, history, tok);
        tokens := tokens[key := FreshState(tok)];
        life := life[key := Life(tok.time, tok.time, |ledger|, |history|, true, None)];
      } else {
        KeptShape(schedule, key, tokens, life, ledger, history, tok.time);
      }
      var st := Rediscovered(tokens[key], tok);
      RediscoveredSame(tokens[key], tok);
      label Created:
      if inserted {
        OnlyUpdate(key, old(Books()), Books(), tokens[key], life[key]);
      } else {
        OnlyNothing(key, old(Books()), Books());
      }
      Settle(key, st, if inserted then Some("TOKEN_CREATED") else None);
      OnlyTrans(key, old(Books()), old@Created(Books()), Books());
      StaysOnTrans(key, old(Books()), old@Created(Books()), Books());
    }

    /** The common end of discovery and lifecycle: store the token, index its curve and pool, snapshot,
        and retry the parked trades. */
    method Settle(key: TokenKey, st: TokenState, trigger: Option<string>)
      requires Valid() && key in tokens && SameBooks(st, tokens[key])
      modifies `tokens, `life, `ledger, `history, `buffer, `byCurve, `byPool, `unresolved
      ensures Valid() && Held() == old(Held())
      ensures key in tokens && key in life && OnlyToken(key) && StaysOn(key, old(Books()), Books())
        && SameIdentity(st, tokens[key])
      ensures byCurve == Indexed(old(byCurve), key.chain, st.curve, key)
        && byPool == Indexed(old(byPool), key.chain, st.pool, key)
      ensures Flushed(old(ledger), old(unresolved), ledger, unresolved, byCurve, byPool)
      ensures trigger.Some? ==>
        |old(history)| < |history| && history[|old(history)|].kind == LifecycleSnap(trigger.value)
      ensures old(unresolved) == [] ==>
        unresolved == [] && ledger == old(ledger) && life == old(life) && tokens[key] == st
      decreases |unresolved|, 0, 1
    {
      hide BooksOk, IndexOk, Modest, SnapshotOf, Lookup, SameBooks, NormalKey, NewKey, Only, Flushed, Filed, Resolve,
        AddrKey;
      KeptShape(schedule, key, tokens, life, ledger, history, 0);
      BooksSame(schedule, key, tokens, life, ledger, history, st);
      tokens := tokens[key := st];
      IndexingFrees(key, unresolved, byCurve, byPool, st.curve, st.pool);
      byCurve, byPool := Indexed(byCurve, key.chain, st.curve, key), Indexed(byPool, key.chain, st.pool, key);
      if trigger.Some? {
        EmitLifecycle(key, trigger.value);
      }
      label Indexed:
      OnlyUpdate(key, old(Books()), Books(), st, life[key]);
      FlushUnresolved(key);
      OnlyTrans(key, old(Books()), old@Indexed(Books()), Books());
      StaysOnTrans(key, old(Books()), old@Indexed(Books()), Books());
    }

    /** Applies a parked trade if its token is now known, and parks it again otherwise. */
    method RetryParked(ghost k: TokenKey, trade: Event)
      requires Valid() && k in tokens && k in life && Parkable(trade)
      requires Resolve(byCurve, byPool, trade).None? || Resolve(byCurve, byPool, trade) == Some(k)
      modifies `tokens, `life, `ledger, `history, `buffer, `byCurve, `byPool, `unresolved
      ensures Valid() && Held() == old(Held()) + multiset{trade}
      ensures byCurve == old(byCurve) && byPool == old(byPool) && |unresolved| <= |old(unresolved)| + 1
      ensures k in tokens && k in life && OnlyToken(k) && SameIdentity(old(tokens)[k], tokens[k])
        && old(history) <= history
      ensures StaysOn(k, old(Books()), Books())
      ensures if Resolve(byCurve, byPool, trade).Some? then Trades(ledger) == old(Trades(ledger)) + [trade]
        && unresolved == old(unresolved)
              else ledger == old(ledger) && unresolved == old(unresolved) + [trade]
      decreases |unresolved|, 4
    {
      hide BooksOk, IndexOk, NormalKey, Modest, WithTrade, TickFor, SnapshotOf, Lookup, Only, NewKey;
      if Resolve(byCurve, byPool, trade).Some? || trade.token != "" {
        ApplyTrade(trade);
        OnlyGrows(k, old(Books()), Books());
      } else {
        OnlyNothing(k, Books(), Books());
        unresolved := unresolved + [trade];
      }
    }

    /** On the way through the parked trades: of all, these are left to retry. */
    ghost predicate Retrying(k: TokenKey, all: seq<Event>, left: seq<Event>, books: BookSet, st: TokenState,
        held: multiset<Event>)
      reads this
    {
      && |unresolved| + |left| <= |all| && k in tokens && k in life && books.history <= history
      && Only(k, books, Books()) && StaysOn(k, books, Books()) && SameIdentity(st, tokens[k])
      && Flushing(books.ledger, all, ledger, unresolved, left, byCurve, byPool) && OnlyFor(k, left, byCurve, byPool)
      && Held() + multiset(left) == held && (|left| == |all| ==> Books() == books && unresolved == [])
    }

    method RetryNext(ghost k: TokenKey, ghost all: seq<Event>, left: seq<Event>, ghost books: BookSet,
        ghost st: TokenState, ghost held: multiset<Event>)
      requires left != [] && Valid() && Retrying(k, all, left, books, st, held)
      modifies `tokens, `life, `ledger, `history, `buffer, `byCurve, `byPool, `unresolved
      ensures Valid() && Retrying(k, all, left[1..], books, st, held)
      ensures byCurve == old(byCurve) && byPool == old(byPool)
      decreases |unresolved|, 5
    {
      hide BooksOk, IndexOk, NormalKey, Modest, WithTrade, TickFor, SnapshotOf, Only, Resolve, Held, Core, NoneStuck,
        OnlyFor, Parkable, Joined, Flushing, Trades, SameIdentity, StaysOn;
      FirstParked(k, left, byCurve, byPool);
      RetryParked(k, left[0]);
      OnlyTrans(k, books, old(Books()), Books());
      StaysOnTrans(k, books, old(Books()), Books());
      BagStep(old(Held()), Held(), left[0], multiset(left), multiset(left[1..]));
      FlushStep(books.ledger, all, old(ledger), old(unresolved), left, ledger, unresolved, byCurve, byPool);
      IdentityTrans(st, old(tokens)[k], tokens[k]);
    }

    /** Retries every parked trade. Only trades of `k` can have become resolvable, and `k` is in memory,
        so no retry creates a token and the nested retries never happen. */
    method FlushUnresolved(ghost k: TokenKey)
      requires Core() && k in tokens && k in life && OnlyFor(k, unresolved, byCurve, byPool)
      modifies `tokens, `life, `ledger, `history, `buffer, `byCurve, `byPool, `unresolved
      ensures Valid() && Held() == old(Held())
      ensures k in tokens && k in life && OnlyToken(k) && SameIdentity(old(tokens)[k], tokens[k])
        && old(history) <= history
      ensures StaysOn(k, old(Books()), Books())
      ensures byCurve == old(byCurve) && byPool == old(byPool)
      ensures Flushed(old(ledger), old(unresolved), ledger, unresolved, byCurve, byPool)
      ensures old(unresolved) == [] ==>
        unresolved == [] && tokens == old(tokens) && life == old(life) && ledger == old(ledger)
          && history == old(history)
      decreases |unresolved|, 0, 0
    {
      hide BooksOk, IndexOk, NormalKey, Modest, WithTrade, TickFor, SnapshotOf, Only, Resolve;
      var parked := unresolved;
      ghost var all, books, held, st := unresolved, Books(), Held(), tokens[k];
      OnlyNothing(k, books, books);
      unresolved := [];
      FlushStarts(ledger, parked, byCurve, byPool);
      assert Held() + multiset(parked) == held;
      assert Valid() && Retrying(k, all, parked, books, st, held);
      hide Held, Core, NoneStuck, OnlyFor, Parkable, Joined, Flushing, Flushed, Trades, SameIdentity, StaysOn;
      while parked != []
        invariant Valid() && Retrying(k, all, parked, books, st, held)
        invariant byCurve == old(byCurve) && byPool == old(byPool)
        decreases |parked|
      {
        RetryNext(k, all, parked, books, st, held);
        parked := parked[1..];
      }
      assert multiset(parked) == multiset{};
      FlushEnds(books.ledger, all, ledger, unresolved, byCurve, byPool);
    }

    method ApplyLifecycle(e: Event)
      requires Valid() && e.Lifecycle?
      modifies `tokens, `life, `ledger, `history, `buffer, `byCurve, `byPool, `unresolved
      ensures Valid() && Held() == old(Held())
      ensures var r := old(Resolve(byCurve, byPool, e));
        && (r.None? || (r.value !in old(tokens) && e.token == "") ==>
              Books() == old(Books()) && unresolved == old(unresolved) && byCurve == old(byCurve)
                && byPool == old(byPool))
        && (r.Some? ==> OnlyToken(r.value))
        && (r.Some? && r.value in old(tokens) ==> var k, st := r.value, WithLifecycle(old(tokens)[r.value], e);
              && k in tokens && SameIdentity(st, tokens[k])
              && byCurve == Indexed(old(byCurve), k.chain, st.curve, k)
                 && byPool == Indexed(old(byPool), k.chain, st.pool, k)
              && Flushed(old(ledger), old(unresolved), ledger, unresolved, byCurve, byPool)
              && (!e.kind.SnipeTaxCharged? ==>
                    |old(history)| < |history| && history[|old(history)|].kind == LifecycleSnap(TriggerOf(e.kind)))
              && (old(unresolved) == [] ==>
                 unresolved == [] && tokens[k] == st && Joined(k, e.time, false, old(Books()), Books())))
      ensures e.token != "" ==> var k := NewKey(e.chain, e.token);
        && k in tokens && k in life && StaysOn(k, old(Books()), Books())
        && (old(unresolved) == [] ==> unresolved == [] && Joined(k, e.time, false, old(Books()), Books()))
    {
      hide BooksOk, IndexOk, Modest, SnapshotOf, Lookup, SameBooks, WithLifecycle, NormalKey, NewKey, Only;
      var r := Resolve(byCurve, byPool, e);
      ResolvedIsNormal(byCurve, byPool, e);
      if r.None? {
        return;
      }
      var key := r.value;
      if key !in tokens && e.token != "" {
        var tok := Discovered(e.chain, key.token, e.launchpad, "", e.curve, e.pool, e.time, e.origin, e.id);
        RebuiltKey(key);
        ApplyDiscovered(tok);
      } else {
        OnlyNothing(key, Books(), Books());
        BoundsHold();
      }
      if key !in tokens {
        return;
      }
      label Ready:
      var st := WithLifecycle(tokens[key], e);
      WithLifecycleSame(tokens[key], e);
      Settle(key, st, if e.kind.SnipeTaxCharged? then None else Some(TriggerOf(e.kind)));
      OnlyTrans(key, old(Books()), old@Ready(Books()), Books());
      StaysOnTrans(key, old(Books()), old@Ready(Books()), Books());
    }

    // -------------------------------------------------------------- events in order

    method Dispatch(e: Event)
      requires Valid()
      modifies `tokens, `life, `ledger, `history, `buffer, `byCurve, `byPool, `unresolved
      ensures Valid() && Held() == old(Held()) + OneTrade(e)
      ensures var r := old(Target(byCurve, byPool, e));
        && (r.None? ==> Books() == old(Books()))
        && (r.Some? ==> OnlyToken(r.value))
        && (r.Some? && (e.Trade? || e.token != "") ==> r.value in tokens && StaysOn(r.value, old(Books()), Books()))
        && (r.Some? && r.value in tokens && old(unresolved) == [] ==>
              unresolved == [] && Joined(r.value, e.time, e.Trade?, old(Books()), Books())
              && (e.Trade? ==> |old(ledger)| < |ledger| && ledger[|old(ledger)|].trade == e))
    {
      hide BooksOk, IndexOk, Modest, NormalKey, NewKey, Only, NoneStuck, SnapshotOf, Lookup, TickFor, SameIdentity,
        Flushed, Freed, StillParked, Indexed, Joined;
      if e.Trade? {
        if Resolve(byCurve, byPool, e).None? {
          ParkKeepsNoneStuck(unresolved, byCurve, byPool, e);
        }
        ApplyTrade(e);
      } else if e.Discovered? {
        ApplyDiscovered(e);
      } else {
        ApplyLifecycle(e);
      }
    }

    /** Snapshots due up to the event's time are taken before the event is applied. */
    method AskDue(e: Event)
      requires Valid()
      modifies `tokens, `life, `history, `buffer
      ensures Valid()
      ensures var r := Target(byCurve, byPool, e);
        if r.Some? then OnlyToken(r.value) && Asked(r.value, e.time, old(Books()), Books()) else Books() == old(Books())
    {
      hide BooksOk, IndexOk, Modest, NormalKey, NewKey, Only, NoneStuck, SnapshotOf, Lookup, EmissionOnly, Asked;
      var key := if e.Discovered? && e.token == "" then None else Resolve(byCurve, byPool, e);
      if key.Some? {
        EmitDue(key.value, e.time);
      }
    }

    /** Nothing but the event's own token is touched: it is asked for its due snapshots, and then the event is
        folded into it. */
    method ApplyInOrder(e: Event, order: StateOrder)
      requires Valid()
      modifies this
      ensures Valid() && Held() == old(Held()) + OneTrade(e)
      ensures pending == old(pending) && lateEvents == old(lateEvents) && reorder == old(reorder)
      ensures rebuilds == old(rebuilds) && evictions == old(evictions) && wall == old(wall)
      ensures dropped == old(dropped) && displaced == old(displaced)
      ensures lastApplied == Some(order) && clock == Later(e.time, old(clock))
      ensures Applied(old(Target(byCurve, byPool, e)), e, old(unresolved) == [], old(Books()))
    {
      hide BooksOk, IndexOk, Modest, NoneStuck, Core, Held, Target, Later, Applied, Valid, Books, OneTrade;
      clock := Later(e.time, clock);
      AskAndDispatch(e);
      lastApplied := Some(order);
    }

    method AskAndDispatch(e: Event)
      requires Valid()
      modifies `tokens, `life, `ledger, `history, `buffer, `byCurve, `byPool, `unresolved
      ensures Valid() && Held() == old(Held()) + OneTrade(e)
      ensures Applied(old(Target(byCurve, byPool, e)), e, old(unresolved) == [], old(Books()))
    {
      hide BooksOk, IndexOk, Modest, NoneStuck, Only, Asked, Joined, Folded, Core, Held, Target, Applied, Valid;
      ghost var r := Target(byCurve, byPool, e);
      AskDue(e);
      label Emitted:
      Dispatch(e);
      if r.Some? {
        AskedThenDispatched(r.value, e, old(unresolved) == [], old(Books()), old@Emitted(Books()));
      } else {
        NothingApplied(e, old(unresolved) == []);
      }
    }

    lemma NothingApplied(e: Event, nothingParked: bool)
      ensures Applied(None, e, nothingParked, Books())
    {
    }

    lemma AskedThenDispatched(k: TokenKey, e: Event, nothingParked: bool, before: BookSet, asked: BookSet)
      requires Only(k, before, asked) && Asked(k, e.time, before, asked) && Only(k, asked, Books())
      requires e.Trade? || e.token != "" ==> k in tokens && StaysOn(k, asked, Books())
      requires nothingParked && k in tokens ==>
        unresolved == [] && Joined(k, e.time, e.Trade?, asked, Books())
        && (e.Trade? ==> |asked.ledger| < |ledger| && ledger[|asked.ledger|].trade == e)
      ensures Applied(Some(k), e, nothingParked, before)
    {
      hide Only, Joined, Folded;
      OnlyTrans(k, before, asked, Books());
      if nothingParked && k in tokens {
        AskedThenJoined(k, e, before, asked, Books());
      }
    }

    ghost predicate Applied(r: Option<TokenKey>, e: Event, nothingParked: bool, before: BookSet)
      reads `tokens, `life, `ledger, `history, `unresolved
    {
      Applies(r, e, nothingParked, before, Books(), unresolved)
    }

    ghost predicate IsLate(e: Event)
      reads `lastApplied
    {
      lastApplied.Some? && Less(FromCanonical(e), lastApplied.value)
    }

    /** Nothing was applied, marked or counted. */
    twostate predicate Untouched()
      reads this
    {
      && Books() == old(Books()) && unresolved == old(unresolved) && lastApplied == old(lastApplied)
         && clock == old(clock)
      && pending == old(pending) && lateEvents == old(lateEvents) && rebuilds == old(rebuilds)
         && evictions == old(evictions)
      && dropped == old(dropped) && displaced == old(displaced)
    }

    /** Everything that waited was dropped and counted late, and every token it names is marked for rebuild. */
    twostate predicate BufferDropped()
      reads this
    {
      && dropped == old(dropped) + old(Buffered()) && lateEvents == old(lateEvents) + |old(reorder)|
      && pending == old(pending) + MarksAt(old(reorder), old(reorder).Keys)
    }

    /** A buffered event before the last applied one: dropped, and its token marked for rebuild. */
    method DropLate(entry: StateOrder)
      requires Valid() && entry in reorder && Behind(entry, lastApplied)
      modifies `reorder, `lateEvents, `dropped, `pending
      ensures Valid() && |reorder| < |old(reorder)|
      ensures Settled(Tallied(), EmptyingOf(reorder, lastApplied))
        == Settled(old(Tallied()), EmptyingOf(old(reorder), lastApplied))
      ensures old(BufferLate()) ==> BufferLate()
    {
      hide BooksOk, IndexOk, Modest, NormalKey, NoneStuck, Held, EmptyingOf, Filed, Settled, OneTrade, MarkOf, Behind;
      var e := reorder[entry];
      SettleLate(Tallied(), reorder, entry, lastApplied);
      reorder := reorder - {entry};
      lateEvents := lateEvents + 1;
      dropped := dropped + OneTrade(e);
      pending := pending + MarkOf(e);
    }

    /** The first buffered event, not before the last applied one: applied. */
    method ApplyTimely(entry: StateOrder)
      requires Valid() && entry in reorder && !Behind(entry, lastApplied) && forall p :: p in reorder ==>
        !Less(p, entry)
      modifies this
      ensures Valid() && |reorder| < |old(reorder)| && displaced == old(displaced) && rebuilds == old(rebuilds)
      ensures Settled(Tallied(), EmptyingOf(reorder, lastApplied))
        == Settled(old(Tallied()), EmptyingOf(old(reorder), old(lastApplied)))
    {
      hide BooksOk, IndexOk, Modest, NormalKey, NoneStuck, Less, Held, EmptyingOf, Filed, Settled, OneTrade, Behind,
        Applied, Books;
      var e := reorder[entry];
      SettleTimely(Tallied(), reorder, entry, lastApplied);
      reorder := reorder - {entry};
      ApplyInOrder(e, entry);
    }

    /** The first buffered event, dropped or applied. */
    method FlushLeast()
      requires Valid() && reorder != map[]
      modifies this
      ensures Valid() && |reorder| < |old(reorder)| && displaced == old(displaced) && rebuilds == old(rebuilds)
      ensures Settled(Tallied(), EmptyingOf(reorder, lastApplied))
        == Settled(old(Tallied()), EmptyingOf(old(reorder), old(lastApplied)))
      ensures old(BufferLate()) ==>
        BufferLate() && SameBooksAs(old(Books()), old(unresolved), old(lastApplied), old(clock))
    {
      hide BooksOk, IndexOk, Modest, NormalKey, NoneStuck, Less, Held, EmptyingOf, Filed, Settled, Tallied, Valid,
        Core, Behind;
      LeastExists(reorder.Keys);
      var entry :| entry in reorder && forall p :: p in reorder ==> !Less(p, entry);
      if Behind(entry, lastApplied) {
        DropLate(entry);
      } else {
        ApplyTimely(entry);
      }
    }

    ghost predicate SameBooksAs(books: BookSet, parked: seq<Event>, last: Option<StateOrder>, time: Time)
      reads this
    {
      Books() == books && unresolved == parked && lastApplied == last && clock == time
    }

    /** The live reorder buffer, emptied in event order: exactly what was before the last applied event is dropped
        and marked for rebuild, and the rest is applied. */
    method FlushReorder()
      requires Valid()
      modifies this
      ensures Valid() && reorder == map[] && displaced == old(displaced) && rebuilds == old(rebuilds)
      ensures Tallied() == Settled(old(Tallied()), EmptyingOf(old(reorder), old(lastApplied)))
      ensures Received() == old(Received()) && AllMarkedSince(old(dropped), old(pending))
      ensures old(BufferLate()) ==> Held() == old(Held())
      ensures old(BufferLate()) ==> SameBooksAs(old(Books()), old(unresolved), old(lastApplied), old(clock))
      ensures old(BufferLate()) ==> BufferDropped()
      ensures old(reorder) == map[] ==> Untouched()
    {
      hide BooksOk, IndexOk, Modest, NormalKey, Only, NoneStuck, Less, Held, EmptyingOf, Filed, Settled, Behind;
      while reorder != map[]
        invariant Valid() && displaced == old(displaced) && rebuilds == old(rebuilds)
        invariant Settled(Tallied(), EmptyingOf(reorder, lastApplied))
          == Settled(old(Tallied()), EmptyingOf(old(reorder), old(lastApplied)))
        invariant old(BufferLate()) ==>
          BufferLate() && SameBooksAs(old(Books()), old(unresolved), old(lastApplied), old(clock))
        invariant old(reorder) == map[] ==> reorder == map[] && Untouched()
        decreases |reorder|
      {
        FlushLeast();
      }
      SettleEmpty(Tallied(), lastApplied);
      FlushedAll(old(Tallied()), old(reorder), old(lastApplied));
      if old(BufferLate()) {
        SettledAllLate(old(Tallied()), old(reorder), old(lastApplied));
      }
    }

    lemma FlushedAll(t: Tally, m: map<StateOrder, Event>, last: Option<StateOrder>)
      requires Tallied() == Settled(t, EmptyingOf(m, last)) && Filed(m) && reorder == map[]
      ensures Held() + Buffered() + dropped == t.held + multiset(TradesAt(m, m.Keys)) + t.dropped
      ensures AllMarkedSince(t.dropped, t.marks)
      ensures (forall o :: o in m ==> Behind(o, last)) ==> Held() == t.held
    {
      hide Held, KeyOf, Behind, EmptyingOf, Settled, Filed;
      SettledBags(t, m, last);
      assert Buffered() == multiset{};
    }

    /** A late event of a live stream waits in the buffer, which is emptied when it is over its limit. */
    method BufferLive(e: Event)
      requires Valid() && !replay && IsLate(e)
      modifies this
      ensures Valid() && displaced == old(displaced) + Overwritten(old(reorder), e) && rebuilds == old(rebuilds)
      ensures Received() == old(Received()) + OneTrade(e) && AllMarkedSince(old(dropped), old(pending))
      ensures old(BufferLate()) ==>
        BufferLate() && Held() == old(Held()) && Books() == old(Books()) && unresolved == old(unresolved)
          && lastApplied == old(lastApplied) && clock == old(clock)
      ensures reorder == Refiled(old(reorder), e)
    {
      hide BooksOk, IndexOk, Modest, NormalKey, NoneStuck, Less, Held, EmptyingOf, KeyOf, FromCanonical, Filed,
        TradesAt, Overwritten, OneTrade, Settled;
      var order := FromCanonical(e);
      FiledBags(Held(), dropped, displaced, reorder, e);
      displaced := displaced + Overwritten(reorder, e);
      reorder := reorder[order := e];
      assert Received() == old(Received()) + OneTrade(e);
      assert old(BufferLate()) ==> BufferLate();
      if |reorder| > REORDER_LIMIT {
        FlushReorder();
      }
    }

    /** Every trade dropped since then names no token, or its token is marked. */
    ghost predicate AllMarkedSince(before: multiset<Event>, marks: set<TokenKey>)
      reads `dropped, `pending
    {
      && before <= dropped && marks <= pending
      && forall x :: x in dropped - before && KeyOf(x).Some? ==> KeyOf(x).value in pending
    }

    /** An event not before the last applied one is applied; in replay a late event changes nothing but the rebuild
        marks; live, a late event waits in the buffer, and since everything there is late, nothing in it is ever
        applied. No trade is lost, unless one of the same order is displaced in the buffer. */
    method PushEvent(e: Event)
      requires Valid()
      modifies this
      ensures Valid()
      ensures Received() == old(Received()) + OneTrade(e) && AllMarkedSince(old(dropped), old(pending))
      ensures displaced == if !replay && old(IsLate(e)) then old(displaced) + Overwritten(old(reorder), e)
        else old(displaced)
      ensures reorder == if !old(IsLate(e)) || replay then map[] else Refiled(old(reorder), e)
      ensures old(BufferLate()) ==>
        && BufferLate() && Held() == (if old(IsLate(e)) then old(Held()) else old(Held()) + OneTrade(e))
        && lastApplied == if old(IsLate(e)) then old(lastApplied) else Some(FromCanonical(e))
      ensures old(BufferLate()) && old(IsLate(e)) ==> Books() == old(Books()) && unresolved == old(unresolved)
      ensures old(reorder) == map[] && !old(IsLate(e)) ==>
        pending == old(pending) && lateEvents == old(lateEvents) && dropped == old(dropped)
      ensures old(BufferLate()) && !old(IsLate(e)) ==>
        && rebuilds == old(rebuilds) && BufferDropped()
        && Applied(old(Target(byCurve, byPool, e)), e, old(unresolved) == [], old(Books()))
        && (KeyOf(e).Some? ==> var k := KeyOf(e).value;
              k in tokens && OnlyToken(k) && StaysOn(k, old(Books()), Books())
              && (old(unresolved) == [] ==> unresolved == [] && Folded(k, e, old(Books()), Books())))
      ensures replay && old(IsLate(e)) ==>
        && Books() == old(Books()) && unresolved == old(unresolved) && lastApplied == old(lastApplied)
        && lateEvents == old(lateEvents) + 1 && rebuilds == old(rebuilds)
        && pending == old(pending) + if KeyOf(e).Some? then {KeyOf(e).value} else {}
    {
      hide BooksOk, IndexOk, Modest, NormalKey, NoneStuck, Less, Held, KeyOf, FromCanonical, Target, Filed,
        Overwritten, Applies, Only, StaysOn, Folded, Received, Buffered, OneTrade, MarksAt;
      if lastApplied.Some? && Less(FromCanonical(e), lastApplied.value) {
        if replay {
          DropReplayed(e);
          return;
        }
        BufferLive(e);
        return;
      }
      PushOnTime(e);
      if old(BufferLate()) && KeyOf(e).Some? {
        AppliesToItsKey(old(byCurve), old(byPool), e, old(unresolved) == [], old(Books()), Books(), unresolved);
      }
    }

    method DropReplayed(e: Event)
      requires Valid() && replay
      modifies `lateEvents, `dropped, `pending
      ensures Valid() && dropped == old(dropped) + OneTrade(e) && lateEvents == old(lateEvents) + 1
      ensures pending == old(pending) + if KeyOf(e).Some? then {KeyOf(e).value} else {}
      ensures Received() == old(Received()) + OneTrade(e) && AllMarkedSince(old(dropped), old(pending))
    {
      hide Core, NoneStuck, Held, KeyOf, Buffered, OneTrade;
      MoreDropped(Held() + Buffered(), OneTrade(e), dropped, displaced);
      lateEvents := lateEvents + 1;
      dropped := dropped + OneTrade(e);
      if KeyOf(e).Some? {
        pending := pending + {KeyOf(e).value};
      }
      MarksDropped(old(dropped), e);
    }

    lemma MarksDropped(before: multiset<Event>, e: Event)
      requires dropped == before + OneTrade(e) && (KeyOf(e).Some? ==> KeyOf(e).value in pending)
      ensures before <= dropped && forall x :: x in dropped - before && KeyOf(x).Some? ==> KeyOf(x).value in pending
    {
      hide KeyOf;
      assert dropped - before == OneTrade(e);
    }

    method PushOnTime(e: Event)
      requires Valid() && !IsLate(e)
      modifies this
      ensures Valid() && displaced == old(displaced) && reorder == map[]
      ensures Received() == old(Received()) + OneTrade(e) && AllMarkedSince(old(dropped), old(pending))
      ensures rebuilds == old(rebuilds)
      ensures old(reorder) == map[] ==>
        pending == old(pending) && lateEvents == old(lateEvents) && dropped == old(dropped)
      ensures old(BufferLate()) ==>
        && BufferLate() && BufferDropped()
        && Held() == old(Held()) + OneTrade(e) && lastApplied == Some(FromCanonical(e))
        && Applied(old(Target(byCurve, byPool, e)), e, old(unresolved) == [], old(Books()))
    {
      hide BooksOk, IndexOk, Modest, NormalKey, Only, NoneStuck, Less, Folded, Held, KeyOf, FromCanonical, Target,
        Filed, Buffered, OneTrade, Applies, StaysOn, MarksAt;
      ApplyInOrder(e, FromCanonical(e));
      MoreHeld(old(Held()), OneTrade(e), Buffered(), dropped, displaced);
      StillLate(old(reorder), old(lastApplied), FromCanonical(e));
      FlushReorder();
    }

    lemma MoreDropped(h: multiset<Event>, one: multiset<Event>, d: multiset<Event>, x: multiset<Event>)
      ensures h + (d + one) + x == h + d + x + one
    {
    }

    lemma MoreHeld(h: multiset<Event>, one: multiset<Event>, b: multiset<Event>, d: multiset<Event>, x: multiset<Event>)
      ensures (h + one) + b + d + x == h + b + d + x + one
    {
    }

    method TakeSnapshots() returns (out: seq<Snapshot>)
      modifies `buffer
      ensures out == old(buffer) && buffer == []
    {
      out := buffer;
      buffer := [];
    }

    method PendingRebuilds() returns (keys: set<TokenKey>)
      modifies `pending
      ensures keys == old(pending) && pending == {}
    {
      keys := pending;
      pending := {};
    }

    // -------------------------------------------------------------- rebuilding a token

    /** The token is forgotten, with every index entry pointing to it, and the event order starts over. */
    method Forget(key: TokenKey)
      requires Valid()
      modifies `tokens, `byCurve, `byPool, `lastApplied, `reorder, `displaced
      ensures displaced == old(displaced) + old(Buffered()) && BufferLate()
      ensures byCurve == Without(old(byCurve), key) && byPool == Without(old(byPool), key)
      ensures Valid() && OnlyToken(key) && Current(key, Books()) == [] && key !in tokens
      ensures lastApplied == None && reorder == map[] && life == old(life) && ledger == old(ledger)
        && history == old(history)
    {
      hide Core, Only, NoneStuck, Current, Buffered, Books, BufferLate;
      ForgetState(key);
      ForgetIndexes(key);
      StartOver();
    }

    method ForgetIndexes(key: TokenKey)
      requires Valid()
      modifies `byCurve, `byPool
      ensures Valid() && byCurve == Without(old(byCurve), key) && byPool == Without(old(byPool), key)
    {
      hide BooksOk, IndexOk, Modest, NormalKey, NoneStuck, Without, Filed;
      IndexForget(unresolved, byCurve, byPool, key);
      byCurve := Without(byCurve, key);
      byPool := Without(byPool, key);
    }

    /** The event order starts over, and what was buffered is gone. */
    method StartOver()
      requires Valid()
      modifies `lastApplied, `reorder, `displaced
      ensures Valid() && lastApplied == None && reorder == map[] && BufferLate()
      ensures displaced == old(displaced) + old(Buffered())
    {
      hide BooksOk, IndexOk, Modest, NormalKey, NoneStuck, Buffered, Filed;
      lastApplied := None;
      displaced := displaced + Buffered();
      reorder := map[];
      NothingFiled();
    }

    method ForgetState(key: TokenKey)
      requires Core()
      modifies `tokens
      ensures Core() && OnlyToken(key) && Current(key, Books()) == [] && tokens == old(tokens) - {key}
    {
      hide BooksOk, IndexOk, Modest, NormalKey, Only, Current, Filed;
      BooksForget(schedule, key, Books());
      tokens := tokens - {key};
    }

    /** Nothing is parked, and the token holds exactly these trades. */
    ghost predicate Holds(key: TokenKey, want: seq<Event>)
      reads `tokens, `life, `ledger, `history, `unresolved
    {
      unresolved == [] && Current(key, Books()) == want
    }

    method ApplyRebuilt(key: TokenKey, e: Event, ghost want: seq<Event>) returns (taken: seq<Snapshot>)
      requires Valid() && KeyOf(e) == Some(key) && reorder == map[] && !IsLate(e)
      modifies this
      ensures Valid() && OnlyToken(key) && reorder == map[] && lastApplied == Some(FromCanonical(e)) && key in tokens
      ensures pending == old(pending) && lateEvents == old(lateEvents) && rebuilds == old(rebuilds)
      ensures dropped == old(dropped) && displaced == old(displaced)
      ensures Held() == old(Held()) + OneTrade(e) && StaysOn(key, old(Books()), Books())
      ensures old(Holds(key, want)) ==> Holds(key, want + if e.Trade? then [e] else [])
    {
      hide BooksOk, IndexOk, Modest, NormalKey, Only, NoneStuck, Less, Folded, Held, FromCanonical, Current, KeyOf,
        StaysOn, Received, OneTrade, Overwritten, AllMarkedSince;
      BoundsHold();
      PushEvent(e);
      if old(unresolved) == [] {
        FoldedCurrent(key, e, old(Books()), Books());
      }
      taken := TakeSnapshots();
    }

    /** Rebuilding a token from its own events replaces its trades by theirs, in event order, and leaves every
        other token alone; nothing is lost from the parked trades, which the rebuild may fold into the token, and
        nothing comes out late. What was waiting in the reorder buffer is gone. */
    method RebuildToken(key: TokenKey, events: seq<Event>) returns (out: seq<Snapshot>)
      requires Valid() && forall i :: 0 <= i < |events| ==> KeyOf(events[i]) == Some(key)
      modifies this
      ensures Valid() && OnlyToken(key) && pending == old(pending) && lateEvents == old(lateEvents)
      ensures rebuilds == old(rebuilds) + 1 && (key in tokens <==> events != [])
      ensures dropped == old(dropped) && displaced == old(displaced) + old(Buffered()) && BufferLate()
      ensures Held() == old(Held()) + multiset(TradesOnly(SortEvents(events)))
      ensures events != [] ==>
        multiset(Current(key, Books())) + multiset(unresolved)
          == multiset(old(unresolved)) + multiset(TradesOnly(SortEvents(events)))
      ensures old(unresolved) == [] ==> Holds(key, TradesOnly(SortEvents(events)))
    {
      hide Valid, Only, Less, Held, SortEvents, Current, KeyOf, TradesOnly, StaysOn, Buffered, Books, BufferLate, Holds;
      rebuilds := rebuilds + 1;
      Forget(key);
      label Forgotten:
      out := ReplaySorted(key, events);
      OnlyTrans(key, old(Books()), old@Forgotten(Books()), Books());
    }

    /** On the way through a token's own events, sorted: the first `i` of them are in. */
    ghost predicate Replayed(key: TokenKey, sorted: seq<Event>, i: nat, books: BookSet, parked: seq<Event>,
        held: multiset<Event>)
      requires i <= |sorted|
      reads this
    {
      && Only(key, books, Books()) && reorder == map[] && (key in tokens <==> i > 0)
      && (if i == 0 then lastApplied == None && Books() == books
          else lastApplied == Some(FromCanonical(sorted[i - 1])) && StaysOn(key, books, Books()))
      && (parked == [] ==> Holds(key, TradesUpTo(sorted, i))) && Held() == held + multiset(TradesUpTo(sorted, i))
    }

    method ReplayNext(key: TokenKey, sorted: seq<Event>, i: nat, ghost books: BookSet, ghost parked: seq<Event>,
        ghost held: multiset<Event>) returns (taken: seq<Snapshot>)
      requires i < |sorted| && Valid() && Replayed(key, sorted, i, books, parked, held)
      requires KeyOf(sorted[i]) == Some(key)
      requires i > 0 ==> !Less(FromCanonical(sorted[i]), FromCanonical(sorted[i - 1]))
      modifies this
      ensures Valid() && Replayed(key, sorted, i + 1, books, parked, held)
      ensures pending == old(pending) && lateEvents == old(lateEvents) && rebuilds == old(rebuilds)
      ensures dropped == old(dropped) && displaced == old(displaced)
    {
      hide BooksOk, IndexOk, Modest, NormalKey, Only, NoneStuck, Less, Held, Core, FromCanonical, Current, KeyOf,
        TradesUpTo, Holds, IsLate, Books, StaysOn, OneTrade, Valid;
      var e := sorted[i];
      NotLate(e);
      taken := ApplyRebuilt(key, e, TradesUpTo(sorted, i));
      OnlyTrans(key, books, old(Books()), Books());
      TradesUpToStep(sorted, i);
      HeldStep(held, TradesUpTo(sorted, i), e);
      if i > 0 {
        StaysOnTrans(key, books, old(Books()), Books());
      }
    }

    method ReplaySorted(key: TokenKey, events: seq<Event>) returns (out: seq<Snapshot>)
      requires Valid() && forall i :: 0 <= i < |events| ==> KeyOf(events[i]) == Some(key)
      requires lastApplied == None && reorder == map[] && key !in tokens && Current(key, Books()) == []
      modifies this
      ensures Valid() && OnlyToken(key)
      ensures pending == old(pending) && lateEvents == old(lateEvents) && rebuilds == old(rebuilds)
      ensures key in tokens <==> events != []
      ensures dropped == old(dropped) && displaced == old(displaced) && BufferLate()
      ensures Held() == old(Held()) + multiset(TradesOnly(SortEvents(events)))
      ensures events != [] ==>
        multiset(Current(key, Books())) + multiset(unresolved)
          == multiset(old(unresolved)) + multiset(TradesOnly(SortEvents(events)))
      ensures old(unresolved) == [] ==> Holds(key, TradesOnly(SortEvents(events)))
    {
      hide BooksOk, IndexOk, Modest, NormalKey, Only, NoneStuck, Less, Held, Core, FromCanonical, SortEvents, Current,
        KeyOf, TradesOnly, TradesUpTo, Holds, Books, StaysOn, OneTrade, Valid, Behind;
      var sorted := SortEvents(events);
      SortedLength(events);
      ghost var books, parked, held := Books(), unresolved, Held();
      OnlyNothing(key, books, books);
      TradesUpToEnds(sorted);
      HoldsNothing(key);
      HeldIs();
      assert Replayed(key, sorted, 0, books, parked, held);
      out := [];
      var i := 0;
      while i < |sorted|
        invariant 0 <= i <= |sorted| && Valid() && Replayed(key, sorted, i, books, parked, held)
        invariant pending == old(pending) && lateEvents == old(lateEvents) && rebuilds == old(rebuilds)
        invariant dropped == old(dropped) && displaced == old(displaced)
      {
        SortedStep(events, i, key);
        var taken := ReplayNext(key, sorted, i, books, parked, held);
        out := out + taken;
        i := i + 1;
      }
      if events != [] {
        BegunNow(key, books, parked, held, multiset(TradesOnly(sorted)));
      }
    }

    lemma HeldIs()
      ensures Held() == multiset(Trades(Books().ledger)) + multiset(unresolved) && Books().tokens == tokens
    {
    }

    lemma BegunNow(key: TokenKey, a: BookSet, parked: seq<Event>, held: multiset<Event>, trades: multiset<Event>)
      requires Only(key, a, Books()) && StaysOn(key, a, Books()) && key !in a.tokens
      requires held == multiset(Trades(a.ledger)) + multiset(parked) && Held() == held + trades
      ensures multiset(Current(key, Books())) + multiset(unresolved) == multiset(parked) + trades
    {
      hide Only, StaysOn, Current;
      BegunBag(key, a, Books(), parked, unresolved, trades);
    }

    lemma HeldStep(held: multiset<Event>, s: seq<Event>, e: Event)
      ensures held + multiset(s) + OneTrade(e) == held + multiset(s + if e.Trade? then [e] else [])
    {
    }

    lemma HoldsNothing(key: TokenKey)
      requires Current(key, Books()) == []
      ensures unresolved == [] ==> Holds(key, [])
    {
    }

    lemma NotLate(e: Event)
      requires lastApplied.Some? ==> !Less(FromCanonical(e), lastApplied.value)
      ensures !IsLate(e)
    {
    }

    lemma BoundsHold()
      requires Core()
      ensures forall k :: k in life ==> life[k].from <= |ledger| && life[k].born <= |history|
      ensures tokens.Keys <= life.Keys
    {
      BooksBounds(schedule, Books());
    }

    // -------------------------------------------------------------- ticks and eviction

    method MaybeEvict(key: TokenKey, now: Time)
      requires Core() && key in tokens && key in life
      modifies `tokens, `life, `evictions
      ensures Core() && OnlyToken(key) && key in life
      ensures var st := old(tokens)[key]; var age := Saturate(now - st.discoveredAt);
        tokens == if age >= memory.cold then old(tokens) - {key}
                  else if age >= memory.hot && st.tier.Hot? then old(tokens)[key := Warmed(st)] else old(tokens)
      ensures key !in tokens <==> Saturate(now - old(tokens)[key].discoveredAt) >= memory.cold
      ensures evictions == old(evictions) + if key in tokens then 0 else 1
      ensures life[key] == old(life)[key].(warmAfter := life[key].warmAfter)
      ensures life[key].warmAfter == old(life)[key].warmAfter
        || (life[key].warmAfter == Some(old(life)[key].latest)
            && Saturate(now - old(tokens)[key].discoveredAt) >= memory.hot)
    {
      hide IndexOk, Modest, NormalKey, Only, BooksOk, Current;
      OnlyNothing(key, Books(), Books());
      var age := Saturate(now - tokens[key].discoveredAt);
      if age >= memory.cold {
        BooksForget(schedule, key, Books());
        tokens := tokens - {key};
        evictions := evictions + 1;
      } else if age >= memory.hot && tokens[key].tier.Hot? {
        GoWarm(key);
      }
    }

    method GoWarm(key: TokenKey)
      requires Core() && key in tokens && key in life && tokens[key].tier.Hot?
      modifies `tokens, `life
      ensures Core() && OnlyToken(key)
      ensures tokens == old(tokens)[key := Warmed(old(tokens)[key])]
      ensures life == old(life)[key := old(life)[key].(warmAfter := Some(old(life)[key].latest))]
    {
      hide IndexOk, Modest, NormalKey, Only, BooksOk, Warmed;
      BooksWarm(schedule, key, tokens, life, ledger, history);
      tokens := tokens[key := Warmed(tokens[key])];
      life := life[key := life[key].(warmAfter := Some(life[key].latest))];
      OnlyUpdate(key, old(Books()), Books(), tokens[key], life[key]);
    }

    method TickOne(key: TokenKey, until: Time)
      requires Core() && key in tokens
      modifies `tokens, `life, `history, `buffer, `evictions
      ensures Core() && OnlyToken(key) && Ticked(key, until, memory, old(Books()), Books())
      ensures Books().ledger == old(Books()).ledger
    {
      hide BooksOk, IndexOk, Modest, NormalKey, Only, Asked, Current, Ticked;
      EmitDue(key, until);
      AskedKeepsKeys(key, until, old(Books()), Books());
      KeptShape(schedule, key, tokens, life, ledger, history, until);
      label Emitted:
      MaybeEvict(key, until);
      OnlyTrans(key, old(Books()), old@Emitted(Books()), Books());
      AskedThenEvicted(key, until, memory, old(Books()), old@Emitted(Books()), Books());
    }

    /** Advances the clock: every token's due snapshots are emitted before it can be evicted. */
    method FinishUntil(until: Time) returns (out: seq<Snapshot>)
      requires Valid()
      modifies this
      ensures Valid() && TickedAllBut({}, until, memory, old(Books()), Books())
      ensures unresolved == old(unresolved) && pending == old(pending) && lastApplied == old(lastApplied)
      ensures reorder == old(reorder) && dropped == old(dropped) && displaced == old(displaced)
    {
      hide Core, TickedAllBut, NoneStuck, Books;
      clock := Later(until, clock);
      TickAll(until);
      out := TakeSnapshots();
    }

    method TickAll(until: Time)
      requires Core()
      modifies `tokens, `life, `history, `buffer, `evictions
      ensures Core() && TickedAllBut({}, until, memory, old(Books()), Books())
    {
      hide BooksOk, IndexOk, Modest, NormalKey, Only, Current, Ticked, TickedAllBut, Books, Filed;
      var todo := tokens.Keys;
      BoundsHold();
      TickNothing(until);
      while todo != {}
        invariant Core() && TickedAllBut(todo, until, memory, old(Books()), Books())
        decreases |todo|
      {
        var key :| key in todo;
        TodoIsThere(todo, key, until, old(Books()));
        label Step:
        TickOne(key, until);
        TickOneMore(todo, key, until, memory, old(Books()), old@Step(Books()), Books());
        todo := todo - {key};
      }
    }

    lemma TickNothing(until: Time)
      requires tokens.Keys <= life.Keys
      ensures TickedAllBut(tokens.Keys, until, memory, Books(), Books())
    {
      TickedNothing(until, memory, Books());
    }

    lemma TodoIsThere(todo: set<TokenKey>, k: TokenKey, until: Time, a: BookSet)
      requires TickedAllBut(todo, until, memory, a, Books()) && k in todo
      ensures k in tokens
    {
      StillThere(todo, k, until, memory, a, Books());
    }
  }
}
