/** Whole runs of the engine: what its books are after any arrival order, with rebuilds anywhere in between, and
    where every trade of any stream goes, in replay and live. */
module Replay {
  import opened Amounts
  import opened Schedule
  import opened Domain
  import opened Rolling
  import opened TokenBooks
  import opened EngineBooks
  import opened StateEngine

  // ---------------------------------------------------------------- a token's own events and trades

  function EventsOf(s: seq<Event>, k: TokenKey): seq<Event> {
    if s == [] then []
    else EventsOf(s[..|s| - 1], k) + if KeyOf(s[|s| - 1]) == Some(k) then [s[|s| - 1]] else []
  }

  /** The trades of a token among some events, in their order. */
  function TradesOf(s: seq<Event>, k: TokenKey): seq<Event> {
    TradesOnly(EventsOf(s, k))
  }

  function TickList(s: seq<Event>): seq<TradeTick>
    requires forall i :: 0 <= i < |s| ==> s[i].Trade?
  {
    seq(|s|, i requires 0 <= i < |s| => TickOf(s[i]))
  }

  lemma {:induction false} TradesOnlyAreTrades(s: seq<Event>)
    ensures forall i :: 0 <= i < |TradesOnly(s)| ==> TradesOnly(s)[i].Trade?
  {
    if s != [] {
      TradesOnlyAreTrades(s[..|s| - 1]);
    }
  }

  lemma EventsAppend(s: seq<Event>, k: TokenKey, e: Event)
    ensures EventsOf(s + [e], k) == EventsOf(s, k) + if KeyOf(e) == Some(k) then [e] else []
    ensures TradesOf(s + [e], k) == TradesOf(s, k) + if KeyOf(e) == Some(k) && e.Trade? then [e] else []
  {
    assert (s + [e])[..|s|] == s;
    TradesAppend(EventsOf(s, k), e);
    assert EventsOf(s, k) + [] == EventsOf(s, k);
    assert TradesOf(s, k) + [] == TradesOf(s, k);
  }

  lemma TradesAppend(s: seq<Event>, e: Event)
    ensures TradesOnly(s + [e]) == TradesOnly(s) + if e.Trade? then [e] else []
  {
    assert (s + [e])[..|s|] == s;
  }

  lemma {:induction false} EventsAreOf(s: seq<Event>, k: TokenKey)
    ensures forall i :: 0 <= i < |EventsOf(s, k)| ==> KeyOf(EventsOf(s, k)[i]) == Some(k)
  {
    if s != [] {
      EventsAreOf(s[..|s| - 1], k);
    }
  }

  lemma {:induction false} CountEvents(s: seq<Event>, k: TokenKey, e: Event)
    ensures multiset(EventsOf(s, k))[e] == if KeyOf(e) == Some(k) then multiset(s)[e] else 0
  {
    if s != [] {
      CountEvents(s[..|s| - 1], k, e);
      assert s == s[..|s| - 1] + [s[|s| - 1]];
    }
  }

  lemma {:induction false} CountTrades(s: seq<Event>, e: Event)
    ensures multiset(TradesOnly(s))[e] == if e.Trade? then multiset(s)[e] else 0
  {
    if s != [] {
      CountTrades(s[..|s| - 1], e);
      assert s == s[..|s| - 1] + [s[|s| - 1]];
    }
  }

  lemma EventsIgnoreOrder(s: seq<Event>, t: seq<Event>, k: TokenKey)
    requires multiset(s) == multiset(t)
    ensures multiset(EventsOf(s, k)) == multiset(EventsOf(t, k))
  {
    forall e ensures multiset(EventsOf(s, k))[e] == multiset(EventsOf(t, k))[e] {
      CountEvents(s, k, e);
      CountEvents(t, k, e);
    }
  }

  lemma TradesIgnoreOrder(s: seq<Event>, t: seq<Event>)
    requires multiset(s) == multiset(t)
    ensures multiset(TradesOnly(s)) == multiset(TradesOnly(t))
  {
    forall e ensures multiset(TradesOnly(s))[e] == multiset(TradesOnly(t))[e] {
      CountTrades(s, e);
      CountTrades(t, e);
    }
  }

  lemma WithoutOne<T>(s: seq<T>, i: nat) returns (rest: seq<T>)
    requires i < |s|
    ensures rest == s[..i] + s[i + 1..] && multiset(s) == multiset(rest) + multiset{s[i]}
    ensures multiset(rest) == multiset(s) - multiset{s[i]} && forall x :: x in rest ==> x in s
  {
    rest := s[..i] + s[i + 1..];
    assert s == s[..i] + [s[i]] + s[i + 1..];
  }

  lemma TickTaken(t: seq<Event>, i: nat, rest: seq<Event>)
    requires i < |t| && rest == t[..i] + t[i + 1..] && forall i :: 0 <= i < |t| ==> t[i].Trade?
    ensures forall i :: 0 <= i < |rest| ==> rest[i].Trade?
    ensures multiset(TickList(t)) == multiset(TickList(rest)) + multiset{TickOf(t[i])}
  {
    hide TickOf;
    var ticks := WithoutOne(TickList(t), i);
    assert ticks == TickList(rest);
  }

  lemma {:induction false} TicksIgnoreOrder(s: seq<Event>, t: seq<Event>)
    requires forall i :: 0 <= i < |s| ==> s[i].Trade?
    requires forall i :: 0 <= i < |t| ==> t[i].Trade?
    requires multiset(s) == multiset(t)
    ensures multiset(TickList(s)) == multiset(TickList(t))
  {
    hide TickOf, TickList;
    assert |multiset(t)| == |t| && |multiset(s)| == |s|;
    if s == [] {
      assert t == s;
    } else {
      assert s[0] in multiset(s);
      var i :| 0 <= i < |t| && t[i] == s[0];
      var u := WithoutOne(t, i);
      var v := WithoutOne(s, 0);
      TickTaken(s, 0, v);
      TickTaken(t, i, u);
      TicksIgnoreOrder(v, u);
    }
  }

  lemma TickAppend(s: seq<Event>, e: Event)
    requires e.Trade? && forall i :: 0 <= i < |s| ==> s[i].Trade?
    ensures TickList(s + [e]) == TickList(s) + [TickOf(e)]
  {
  }

  lemma {:induction false} LedgerTicks(ledger: seq<Entry>, from: nat, k: TokenKey)
    requires forall i :: 0 <= i < |ledger| ==> EntryOk(ledger[i])
    ensures forall i :: 0 <= i < |TradesIn(ledger, from, k)| ==> TradesIn(ledger, from, k)[i].Trade?
    ensures Plains(TicksIn(ledger, from, k)) == TickList(TradesIn(ledger, from, k))
  {
    hide TickOf, Plain;
    if |ledger| > from {
      var front, last := ledger[..|ledger| - 1], ledger[|ledger| - 1];
      LedgerTicks(front, from, k);
      assert EntryOk(last);
      assert TicksIn(front, from, k) + [] == TicksIn(front, from, k);
      assert TradesIn(front, from, k) + [] == TradesIn(front, from, k);
      if last.key == k {
        TickAppend(TradesIn(front, from, k), last.trade);
        assert Plains(TicksIn(front, from, k) + [last.tick]) == Plains(TicksIn(front, from, k)) + [Plain(last.tick)];
      }
    }
  }

  lemma PlainTwice(s: seq<Event>)
    requires forall i :: 0 <= i < |s| ==> s[i].Trade?
    ensures Plains(TickList(s)) == TickList(s)
  {
  }

  // ---------------------------------------------------------------- convergence

  /** The fold over some events' trades, whatever order they are in. */
  ghost predicate IsFoldOf(a: Aggregate, own: seq<Event>) {
    TradesOnlyAreTrades(own);
    AggMatches(a, TickList(TradesOnly(own)))
  }

  /** The fold over a token's trades among these events. */
  ghost predicate Converged(a: Aggregate, s: seq<Event>, k: TokenKey) {
    IsFoldOf(a, EventsOf(s, k))
  }

  /** The token's current trades are exactly those seen. */
  ghost predicate CaughtUp(k: TokenKey, b: BookSet, seen: seq<Event>) {
    (k in b.tokens <==> EventsOf(seen, k) != []) && Current(k, b) == TradesOf(seen, k)
  }

  /** Every token not marked for rebuild holds exactly its trades. */
  ghost predicate Caught(pending: set<TokenKey>, b: BookSet, seen: seq<Event>) {
    forall k :: k !in pending ==> CaughtUp(k, b, seen)
  }

  /** The token's current trades are those of these events of its own, in some order. */
  ghost predicate Agrees(k: TokenKey, b: BookSet, own: seq<Event>) {
    (k in b.tokens <==> own != []) && multiset(Current(k, b)) == multiset(TradesOnly(own))
  }

  lemma CaughtNothing(b: BookSet)
    requires b.tokens == map[]
    ensures Caught({}, b, [])
  {
  }

  lemma CaughtLate(pending: set<TokenKey>, b: BookSet, seen: seq<Event>, e: Event)
    requires Caught(pending, b, seen) && KeyOf(e).Some?
    ensures Caught(pending + {KeyOf(e).value}, b, seen + [e])
  {
    hide Current, TradesOf, EventsOf, KeyOf;
    forall k | k !in pending + {KeyOf(e).value} ensures CaughtUp(k, b, seen + [e]) {
      EventsAppend(seen, k, e);
      assert CaughtUp(k, b, seen);
    }
  }

  lemma CaughtFolded(pending: set<TokenKey>, a: BookSet, b: BookSet, seen: seq<Event>, e: Event, k: TokenKey)
    requires Caught(pending, a, seen) && KeyOf(e) == Some(k)
    requires Only(k, a, b) && Folded(k, e, a, b)
    requires forall j :: j in a.life ==> a.life[j].from <= |a.ledger|
    ensures Caught(pending, b, seen + [e])
  {
    FoldedStays(k, e, a, b);
    FoldedCurrent(k, e, a, b);
    forall j | j !in pending ensures CaughtUp(j, b, seen + [e]) {
      OneCaughtFolded(j, a, b, seen, e, k);
    }
  }

  lemma OneCaughtFolded(j: TokenKey, a: BookSet, b: BookSet, seen: seq<Event>, e: Event, k: TokenKey)
    requires CaughtUp(j, a, seen) && KeyOf(e) == Some(k) && Only(k, a, b) && k in b.tokens
    requires Current(k, b) == Current(k, a) + if e.Trade? then [e] else []
    requires forall j :: j in a.life ==> a.life[j].from <= |a.ledger|
    ensures CaughtUp(j, b, seen + [e])
  {
    EventsAppend(seen, j, e);
    if j != k {
      OnlyCurrent(k, j, a, b);
    }
    hide Current, TradesOf, EventsOf, KeyOf;
  }

  lemma AgreesFold(sched: SnapshotSchedule, k: TokenKey, b: BookSet, own: seq<Event>)
    requires BooksOk(sched, b.tokens, b.life, b.ledger, b.history) && k in b.tokens
    requires Agrees(k, b, own)
    ensures IsFoldOf(b.tokens[k].agg, own)
  {
    var l := b.life[k];
    assert StateKept(sched, k, b.tokens[k], l, b.ledger, b.history);
    var ticks, trades := TicksIn(b.ledger, l.from, k), TradesOnly(own);
    assert AggMatches(b.tokens[k].agg, ticks);
    hide AggMatches, LifeKept, StateKept, BooksOk, EntryOk;
    LedgerTicks(b.ledger, l.from, k);
    TradesOnlyAreTrades(own);
    TicksIgnoreOrder(Current(k, b), trades);
    PlainTwice(trades);
    AggRetarget(b.tokens[k].agg, ticks, TickList(trades));
  }

  /** Two runs over the same events, in any two arrival orders, end with the same aggregate. */
  lemma ArrivalOrderDoesNotMatter(s: seq<Event>, t: seq<Event>, k: TokenKey, a: Aggregate, b: Aggregate)
    requires multiset(s) == multiset(t) && Converged(a, s, k) && Converged(b, t, k)
    ensures a == b
  {
    hide AggMatches;
    TradesOnlyAreTrades(EventsOf(s, k));
    TradesOnlyAreTrades(EventsOf(t, k));
    EventsIgnoreOrder(s, t, k);
    TradesIgnoreOrder(EventsOf(s, k), EventsOf(t, k));
    TicksIgnoreOrder(TradesOf(s, k), TradesOf(t, k));
    PlainTwice(TradesOf(s, k));
    PlainTwice(TradesOf(t, k));
    AggRetarget(a, TickList(TradesOf(s, k)), TickList(TradesOf(t, k)));
    AggUnique(a, b, TickList(TradesOf(t, k)));
  }

  /** Pushing in any arrival order: at the end, as at every moment on the way, each trade is folded into its
      token or its token is marked for rebuild. */
  method PushAll(engine: StateEngine, arrivals: seq<Event>)
    requires engine.Valid() && engine.replay && engine.tokens == map[] && engine.unresolved == []
      && engine.pending == {}
    requires forall i :: 0 <= i < |arrivals| ==> arrivals[i].token != ""
    modifies engine
    ensures engine.Valid() && engine.unresolved == []
    ensures Caught(engine.pending, engine.Books(), arrivals)
  {
    hide BooksOk, IndexOk, Modest, NormalKey, Only, NoneStuck, Less, FromCanonical, Current, Caught, Folded, EventsOf,
      TradesOf;
    CaughtNothing(engine.Books());
    var i := 0;
    assert arrivals[..0] == [];
    while i < |arrivals|
      invariant 0 <= i <= |arrivals| && engine.Valid() && engine.unresolved == []
      invariant Caught(engine.pending, engine.Books(), arrivals[..i])
    {
      var e := arrivals[i];
      PushOne(engine, e, arrivals[..i]);
      assert arrivals[..i + 1] == arrivals[..i] + [e];
      i := i + 1;
    }
    assert arrivals[..i] == arrivals;
  }

  method PushOne(engine: StateEngine, e: Event, ghost seen: seq<Event>)
    requires engine.Valid() && engine.replay && engine.unresolved == [] && e.token != ""
    requires Caught(engine.pending, engine.Books(), seen)
    modifies engine
    ensures engine.Valid() && engine.unresolved == []
    ensures Caught(engine.pending, engine.Books(), seen + [e])
  {
    hide BooksOk, IndexOk, Modest, NormalKey, Only, NoneStuck, Less, FromCanonical, Current, Caught, Folded, EventsOf,
      TradesOf, NewKey;
    engine.BoundsHold();
    ghost var late := engine.IsLate(e);
    assert engine.reorder == map[];
    engine.PushEvent(e);
    if late {
      CaughtLate(old(engine.pending), engine.Books(), seen, e);
    } else {
      CaughtFolded(engine.pending, old(engine.Books()), engine.Books(), seen, e, KeyOf(e).value);
    }
  }

  // ---------------------------------------------------------------- pushes and rebuilds, interleaved

  /** What the pipeline does to the engine: it pushes an event, takes the keys marked for rebuild, or rebuilds
      one token from what a store has of it. */
  datatype Act = Pushes(event: Event) | Drains | Rebuilds(key: TokenKey, store: seq<Event>)

  function PushedBy(acts: seq<Act>): seq<Event> {
    if acts == [] then []
    else PushedBy(acts[..|acts| - 1]) + if acts[|acts| - 1].Pushes? then [acts[|acts| - 1].event] else []
  }

  function BuiltOn(own: seq<Event>, act: Act, k: TokenKey): seq<Event> {
    match act
    case Pushes(e) => if KeyOf(e) == Some(k) then own + [e] else own
    case Drains => own
    case Rebuilds(key, store) => if key == k then EventsOf(store, k) else own
  }

  /** What a token is built of: what the store had of it at its last rebuild, and its events pushed since. */
  function Built(acts: seq<Act>, k: TokenKey): seq<Event> {
    if acts == [] then [] else BuiltOn(Built(acts[..|acts| - 1], k), acts[|acts| - 1], k)
  }

  predicate Named(acts: seq<Act>) {
    forall n :: 0 <= n < |acts| && acts[n].Pushes? ==> acts[n].event.token != ""
  }

  lemma BuiltStep(acts: seq<Act>, act: Act, k: TokenKey)
    ensures Built(acts + [act], k) == BuiltOn(Built(acts, k), act, k)
    ensures PushedBy(acts + [act]) == PushedBy(acts) + if act.Pushes? then [act.event] else []
  {
    hide BuiltOn;
    assert (acts + [act])[..|acts|] == acts;
  }

  /** Every token not to be rebuilt holds exactly what it is built of. */
  ghost predicate AllBuilt(todo: set<TokenKey>, b: BookSet, acts: seq<Act>) {
    forall k :: k !in todo ==> Agrees(k, b, Built(acts, k))
  }

  lemma BuiltLate(todo: set<TokenKey>, b: BookSet, acts: seq<Act>, e: Event)
    requires AllBuilt(todo, b, acts) && KeyOf(e).Some?
    ensures AllBuilt(todo + {KeyOf(e).value}, b, acts + [Pushes(e)])
  {
    hide Agrees, KeyOf, Built;
    forall k | k !in todo + {KeyOf(e).value} ensures Agrees(k, b, Built(acts + [Pushes(e)], k)) {
      BuiltStep(acts, Pushes(e), k);
    }
  }

  lemma BuiltFolded(todo: set<TokenKey>, a: BookSet, b: BookSet, acts: seq<Act>, e: Event, k: TokenKey)
    requires AllBuilt(todo, a, acts) && KeyOf(e) == Some(k)
    requires Only(k, a, b) && Folded(k, e, a, b)
    requires forall j :: j in a.life ==> a.life[j].from <= |a.ledger|
    ensures AllBuilt(todo, b, acts + [Pushes(e)])
  {
    FoldedStays(k, e, a, b);
    FoldedCurrent(k, e, a, b);
    hide KeyOf, Built, Agrees, Only, Folded, Current;
    forall j | j !in todo ensures Agrees(j, b, Built(acts + [Pushes(e)], j)) {
      BuiltStep(acts, Pushes(e), j);
      assert Agrees(j, a, Built(acts, j));
      OneFolded(j, a, b, Built(acts, j), e, k);
    }
  }

  lemma OneFolded(j: TokenKey, a: BookSet, b: BookSet, own: seq<Event>, e: Event, k: TokenKey)
    requires Agrees(j, a, own) && KeyOf(e) == Some(k) && Only(k, a, b) && k in b.tokens
    requires Current(k, b) == Current(k, a) + if e.Trade? then [e] else []
    requires forall j :: j in a.life ==> a.life[j].from <= |a.ledger|
    ensures Agrees(j, b, BuiltOn(own, Pushes(e), j))
  {
    hide Current, KeyOf, TradesOnly;
    if j != k {
      OnlyCurrent(k, j, a, b);
      hide Only;
    } else {
      hide Only;
      TradesAppend(own, e);
      SameBags(Current(k, a), TradesOnly(own), if e.Trade? then [e] else []);
    }
  }

  lemma SameBags(s: seq<Event>, t: seq<Event>, more: seq<Event>)
    requires multiset(s) == multiset(t)
    ensures multiset(s + more) == multiset(t + more)
  {
  }

  lemma BuiltDrained(todo: set<TokenKey>, more: set<TokenKey>, b: BookSet, acts: seq<Act>)
    requires AllBuilt(todo, b, acts) && todo <= more
    ensures AllBuilt(more, b, acts + [Drains])
  {
    hide Agrees, Built;
    forall k | k !in more ensures Agrees(k, b, Built(acts + [Drains], k)) {
      BuiltStep(acts, Drains, k);
    }
  }

  lemma BuiltRebuilt(todo: set<TokenKey>, a: BookSet, b: BookSet, acts: seq<Act>, k: TokenKey, store: seq<Event>)
    requires AllBuilt(todo, a, acts) && Only(k, a, b) && Agrees(k, b, EventsOf(store, k))
    requires forall j :: j in a.life ==> a.life[j].from <= |a.ledger|
    ensures AllBuilt(todo - {k}, b, acts + [Rebuilds(k, store)])
  {
    hide Built, Current, EventsOf, TradesOnly;
    forall j | j !in todo - {k} ensures Agrees(j, b, Built(acts + [Rebuilds(k, store)], j)) {
      BuiltStep(acts, Rebuilds(k, store), j);
      if j != k {
        assert Agrees(j, a, Built(acts, j));
        OnlyCurrent(k, j, a, b);
      }
    }
  }

  lemma BuiltMore(todo: set<TokenKey>, more: set<TokenKey>, b: BookSet, acts: seq<Act>)
    requires AllBuilt(todo, b, acts) && todo <= more
    ensures AllBuilt(more, b, acts)
  {
    hide Agrees, Built;
  }

  lemma RebuiltAgrees(k: TokenKey, b: BookSet, own: seq<Event>)
    requires k in b.tokens <==> own != []
    requires Current(k, b) == TradesOnly(SortEvents(own))
    ensures Agrees(k, b, own)
  {
    hide Current;
    SortEventsFacts(own);
    TradesIgnoreOrder(SortEvents(own), own);
  }

  /** One token, rebuilt from whatever the store has of it. */
  method RebuildOne(engine: StateEngine, key: TokenKey, ghost todo: set<TokenKey>, ghost acts: seq<Act>,
      store: seq<Event>)
    requires engine.Valid() && engine.unresolved == []
    requires AllBuilt(todo, engine.Books(), acts)
    modifies engine
    ensures engine.Valid() && engine.unresolved == [] && engine.pending == old(engine.pending)
    ensures AllBuilt(todo - {key}, engine.Books(), acts + [Rebuilds(key, store)])
  {
    hide BooksOk, IndexOk, Modest, NormalKey, Only, NoneStuck, Current, AllBuilt, Agrees, EventsOf, SortEvents,
      TradesOnly, KeyOf;
    engine.BoundsHold();
    var events := EventsOf(store, key);
    EventsAreOf(store, key);
    var out := engine.RebuildToken(key, events);
    RebuiltAgrees(key, engine.Books(), events);
    BuiltRebuilt(todo, old(engine.Books()), engine.Books(), acts, key, store);
  }

  /** One push: the event is folded into its token, or the token is marked. */
  method PushBuilding(engine: StateEngine, e: Event, ghost todo: set<TokenKey>, ghost acts: seq<Act>)
    requires engine.Valid() && engine.replay && engine.unresolved == [] && e.token != ""
    requires AllBuilt(engine.pending + todo, engine.Books(), acts)
    modifies engine
    ensures engine.Valid() && engine.unresolved == []
    ensures AllBuilt(engine.pending + todo, engine.Books(), acts + [Pushes(e)])
  {
    hide BooksOk, IndexOk, Modest, NormalKey, Only, NoneStuck, Less, FromCanonical, Current, AllBuilt, Folded, NewKey;
    engine.BoundsHold();
    ghost var late := engine.IsLate(e);
    assert engine.reorder == map[];
    engine.PushEvent(e);
    if late {
      BuiltLate(old(engine.pending) + todo, engine.Books(), acts, e);
      assert old(engine.pending) + todo + {KeyOf(e).value} == engine.pending + todo;
    } else {
      BuiltFolded(engine.pending + todo, old(engine.Books()), engine.Books(), acts, e, KeyOf(e).value);
    }
  }

  /** One action; `todo` are the keys taken and not yet rebuilt. */
  method ActOne(engine: StateEngine, act: Act, todo: set<TokenKey>, ghost acts: seq<Act>) returns (todo': set<TokenKey>)
    requires engine.Valid() && engine.replay && engine.unresolved == []
    requires AllBuilt(engine.pending + todo, engine.Books(), acts)
    requires act.Pushes? ==> act.event.token != ""
    modifies engine
    ensures engine.Valid() && engine.unresolved == []
    ensures AllBuilt(engine.pending + todo', engine.Books(), acts + [act])
    ensures todo' == match act {
      case Pushes(_) => todo
      case Drains => todo + old(engine.pending)
      case Rebuilds(k, _) => todo - {k}
    }
  {
    hide BooksOk, IndexOk, Modest, NormalKey, Only, NoneStuck, AllBuilt;
    todo' := todo;
    match act
    case Pushes(e) =>
      PushBuilding(engine, e, todo, acts);
    case Drains =>
      var keys := engine.PendingRebuilds();
      todo' := todo + keys;
      BuiltDrained(keys + todo, engine.pending + todo', engine.Books(), acts);
    case Rebuilds(key, store) =>
      RebuildOne(engine, key, engine.pending + todo, acts, store);
      todo' := todo - {key};
      BuiltMore(engine.pending + todo - {key}, engine.pending + todo', engine.Books(), acts + [act]);
  }

  /** Any interleaving of pushes, drains and rebuilds, whatever the store has at each: at its end, as at every moment
      on the way, every token neither marked nor waiting for its rebuild holds exactly what the store had of it at
      its last rebuild and what was pushed for it since. */
  method Interleave(engine: StateEngine, acts: seq<Act>) returns (todo: set<TokenKey>)
    requires engine.Valid() && engine.replay && engine.unresolved == [] && engine.tokens == map[]
      && engine.pending == {}
    requires Named(acts)
    modifies engine
    ensures engine.Valid() && engine.unresolved == []
    ensures AllBuilt(engine.pending + todo, engine.Books(), acts)
  {
    hide BooksOk, IndexOk, Modest, NormalKey, Only, NoneStuck, AllBuilt;
    todo := {};
    NobodyYet(engine.Books(), acts);
    assert engine.pending + todo == {};
    var n := 0;
    while n < |acts|
      invariant 0 <= n <= |acts| && engine.Valid() && engine.unresolved == []
      invariant AllBuilt(engine.pending + todo, engine.Books(), acts[..n])
    {
      assert acts[..n + 1] == acts[..n] + [acts[n]];
      todo := ActOne(engine, acts[n], todo, acts[..n]);
      n := n + 1;
    }
    assert acts[..n] == acts;
  }

  lemma NobodyYet(b: BookSet, acts: seq<Act>)
    requires b.tokens == map[]
    ensures AllBuilt({}, b, acts[..0])
  {
    assert acts[..0] == [];
  }

  // ------------------------------------------------ when that is everything pushed

  /** The store had exactly the token's events pushed so far, in any order. */
  ghost predicate StoresAll(k: TokenKey, store: seq<Event>, seen: seq<Event>) {
    multiset(EventsOf(store, k)) == multiset(EventsOf(seen, k))
  }

  /** Every rebuild of the token found in the store every event of it pushed so far. */
  ghost predicate FromStore(acts: seq<Act>, k: TokenKey) {
    forall n :: 0 <= n < |acts| && acts[n].Rebuilds? && acts[n].key == k ==>
      StoresAll(k, acts[n].store, PushedBy(acts[..n]))
  }

  /** Then the token is built of everything pushed for it. */
  lemma {:induction false} BuiltIsPushed(acts: seq<Act>, k: TokenKey)
    requires FromStore(acts, k)
    ensures multiset(Built(acts, k)) == multiset(EventsOf(PushedBy(acts), k))
  {
    hide KeyOf, StoresAll;
    if acts != [] {
      var front, last := acts[..|acts| - 1], acts[|acts| - 1];
      EarlierFromStore(acts, k);
      BuiltIsPushed(front, k);
      assert last.Rebuilds? && last.key == k ==> StoresAll(k, last.store, PushedBy(front));
      BuiltIsPushedStep(front, last, k);
      assert acts == front + [last];
    }
  }

  lemma BuiltIsPushedStep(acts: seq<Act>, act: Act, k: TokenKey)
    requires multiset(Built(acts, k)) == multiset(EventsOf(PushedBy(acts), k))
    requires act.Rebuilds? && act.key == k ==> StoresAll(k, act.store, PushedBy(acts))
    ensures multiset(Built(acts + [act], k)) == multiset(EventsOf(PushedBy(acts + [act]), k))
  {
    hide KeyOf, Built, EventsOf, PushedBy;
    BuiltStep(acts, act, k);
    if act.Pushes? {
      EventsAppend(PushedBy(acts), k, act.event);
      SameBags(Built(acts, k), EventsOf(PushedBy(acts), k), if KeyOf(act.event) == Some(k) then [act.event] else []);
      assert Built(acts, k) + [] == Built(acts, k);
    } else {
      assert PushedBy(acts) + [] == PushedBy(acts);
    }
  }

  lemma EarlierFromStore(acts: seq<Act>, k: TokenKey)
    requires acts != [] && FromStore(acts, k)
    ensures FromStore(acts[..|acts| - 1], k)
  {
    hide StoresAll, PushedBy;
    var front := acts[..|acts| - 1];
    forall n | 0 <= n < |front| && front[n].Rebuilds? && front[n].key == k
      ensures StoresAll(k, front[n].store, PushedBy(front[..n]))
    {
      assert front[..n] == acts[..n] && front[n] == acts[n];
    }
  }

  /** The token's last rebuild. */
  predicate LastRebuild(acts: seq<Act>, n: nat, k: TokenKey) {
    && n < |acts| && acts[n].Rebuilds? && acts[n].key == k
    && forall m :: n < m < |acts| ==> !(acts[m].Rebuilds? && acts[m].key == k)
  }

  lemma {:induction false} SinceRebuild(acts: seq<Act>, n: nat, k: TokenKey) returns (since: seq<Event>)
    requires LastRebuild(acts, n, k)
    ensures Built(acts, k) == EventsOf(acts[n].store, k) + since
    ensures EventsOf(PushedBy(acts), k) == EventsOf(PushedBy(acts[..n]), k) + since
    decreases |acts|
  {
    hide KeyOf, EventsOf;
    var front, last := acts[..|acts| - 1], acts[|acts| - 1];
    if n == |acts| - 1 {
      since := [];
      assert PushedBy(front) + [] == PushedBy(front) && acts[..n] == front;
    } else {
      since := SinceRebuild(front, n, k);
      assert front[..n] == acts[..n] && front[n] == acts[n];
      if last.Pushes? {
        EventsAppend(PushedBy(front), k, last.event);
        since := since + if KeyOf(last.event) == Some(k) then [last.event] else [];
      } else {
        assert PushedBy(front) + [] == PushedBy(front);
      }
    }
  }

  /** A rebuilt token is built of everything pushed for it exactly when the store had, at its last rebuild, every event
      of it pushed so far. */
  lemma BuiltOfAllExactly(acts: seq<Act>, n: nat, k: TokenKey)
    requires LastRebuild(acts, n, k)
    ensures multiset(Built(acts, k)) == multiset(EventsOf(PushedBy(acts), k))
      <==> StoresAll(k, acts[n].store, PushedBy(acts[..n]))
  {
    hide Built, EventsOf, PushedBy;
    var since := SinceRebuild(acts, n, k);
    Drop(EventsOf(acts[n].store, k), EventsOf(PushedBy(acts[..n]), k), since);
  }

  lemma Drop(a: seq<Event>, b: seq<Event>, since: seq<Event>)
    ensures multiset(a + since) == multiset(b + since) <==> multiset(a) == multiset(b)
  {
    if multiset(a + since) == multiset(b + since) {
      forall e ensures multiset(a)[e] == multiset(b)[e] {
        assert multiset(a + since)[e] == multiset(a)[e] + multiset(since)[e];
        assert multiset(b + since)[e] == multiset(b)[e] + multiset(since)[e];
      }
    }
  }

  /** A late event leaves its mark, and nothing else. */
  method PushLate(engine: StateEngine, first: Event, late: Event)
    requires engine.Valid() && engine.replay && engine.lastApplied == None && engine.reorder == map[]
      && engine.pending == {} && engine.unresolved == []
    requires KeyOf(first).Some? && KeyOf(late) == KeyOf(first) && Less(FromCanonical(late), FromCanonical(first))
    modifies engine
    ensures engine.Valid() && engine.pending == {KeyOf(first).value} && engine.unresolved == []
  {
    hide BooksOk, IndexOk, Modest, NormalKey, NoneStuck, Less, FromCanonical, KeyOf, OneTrade, Overwritten, Refiled,
      Target, TradesAt, MarksAt, Filed, Folded, StaysOn, Only, Applies;
    engine.PushEvent(first);
    engine.PushEvent(late);
  }

  /** The pipeline's own order: it stores an event only after the rebuild that the event brings about. Whatever the
      token, an event pushed after a later one is then neither held nor marked. */
  method LateEventIsLost(sched: SnapshotSchedule, memory: MemoryPolicy, first: Event, late: Event)
    returns (marked: set<TokenKey>, ghost held: seq<Event>)
    requires Modest(sched) && first.Trade? && late.Trade? && first.token != "" && KeyOf(late) == KeyOf(first)
    requires Less(FromCanonical(late), FromCanonical(first))
    ensures marked == {} && held == [first]
  {
    hide BooksOk, IndexOk, Modest, NormalKey, Only, NoneStuck, Less, FromCanonical, NewKey, Current, SortEvents,
      TradesOnly, OneTrade, TradesAt, Trades, Filed;
    var engine := new StateEngine(sched, memory, true);
    PushLate(engine, first, late);
    var keys := engine.PendingRebuilds();
    var key := KeyOf(first).value;
    assert keys == {key};
    OneStored(first);
    var out := engine.RebuildToken(key, [first]);
    marked, held := engine.pending, Current(key, engine.Books());
  }

  lemma OneStored(e: Event)
    requires e.Trade?
    ensures TradesOnly(SortEvents([e])) == [e]
  {
    hide Less, FromCanonical;
    assert [e][1..] == [] && [e] + [] == [e];
    assert SortEvents([e]) == [e];
    TradesAppend([], e);
    assert [] + [e] == [e];
  }

  lemma FoldIgnoresOrder(a: Aggregate, own: seq<Event>, other: seq<Event>)
    requires multiset(own) == multiset(other) && IsFoldOf(a, own)
    ensures IsFoldOf(a, other) && (own == [] <==> other == [])
  {
    hide AggMatches;
    assert |own| == |multiset(own)| && |other| == |multiset(other)|;
    TradesOnlyAreTrades(own);
    TradesOnlyAreTrades(other);
    TradesIgnoreOrder(own, other);
    TicksIgnoreOrder(TradesOnly(own), TradesOnly(other));
    PlainTwice(TradesOnly(own));
    PlainTwice(TradesOnly(other));
    AggRetarget(a, TickList(TradesOnly(own)), TickList(TradesOnly(other)));
  }

  /** What a token is built of once every key left has been rebuilt from the final store. */
  function AtTheEnd(acts: seq<Act>, store: seq<Event>, left: set<TokenKey>, k: TokenKey): seq<Event> {
    if k in left then EventsOf(store, k) else Built(acts, k)
  }

  /** The keys still to rebuild, and what the others hold. */
  ghost predicate Finishing(todo: set<TokenKey>, left: set<TokenKey>, b: BookSet, acts: seq<Act>, store: seq<Event>) {
    todo <= left && forall k :: k !in todo ==> Agrees(k, b, AtTheEnd(acts, store, left, k))
  }

  lemma FinishStarts(left: set<TokenKey>, b: BookSet, acts: seq<Act>, store: seq<Event>)
    requires AllBuilt(left, b, acts)
    ensures Finishing(left, left, b, acts, store)
  {
    hide Agrees, Built;
  }

  method FinishOne(engine: StateEngine, key: TokenKey, ghost todo: set<TokenKey>, ghost left: set<TokenKey>,
      ghost acts: seq<Act>, store: seq<Event>)
    requires engine.Valid() && engine.unresolved == [] && key in todo
    requires Finishing(todo, left, engine.Books(), acts, store)
    modifies engine
    ensures engine.Valid() && engine.unresolved == []
    ensures Finishing(todo - {key}, left, engine.Books(), acts, store)
  {
    hide BooksOk, IndexOk, Modest, NormalKey, Only, NoneStuck, Current, Agrees, EventsOf, SortEvents, TradesOnly,
      KeyOf, Finishing;
    engine.BoundsHold();
    var events := EventsOf(store, key);
    EventsAreOf(store, key);
    var out := engine.RebuildToken(key, events);
    RebuiltAgrees(key, engine.Books(), events);
    FinishStep(todo, left, old(engine.Books()), engine.Books(), acts, store, key);
  }

  lemma FinishStep(todo: set<TokenKey>, left: set<TokenKey>, a: BookSet, b: BookSet, acts: seq<Act>, store: seq<Event>,
      k: TokenKey)
    requires Finishing(todo, left, a, acts, store) && k in todo && Only(k, a, b) && Agrees(k, b, EventsOf(store, k))
    requires forall j :: j in a.life ==> a.life[j].from <= |a.ledger|
    ensures Finishing(todo - {k}, left, b, acts, store)
  {
    hide Built, Current, EventsOf, TradesOnly;
    forall j | j !in todo - {k} ensures Agrees(j, b, AtTheEnd(acts, store, left, j)) {
      if j != k {
        assert Agrees(j, a, AtTheEnd(acts, store, left, j));
        OnlyCurrent(k, j, a, b);
      }
    }
  }

  /** Replay converges: events in any order, with rebuilds anywhere in between. Once the keys still marked or waiting
      are rebuilt, every token's aggregate is the fold over exactly what it is built of; and that is everything pushed
      for it, when the store had everything of it each time it was read. */
  method Converge(sched: SnapshotSchedule, memory: MemoryPolicy, acts: seq<Act>, store: seq<Event>)
    returns (aggs: map<TokenKey, Aggregate>, ghost left: set<TokenKey>)
    requires Modest(sched) && Named(acts)
    ensures forall k :: k in aggs <==> AtTheEnd(acts, store, left, k) != []
    ensures forall k :: k in aggs ==> IsFoldOf(aggs[k], AtTheEnd(acts, store, left, k))
    ensures forall k :: FromStore(acts, k) && StoresAll(k, store, PushedBy(acts)) ==>
      (k in aggs <==> EventsOf(PushedBy(acts), k) != []) && (k in aggs ==> Converged(aggs[k], PushedBy(acts), k))
  {
    hide BooksOk, IndexOk, Modest, NormalKey, Only, NoneStuck, Current, AllBuilt, EventsOf, IsFoldOf, FromStore,
      PushedBy, StoresAll, AtTheEnd, Finishing;
    var engine := new StateEngine(sched, memory, true);
    var todo := Interleave(engine, acts);
    var marked := engine.PendingRebuilds();
    todo := marked + todo;
    left := todo;
    FinishStarts(left, engine.Books(), acts, store);
    while todo != {}
      invariant engine.Valid() && engine.unresolved == []
      invariant Finishing(todo, left, engine.Books(), acts, store)
      decreases |todo|
    {
      var key :| key in todo;
      FinishOne(engine, key, todo, left, acts, store);
      todo := todo - {key};
    }
    AllFolds(engine.schedule, engine.Books(), acts, store, left);
    aggs := map k | k in engine.tokens :: engine.tokens[k].agg;
    forall k | FromStore(acts, k) && StoresAll(k, store, PushedBy(acts))
      ensures (k in aggs <==> EventsOf(PushedBy(acts), k) != [])
        && (k in aggs ==> Converged(aggs[k], PushedBy(acts), k))
    {
      EndIsPushed(acts, store, left, k);
      if k in aggs { FoldIgnoresOrder(aggs[k], AtTheEnd(acts, store, left, k), EventsOf(PushedBy(acts), k)); }
    }
  }

  lemma EndIsPushed(acts: seq<Act>, store: seq<Event>, left: set<TokenKey>, k: TokenKey)
    requires FromStore(acts, k) && StoresAll(k, store, PushedBy(acts))
    ensures multiset(AtTheEnd(acts, store, left, k)) == multiset(EventsOf(PushedBy(acts), k))
    ensures AtTheEnd(acts, store, left, k) == [] <==> EventsOf(PushedBy(acts), k) == []
  {
    hide FromStore, EventsOf, PushedBy, Built;
    BuiltIsPushed(acts, k);
    var own, pushed := AtTheEnd(acts, store, left, k), EventsOf(PushedBy(acts), k);
    assert |own| == |multiset(own)| && |pushed| == |multiset(pushed)|;
  }

  lemma AllFolds(sched: SnapshotSchedule, b: BookSet, acts: seq<Act>, store: seq<Event>, left: set<TokenKey>)
    requires BooksOk(sched, b.tokens, b.life, b.ledger, b.history) && Finishing({}, left, b, acts, store)
    ensures forall k :: k in b.tokens <==> AtTheEnd(acts, store, left, k) != []
    ensures forall k :: k in b.tokens ==> IsFoldOf(b.tokens[k].agg, AtTheEnd(acts, store, left, k))
  {
    hide BooksOk, Current, IsFoldOf, AtTheEnd;
    forall k ensures k in b.tokens <==> AtTheEnd(acts, store, left, k) != [] {
      assert Agrees(k, b, AtTheEnd(acts, store, left, k));
    }
    forall k | k in b.tokens ensures IsFoldOf(b.tokens[k].agg, AtTheEnd(acts, store, left, k)) {
      AgreesFold(sched, k, b, AtTheEnd(acts, store, left, k));
    }
  }

  // ---------------------------------------------------------------- conservation, for any stream

  lemma TradeBag(s: seq<Event>, e: Event)
    ensures multiset(TradesOnly(s + [e])) == multiset(TradesOnly(s)) + OneTrade(e)
  {
    TradesAppend(s, e);
  }

  /** Not before any of these in the event order. */
  predicate AfterAll(s: seq<Event>, e: Event) {
    forall j :: 0 <= j < |s| ==> !Less(FromCanonical(e), FromCanonical(s[j]))
  }

  /** The events that arrive when nothing later in the event order has arrived. */
  function OnTime(s: seq<Event>): seq<Event> {
    if s == [] then []
    else
      OnTime(s[..|s| - 1])
      + if AfterAll(s[..|s| - 1], s[|s| - 1]) then [s[|s| - 1]] else []
  }

  lemma OnTimeStep(s: seq<Event>, e: Event)
    ensures OnTime(s + [e]) == OnTime(s) + if AfterAll(s, e) then [e] else []
  {
    hide AfterAll;
    assert (s + [e])[..|s|] == s;
  }

  /** The last applied order is the latest so far. */
  ghost predicate IsLatest(last: Option<StateOrder>, s: seq<Event>) {
    if s == [] then last == None
    else
      && last.Some? && (exists j :: 0 <= j < |s| && FromCanonical(s[j]) == last.value)
      && forall j :: 0 <= j < |s| ==> !Less(last.value, FromCanonical(s[j]))
  }

  /** An event is late exactly when it is before some event that has arrived. */
  lemma LateIsBefore(last: Option<StateOrder>, s: seq<Event>, e: Event)
    requires IsLatest(last, s)
    ensures Behind(FromCanonical(e), last) <==> !AfterAll(s, e)
  {
    hide Less, FromCanonical;
    if j :| 0 <= j < |s| && Less(FromCanonical(e), FromCanonical(s[j])) {
      OrderIsTotal(FromCanonical(s[j]), last.value, FromCanonical(s[j]));
      OrderIsTotal(FromCanonical(e), FromCanonical(s[j]), last.value);
    }
  }

  lemma LatestStep(last: Option<StateOrder>, s: seq<Event>, e: Event)
    requires IsLatest(last, s)
    ensures IsLatest(if AfterAll(s, e) then Some(FromCanonical(e)) else last, s + [e])
  {
    hide Less, FromCanonical;
    var more := s + [e];
    OrderIsTotal(FromCanonical(e), FromCanonical(e), FromCanonical(e));
    if AfterAll(s, e) {
      assert more[|s|] == e;
    } else {
      LateIsBefore(last, s, e);
      var j :| 0 <= j < |s| && FromCanonical(s[j]) == last.value;
      assert more[j] == s[j];
      OrderIsTotal(last.value, FromCanonical(e), last.value);
    }
  }

  ghost predicate AllMarked(dropped: multiset<Event>, pending: set<TokenKey>) {
    forall e :: e in dropped && KeyOf(e).Some? ==> KeyOf(e).value in pending
  }

  lemma MarkedMore(before: multiset<Event>, after: multiset<Event>, marks: set<TokenKey>, marks': set<TokenKey>)
    requires AllMarked(before, marks) && before <= after && marks <= marks'
    requires forall x :: x in after - before && KeyOf(x).Some? ==> KeyOf(x).value in marks'
    ensures AllMarked(after, marks')
  {
    hide KeyOf;
    forall e | e in after && KeyOf(e).Some? ensures KeyOf(e).value in marks' {
      assert e in before || e in after - before;
    }
  }

  // ------------------------------------------------ what a live buffer loses

  /** The live buffer after a stream: a late event is filed, replacing one of its order; anything else empties it. */
  function BufferAfter(s: seq<Event>): map<StateOrder, Event> {
    if s == [] then map[]
    else
      var front, e := s[..|s| - 1], s[|s| - 1];
      if AfterAll(front, e) then map[] else Refiled(BufferAfter(front), e)
  }

  /** The trades that late events of the same order displace from it. */
  function Lost(s: seq<Event>): multiset<Event> {
    if s == [] then multiset{}
    else
      var front, e := s[..|s| - 1], s[|s| - 1];
      if AfterAll(front, e) then Lost(front) else Lost(front) + Overwritten(BufferAfter(front), e)
  }

  lemma LostStep(s: seq<Event>, e: Event)
    ensures BufferAfter(s + [e]) == if AfterAll(s, e) then map[] else Refiled(BufferAfter(s), e)
    ensures Lost(s + [e]) == if AfterAll(s, e) then Lost(s) else Lost(s) + Overwritten(BufferAfter(s), e)
  {
    hide AfterAll, Refiled, Overwritten;
    assert (s + [e])[..|s|] == s;
  }

  function OrdersOf(s: seq<Event>): set<StateOrder> {
    set i | 0 <= i < |s| :: FromCanonical(s[i])
  }

  /** Where in the stream the events begin that came since the buffer was last emptied: by an event on time, or by
      a late event that made its orders more than the limit. */
  function Since(s: seq<Event>): (n: nat)
    ensures n <= |s|
  {
    if s == [] then 0
    else
      var front, e := s[..|s| - 1], s[|s| - 1];
      if AfterAll(front, e) || |OrdersOf(s[Since(front)..])| > REORDER_LIMIT then |s| else Since(front)
  }

  /** The last event of an order. */
  function LastOfOrder(s: seq<Event>, o: StateOrder): Option<Event> {
    if s == [] then None
    else if FromCanonical(s[|s| - 1]) == o then Some(s[|s| - 1]) else LastOfOrder(s[..|s| - 1], o)
  }

  lemma OrdersAppend(s: seq<Event>, from: nat)
    requires s != [] && from < |s|
    ensures OrdersOf(s[from..]) == OrdersOf(s[..|s| - 1][from..]) + {FromCanonical(s[|s| - 1])}
  {
    hide FromCanonical;
    var front, e := s[..|s| - 1], s[|s| - 1];
    assert s[from..] == front[from..] + [e];
    assert (front[from..] + [e])[|front[from..]|] == e;
    forall o | o in OrdersOf(front[from..]) ensures o in OrdersOf(s[from..]) {
      var i :| 0 <= i < |front[from..]| && FromCanonical(front[from..][i]) == o;
      assert s[from..][i] == front[from..][i];
    }
  }

  lemma NoOrders(s: seq<Event>)
    ensures OrdersOf(s[|s|..]) == {}
  {
  }

  /** In the buffer are the orders that came since. */
  lemma {:induction false} BufferOrders(s: seq<Event>)
    ensures BufferAfter(s).Keys == OrdersOf(s[Since(s)..])
  {
    hide FromCanonical, AfterAll, OrdersOf;
    NoOrders(s);
    if s != [] {
      var front, e := s[..|s| - 1], s[|s| - 1];
      BufferOrders(front);
      OrdersAppend(s, Since(front));
      var filed := BufferAfter(front)[FromCanonical(e) := e];
      assert filed.Keys == OrdersOf(s[Since(front)..]) && |filed| == |filed.Keys|;
    }
  }

  /** ... and of each the last event. */
  lemma {:induction false} BufferHolds(s: seq<Event>, o: StateOrder)
    ensures LastOfOrder(s[Since(s)..], o) == if o in BufferAfter(s) then Some(BufferAfter(s)[o]) else None
  {
    hide FromCanonical, AfterAll, OrdersOf;
    if s != [] {
      var front, e := s[..|s| - 1], s[|s| - 1];
      BufferHolds(front, o);
      BufferOrders(front);
      BufferOrders(s);
      NoOrders(s);
      if Since(s) < |s| {
        var waiting := s[Since(s)..];
        OrdersAppend(s, Since(s));
        assert FromCanonical(e) in BufferAfter(s).Keys;
        assert waiting[|waiting| - 1] == e && waiting[..|waiting| - 1] == front[Since(front)..];
      } else {
        assert s[Since(s)..] == [] && o !in BufferAfter(s).Keys;
      }
    }
  }

  /** A late event finds a trade of its own order waiting: the last event of that order that came since the buffer
      was emptied is a trade. */
  predicate Displaces(s: seq<Event>, i: nat)
    requires i < |s|
  {
    var waiting := LastOfOrder(s[Since(s[..i])..i], FromCanonical(s[i]));
    !AfterAll(s[..i], s[i]) && waiting.Some? && waiting.value.Trade?
  }

  lemma DisplacesIs(s: seq<Event>, i: nat)
    requires i < |s|
    ensures Displaces(s, i) <==> !AfterAll(s[..i], s[i]) && Overwritten(BufferAfter(s[..i]), s[i]) != multiset{}
  {
    hide FromCanonical, Since, BufferAfter, LastOfOrder, AfterAll;
    BufferHolds(s[..i], FromCanonical(s[i]));
    assert s[..i][Since(s[..i])..] == s[Since(s[..i])..i];
  }

  /** Exactly when a live stream loses a trade, in terms of the stream alone. */
  lemma {:induction false} LosesExactly(s: seq<Event>)
    ensures Lost(s) == multiset{} <==> forall i :: 0 <= i < |s| ==> !Displaces(s, i)
  {
    hide AfterAll, Overwritten, Refiled, Displaces, BufferAfter;
    if s != [] {
      var front, e := s[..|s| - 1], s[|s| - 1];
      LosesExactly(front);
      assert s[..|front|] == front;
      forall i | 0 <= i < |front| ensures Displaces(s, i) <==> Displaces(front, i) {
        assert s[..i] == front[..i];
        DisplacesIs(s, i);
        DisplacesIs(front, i);
      }
      DisplacesIs(s, |front|);
    }
  }

  /** While no more orders came than the buffer may hold, it was last emptied by the last event on time. */
  lemma {:induction false} SinceOnTime(s: seq<Event>, m: nat)
    requires m <= |s| && (m == 0 || AfterAll(s[..m - 1], s[m - 1]))
    requires forall i :: m <= i < |s| ==> !AfterAll(s[..i], s[i])
    requires |OrdersOf(s[m..])| <= REORDER_LIMIT
    ensures Since(s) == m
    decreases |s|
  {
    hide FromCanonical, AfterAll, OrdersOf;
    if m < |s| {
      var front := s[..|s| - 1];
      OrdersAppend(s, m);
      FewerOrders(OrdersOf(front[m..]), OrdersOf(s[m..]));
      assert m > 0 ==> front[..m - 1] == s[..m - 1];
      forall i | m <= i < |front| ensures !AfterAll(front[..i], front[i]) {
        assert front[..i] == s[..i] && front[i] == s[i];
      }
      SinceOnTime(front, m);
      assert s[..|front|] == front;
    }
  }

  lemma FewerOrders(a: set<StateOrder>, b: set<StateOrder>)
    requires a <= b
    ensures |a| <= |b|
  {
    assert b == a + (b - a);
  }

  ghost predicate DistinctOrders(s: seq<Event>) {
    forall i, j :: 0 <= i < j < |s| ==> FromCanonical(s[i]) != FromCanonical(s[j])
  }

  /** Only what came in the stream is in the buffer. */
  lemma {:induction false} NeverCame(s: seq<Event>, o: StateOrder)
    requires forall j :: 0 <= j < |s| ==> FromCanonical(s[j]) != o
    ensures o !in BufferAfter(s)
  {
    hide FromCanonical, AfterAll;
    if s != [] {
      NeverCame(s[..|s| - 1], o);
    }
  }

  /** While orders are distinct, nothing is displaced. */
  lemma DistinctLosesNothing(s: seq<Event>)
    requires DistinctOrders(s)
    ensures Lost(s) == multiset{}
  {
    hide FromCanonical, AfterAll, BufferAfter, Displaces;
    LosesExactly(s);
    forall i | 0 <= i < |s| ensures !Displaces(s, i) {
      NeverCame(s[..i], FromCanonical(s[i]));
      DisplacesIs(s, i);
    }
  }

  /** Three events are enough: two of one order after a later one, and the first of the two is lost. */
  lemma ThreeLoseOne(a: Event, b: Event, c: Event)
    requires b.Trade? && FromCanonical(b) == FromCanonical(c) && Less(FromCanonical(b), FromCanonical(a))
    ensures Lost([a, b, c]) == multiset{b}
  {
    hide FromCanonical, Less;
    OrderIsTotal(FromCanonical(a), FromCanonical(a), FromCanonical(a));
    LostStep([], a);
    LostStep([a], b);
    LostStep([a, b], c);
    assert [] + [a] == [a] && [a] + [b] == [a, b] && [a, b] + [c] == [a, b, c];
    assert [a, b][0] == a && !AfterAll([a], b) && !AfterAll([a, b], c) && AfterAll([], a);
  }

  /** A stream under way: the buffer and what it lost are those of the stream so far. */
  ghost predicate Streaming(engine: StateEngine, sofar: seq<Event>)
    reads engine
  {
    && engine.Valid() && engine.BufferLate() && IsLatest(engine.lastApplied, sofar)
       && AllMarked(engine.dropped, engine.pending)
    && engine.reorder == (if engine.replay then map[] else BufferAfter(sofar))
    && engine.displaced == (if engine.replay then multiset{} else Lost(sofar))
  }

  method PushAny(engine: StateEngine, events: seq<Event>, i: nat)
    requires i < |events| && Streaming(engine, events[..i])
    modifies engine
    ensures Streaming(engine, events[..i + 1])
    ensures engine.Received() == old(engine.Received()) + OneTrade(events[i])
    ensures engine.Held() == if AfterAll(events[..i], events[i]) then old(engine.Held()) + OneTrade(events[i])
      else old(engine.Held())
  {
    hide BooksOk, IndexOk, Modest, NormalKey, Only, NoneStuck, Less, FromCanonical, Folded, KeyOf, AllMarked,
      TradesOnly, IsLatest, AfterAll, Overwritten, Filed, BufferAfter, Lost, Refiled, Applies, MarksAt, TradesAt;
    var e := events[i];
    assert events[..i + 1] == events[..i] + [e];
    LateIsBefore(engine.lastApplied, events[..i], e);
    LatestStep(engine.lastApplied, events[..i], e);
    LostStep(events[..i], e);
    engine.PushEvent(e);
    MarkedMore(old(engine.dropped), engine.dropped, old(engine.pending), engine.pending);
  }

  /** Whatever the stream, in replay or live, whether or not events name their tokens: the trades held, folded or
      parked, are exactly those of the events that came on time; every other trade is dropped as late, with the
      token it names marked for rebuild, or waits in the live buffer, or was displaced there by an event of its
      order; what waits and what was displaced are functions of the stream; and no parked trade could be applied. */
  method PushStream(sched: SnapshotSchedule, memory: MemoryPolicy, isReplay: bool, events: seq<Event>)
    returns (parked: seq<Event>, byCurve: Index, byPool: Index, pending: set<TokenKey>, buffer: map<StateOrder, Event>,
             ghost folded: seq<Event>, ghost dropped: multiset<Event>, ghost displaced: multiset<Event>)
    requires Modest(sched)
    ensures multiset(folded) + multiset(parked) == multiset(TradesOnly(OnTime(events)))
    ensures multiset(folded) + multiset(parked) + multiset(TradesAt(buffer, buffer.Keys)) + dropped + displaced
         == multiset(TradesOnly(events))
    ensures buffer == if isReplay then map[] else BufferAfter(events)
    ensures displaced == if isReplay then multiset{} else Lost(events)
    ensures isReplay || DistinctOrders(events) ==> displaced == multiset{}
    ensures NoneStuck(parked, byCurve, byPool) && AllMarked(dropped, pending)
  {
    hide IndexOk, Modest, Only, NoneStuck, AllMarked, TradesOnly, OnTime, DistinctOrders, Filed, OneTrade,
      BufferAfter, Lost, Streaming, Trades, TradesAt, Behind;
    var engine := new StateEngine(sched, memory, isReplay);
    StreamStarts(engine, events);
    PushEach(engine, events);
    StreamEnds(engine, events);
    parked, byCurve, byPool, pending, buffer := engine.unresolved, engine.byCurve, engine.byPool, engine.pending,
      engine.reorder;
    folded, dropped, displaced := Trades(engine.ledger), engine.dropped, engine.displaced;
  }

  method PushEach(engine: StateEngine, events: seq<Event>)
    requires Streaming(engine, events[..0]) && engine.Held() == engine.Received() == multiset{}
    modifies engine
    ensures Streaming(engine, events)
    ensures engine.Held() == multiset(TradesOnly(OnTime(events))) && engine.Received() == multiset(TradesOnly(events))
  {
    hide Streaming, AfterAll, OneTrade, TradesOnly, OnTime, StateEngine.Held, StateEngine.Received;
    NoTrades(events);
    var i := 0;
    while i < |events|
      invariant 0 <= i <= |events| && Streaming(engine, events[..i])
      invariant engine.Held() == multiset(TradesOnly(OnTime(events[..i])))
      invariant engine.Received() == multiset(TradesOnly(events[..i]))
    {
      StreamStep(events, i);
      PushAny(engine, events, i);
      i := i + 1;
    }
    assert events[..i] == events;
  }

  lemma NoTrades(events: seq<Event>)
    ensures TradesOnly(events[..0]) == [] && TradesOnly(OnTime(events[..0])) == []
  {
    assert events[..0] == [];
  }

  lemma StreamStarts(engine: StateEngine, events: seq<Event>)
    requires engine.Valid() && engine.BufferLate() && engine.lastApplied == None && engine.pending == {}
    requires engine.reorder == map[] && engine.dropped == engine.displaced == multiset{}
    ensures Streaming(engine, events[..0])
  {
    assert events[..0] == [];
  }

  lemma StreamEnds(engine: StateEngine, events: seq<Event>)
    requires Streaming(engine, events)
    ensures NoneStuck(engine.unresolved, engine.byCurve, engine.byPool) && AllMarked(engine.dropped, engine.pending)
    ensures engine.reorder == if engine.replay then map[] else BufferAfter(events)
    ensures engine.displaced == if engine.replay then multiset{} else Lost(events)
    ensures engine.replay || DistinctOrders(events) ==> engine.displaced == multiset{}
  {
    hide BooksOk, IndexOk, Modest, NoneStuck, AllMarked, IsLatest, DistinctOrders, Filed, BufferAfter, Lost;
    if DistinctOrders(events) {
      DistinctLosesNothing(events);
    }
  }

  lemma StreamStep(events: seq<Event>, i: nat)
    requires i < |events|
    ensures multiset(TradesOnly(events[..i + 1])) == multiset(TradesOnly(events[..i])) + OneTrade(events[i])
    ensures multiset(TradesOnly(OnTime(events[..i + 1])))
         == if AfterAll(events[..i], events[i]) then multiset(TradesOnly(OnTime(events[..i]))) + OneTrade(events[i])
            else multiset(TradesOnly(OnTime(events[..i])))
  {
    hide AfterAll, TradesOnly, OneTrade;
    assert events[..i + 1] == events[..i] + [events[i]];
    TradeBag(events[..i], events[i]);
    OnTimeStep(events[..i], events[i]);
    TradeBag(OnTime(events[..i]), events[i]);
    assert OnTime(events[..i]) + [] == OnTime(events[..i]);
  }
}
