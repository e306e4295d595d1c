/** All tokens together: the engine's ledger of applied trades, its snapshot history, and the lookup
    indexes that resolve trades which do not name their token. */
module EngineBooks {
  import opened Amounts
  import opened Schedule
  import opened Domain
  import opened Rolling
  import opened TokenBooks

  /** One applied trade: the token it was folded into and the tick it left there. */
  datatype Entry = Entry(key: TokenKey, trade: Event, tick: TradeTick)

  type Index = map<(Chain, string), TokenKey>

  // ---------------------------------------------------------------- logs, per token

  function TicksIn(ledger: seq<Entry>, from: nat, k: TokenKey): seq<TradeTick> {
    if |ledger| <= from then []
    else
      TicksIn(ledger[..|ledger| - 1], from, k)
      + if ledger[|ledger| - 1].key == k then [ledger[|ledger| - 1].tick] else []
  }

  function TradesIn(ledger: seq<Entry>, from: nat, k: TokenKey): seq<Event> {
    if |ledger| <= from then []
    else
      TradesIn(ledger[..|ledger| - 1], from, k)
      + if ledger[|ledger| - 1].key == k then [ledger[|ledger| - 1].trade] else []
  }

  /** The due (milestone and periodic) snapshots of one token from position `born` on. */
  function SnapsIn(history: seq<Snapshot>, born: nat, k: TokenKey): seq<Snapshot> {
    if |history| <= born then []
    else
      SnapsIn(history[..|history| - 1], born, k)
      + if history[|history| - 1].key == k && !history[|history| - 1].kind.LifecycleSnap?
        then [history[|history| - 1]] else []
  }

  function Trades(ledger: seq<Entry>): seq<Event> {
    seq(|ledger|, i requires 0 <= i < |ledger| => ledger[i].trade)
  }

  lemma LedgerAppend(ledger: seq<Entry>, from: nat, k: TokenKey, e: Entry)
    requires from <= |ledger|
    ensures TicksIn(ledger + [e], from, k) == TicksIn(ledger, from, k) + if e.key == k then [e.tick] else []
    ensures TradesIn(ledger + [e], from, k) == TradesIn(ledger, from, k) + if e.key == k then [e.trade] else []
  {
    assert (ledger + [e])[..|ledger|] == ledger;
  }

  lemma HistoryAppend(history: seq<Snapshot>, born: nat, k: TokenKey, s: Snapshot)
    requires born <= |history|
    ensures SnapsIn(history + [s], born, k)
         == SnapsIn(history, born, k) + if s.key == k && !s.kind.LifecycleSnap? then [s] else []
  {
    assert (history + [s])[..|history|] == history;
  }

  /** The part of a tick that comes from the trade alone. */
  function TickOf(e: Event): TradeTick
    requires e.Trade?
  {
    TradeTick(0, e.trader, e.isBuy, false, e.quote, e.base, false, false)
  }

  ghost predicate EntryOk(e: Entry) {
    e.trade.Trade? && Plain(e.tick) == TickOf(e.trade) && e.tick.time == e.trade.time
  }

  // ---------------------------------------------------------------- the books of the whole engine

  ghost predicate LifeKept(sched: SnapshotSchedule, k: TokenKey, l: Life, ledger: seq<Entry>, history: seq<Snapshot>) {
    && l.from <= |ledger| && l.born <= |history|
    && LifeOk(sched, l, TicksIn(ledger, l.from, k), SnapsIn(history, l.born, k))
  }

  ghost predicate StateKept(sched: SnapshotSchedule, k: TokenKey, st: TokenState, l: Life,
                            ledger: seq<Entry>, history: seq<Snapshot>) {
    StateOk(sched, st, l, TicksIn(ledger, l.from, k), SnapsIn(history, l.born, k))
  }

  /** Each token's latest life accounts for its snapshots; every token in memory accounts for its trades. */
  ghost predicate BooksOk(sched: SnapshotSchedule, tokens: map<TokenKey, TokenState>, life: map<TokenKey, Life>,
                          ledger: seq<Entry>, history: seq<Snapshot>) {
    && tokens.Keys <= life.Keys
    && (forall k :: k in life ==> LifeKept(sched, k, life[k], ledger, history))
    && (forall k :: k in tokens ==> StateKept(sched, k, tokens[k], life[k], ledger, history))
    && (forall i :: 0 <= i < |ledger| ==> EntryOk(ledger[i]))
  }

  ghost predicate LedgerKeepsOthers(k: TokenKey, ledger: seq<Entry>, ledger': seq<Entry>) {
    forall j, from: nat :: j != k && from <= |ledger| ==> TicksIn(ledger', from, j) == TicksIn(ledger, from, j)
  }

  ghost predicate HistoryKeepsOthers(k: TokenKey, history: seq<Snapshot>, history': seq<Snapshot>) {
    forall j, born: nat :: j != k && born <= |history| ==> SnapsIn(history', born, j) == SnapsIn(history, born, j)
  }

  lemma LedgerGrows(k: TokenKey, ledger: seq<Entry>, e: Entry)
    requires e.key == k
    ensures LedgerKeepsOthers(k, ledger, ledger + [e])
  {
    forall j, from: nat | j != k && from <= |ledger|
      ensures TicksIn(ledger + [e], from, j) == TicksIn(ledger, from, j)
    {
      LedgerAppend(ledger, from, j, e);
    }
  }

  lemma HistoryGrows(k: TokenKey, history: seq<Snapshot>, s: Snapshot)
    requires s.key == k
    ensures HistoryKeepsOthers(k, history, history + [s])
  {
    forall j, born: nat | j != k && born <= |history|
      ensures SnapsIn(history + [s], born, j) == SnapsIn(history, born, j)
    {
      HistoryAppend(history, born, j, s);
    }
  }

  /** Replacing one token's books, when nobody else's logs changed. */
  lemma OneTokenChanges(sched: SnapshotSchedule, k: TokenKey, tokens: map<TokenKey, TokenState>,
      life: map<TokenKey, Life>, ledger: seq<Entry>, history: seq<Snapshot>, st: TokenState, l: Life,
      ledger': seq<Entry>, history': seq<Snapshot>)
    requires BooksOk(sched, tokens, life, ledger, history)
    requires |ledger| <= |ledger'| && |history| <= |history'|
    requires LedgerKeepsOthers(k, ledger, ledger') && HistoryKeepsOthers(k, history, history')
    requires LifeKept(sched, k, l, ledger', history') && StateKept(sched, k, st, l, ledger', history')
    requires forall i :: 0 <= i < |ledger'| ==> EntryOk(ledger'[i])
    ensures BooksOk(sched, tokens[k := st], life[k := l], ledger', history')
  {
    hide LifeOk, StateOk, TicksIn, SnapsIn, EntryOk;
    var tokens', life' := tokens[k := st], life[k := l];
    forall j | j in life' ensures LifeKept(sched, j, life'[j], ledger', history') {
      if j != k { assert LifeKept(sched, j, life[j], ledger, history); }
    }
    forall j | j in tokens' ensures StateKept(sched, j, tokens'[j], life'[j], ledger', history') {
      if j != k {
        assert LifeKept(sched, j, life[j], ledger, history);
        assert StateKept(sched, j, tokens[j], life[j], ledger, history);
      }
    }
  }

  /** What the books say of one token in memory. */
  lemma KeptOf(sched: SnapshotSchedule, k: TokenKey, tokens: map<TokenKey, TokenState>, life: map<TokenKey, Life>,
               ledger: seq<Entry>, history: seq<Snapshot>)
    requires BooksOk(sched, tokens, life, ledger, history) && k in tokens
    ensures k in life && LifeKept(sched, k, life[k], ledger, history)
    ensures StateKept(sched, k, tokens[k], life[k], ledger, history) && WellShaped(tokens[k].rolling)
    ensures life[k].from <= |ledger| && life[k].born <= |history|
    ensures LifeOk(sched, life[k], TicksIn(ledger, life[k].from, k), SnapsIn(history, life[k].born, k))
    ensures StateOk(sched, tokens[k], life[k], TicksIn(ledger, life[k].from, k), SnapsIn(history, life[k].born, k))
  {
    hide LifeOk, TicksIn, SnapsIn, EntryOk, AggMatches, LastN, Milestones, LastStamp, PrunesAll;
    assert LifeKept(sched, k, life[k], ledger, history);
    assert StateKept(sched, k, tokens[k], life[k], ledger, history);
  }

  lemma BooksEntries(sched: SnapshotSchedule, tokens: map<TokenKey, TokenState>, life: map<TokenKey, Life>,
                     ledger: seq<Entry>, history: seq<Snapshot>)
    requires BooksOk(sched, tokens, life, ledger, history)
    ensures forall i :: 0 <= i < |ledger| ==> EntryOk(ledger[i])
  {
    hide LifeKept, StateKept, EntryOk;
  }

  lemma BooksEmit(sched: SnapshotSchedule, k: TokenKey, tokens: map<TokenKey, TokenState>, life: map<TokenKey, Life>,
                  ledger: seq<Entry>, history: seq<Snapshot>, at: Time, kind: SnapshotKind)
    requires BooksOk(sched, tokens, life, ledger, history) && k in tokens && NextDue(sched, life[k], at)
    requires kind == DueKind(sched, tokens[k].emittedMilestones, Saturate(at - tokens[k].discoveredAt))
    ensures StateKept(sched, k, tokens[k], life[k], ledger, history) && WellShaped(tokens[k].rolling)
    ensures BooksOk(sched, tokens[k := WithEmitted(sched, tokens[k], at)], life[k := life[k].(latest := at)],
                    ledger, history + [SnapshotOf(tokens[k], k, at, kind)])
  {
    hide BooksOk, StateKept, LifeOk, StateOk, TicksIn, SnapsIn, NextDue, EntryOk, WithEmitted, HistoryKeepsOthers,
      LifeKept, AsOfAll, CountsAsOf;
    KeptOf(sched, k, tokens, life, ledger, history);
    var st, l := tokens[k], life[k];
    EmitKeeps(sched, st, l, k, TicksIn(ledger, l.from, k), SnapsIn(history, l.born, k), at, kind);
    EmittedKept(sched, k, st, l, ledger, history, at, kind);
    HistoryGrows(k, history, SnapshotOf(st, k, at, kind));
    LedgerStays(k, ledger);
    BooksEntries(sched, tokens, life, ledger, history);
    hide SnapshotOf, DueKind;
    OneTokenChanges(sched, k, tokens, life, ledger, history,
                    WithEmitted(sched, st, at), l.(latest := at), ledger, history + [SnapshotOf(st, k, at, kind)]);
  }

  lemma LedgerStays(k: TokenKey, ledger: seq<Entry>)
    ensures LedgerKeepsOthers(k, ledger, ledger)
  {
  }

  lemma EmittedKept(sched: SnapshotSchedule, k: TokenKey, st: TokenState, l: Life, ledger: seq<Entry>,
      history: seq<Snapshot>, at: Time, kind: SnapshotKind)
    requires l.from <= |ledger| && l.born <= |history| && WellShaped(st.rolling) && !kind.LifecycleSnap?
    requires var snaps' := SnapsIn(history, l.born, k) + [SnapshotOf(st, k, at, kind)];
      LifeOk(sched, l.(latest := at), TicksIn(ledger, l.from, k), snaps')
      && StateOk(sched, WithEmitted(sched, st, at), l.(latest := at), TicksIn(ledger, l.from, k), snaps')
    ensures var history' := history + [SnapshotOf(st, k, at, kind)];
      LifeKept(sched, k, l.(latest := at), ledger, history')
      && StateKept(sched, k, WithEmitted(sched, st, at), l.(latest := at), ledger, history')
  {
    hide LifeOk, StateOk, TicksIn, SnapsIn, WithEmitted, AsOfAll, CountsAsOf;
    HistoryAppend(history, l.born, k, SnapshotOf(st, k, at, kind));
  }

  /** A lifecycle snapshot, and any change to a token that its books do not mention. */
  lemma BooksLifecycle(sched: SnapshotSchedule, k: TokenKey, tokens: map<TokenKey, TokenState>,
      life: map<TokenKey, Life>, ledger: seq<Entry>, history: seq<Snapshot>, s: Snapshot)
    requires BooksOk(sched, tokens, life, ledger, history) && s.kind.LifecycleSnap?
    ensures BooksOk(sched, tokens, life, ledger, history + [s])
  {
    hide LifeOk, StateOk, TicksIn, SnapsIn, EntryOk;
    forall j | j in life
      ensures LifeKept(sched, j, life[j], ledger, history + [s])
      ensures j in tokens ==> StateKept(sched, j, tokens[j], life[j], ledger, history + [s])
    {
      assert LifeKept(sched, j, life[j], ledger, history);
      assert j in tokens ==> StateKept(sched, j, tokens[j], life[j], ledger, history);
      HistoryAppend(history, life[j].born, j, s);
      assert SnapsIn(history + [s], life[j].born, j) == SnapsIn(history, life[j].born, j);
    }
  }

  lemma BooksAdvance(sched: SnapshotSchedule, k: TokenKey, tokens: map<TokenKey, TokenState>, life: map<TokenKey, Life>,
                     ledger: seq<Entry>, history: seq<Snapshot>, until: Time)
    requires BooksOk(sched, tokens, life, ledger, history) && k in tokens && life[k].latest <= until
    requires forall t :: life[k].latest < t <= until ==> !IsDue(sched, life[k].discovered, t)
    ensures BooksOk(sched, tokens, life[k := life[k].(latest := until)], ledger, history)
  {
    hide BooksOk, LifeOk, StateOk, TicksIn, SnapsIn, EntryOk, IsDue, LifeKept, StateKept, LedgerKeepsOthers,
      HistoryKeepsOthers;
    KeptOf(sched, k, tokens, life, ledger, history);
    var st, l := tokens[k], life[k];
    AdvanceKeeps(sched, st, l, TicksIn(ledger, l.from, k), SnapsIn(history, l.born, k), until);
    MovedKept(sched, k, st, l.(latest := until), ledger, history);
    LedgerStays(k, ledger);
    HistoryStays(k, history);
    BooksEntries(sched, tokens, life, ledger, history);
    OneTokenChanges(sched, k, tokens, life, ledger, history, st, l.(latest := until), ledger, history);
    assert tokens[k := st] == tokens;
  }

  lemma AppliedEntryOk(k: TokenKey, st: TokenState, e: Event)
    requires e.Trade?
    ensures EntryOk(Entry(k, e, TickFor(st, e, e.time)))
  {
  }

  lemma BooksTrade(sched: SnapshotSchedule, k: TokenKey, tokens: map<TokenKey, TokenState>, life: map<TokenKey, Life>,
                   ledger: seq<Entry>, history: seq<Snapshot>, e: Event)
    requires BooksOk(sched, tokens, life, ledger, history) && k in tokens && e.Trade?
    ensures StateKept(sched, k, tokens[k], life[k], ledger, history) && WellShaped(tokens[k].rolling)
    ensures BooksOk(sched, tokens[k := WithTrade(tokens[k], e, e.time)],
                    life[k := life[k].(ordered := life[k].ordered && e.time == life[k].latest)],
                    ledger + [Entry(k, e, TickFor(tokens[k], e, e.time))], history)
  {
    hide BooksOk, LifeOk, StateOk, TicksIn, SnapsIn, EntryOk, TickFor, WithTrade, LifeKept, StateKept,
      LedgerKeepsOthers;
    KeptOf(sched, k, tokens, life, ledger, history);
    var st, l := tokens[k], life[k];
    var entry := Entry(k, e, TickFor(st, e, e.time));
    var st', l' := WithTrade(st, e, e.time), l.(ordered := l.ordered && e.time == l.latest);
    TradeKeeps(sched, st, l, TicksIn(ledger, l.from, k), SnapsIn(history, l.born, k), e, e.time);
    TradedKept(sched, k, st', l', ledger, history, entry);
    AppliedEntryOk(k, st, e);
    BooksEntries(sched, tokens, life, ledger, history);
    LedgerGrows(k, ledger, entry);
    HistoryStays(k, history);
    OneTokenChanges(sched, k, tokens, life, ledger, history, st', l', ledger + [entry], history);
  }

  lemma TradedKept(sched: SnapshotSchedule, k: TokenKey, st: TokenState, l: Life, ledger: seq<Entry>,
      history: seq<Snapshot>, entry: Entry)
    requires l.from <= |ledger| && l.born <= |history| && entry.key == k
    requires LifeOk(sched, l, TicksIn(ledger, l.from, k) + [entry.tick], SnapsIn(history, l.born, k))
    requires StateOk(sched, st, l, TicksIn(ledger, l.from, k) + [entry.tick], SnapsIn(history, l.born, k))
    ensures LifeKept(sched, k, l, ledger + [entry], history) && StateKept(sched, k, st, l, ledger + [entry], history)
  {
    hide LifeOk, StateOk, TicksIn, SnapsIn;
    LedgerAppend(ledger, l.from, k, entry);
  }

  lemma BooksWarm(sched: SnapshotSchedule, k: TokenKey, tokens: map<TokenKey, TokenState>, life: map<TokenKey, Life>,
                  ledger: seq<Entry>, history: seq<Snapshot>)
    requires BooksOk(sched, tokens, life, ledger, history) && k in tokens && tokens[k].tier.Hot?
    ensures BooksOk(sched, tokens[k := Warmed(tokens[k])], life[k := life[k].(warmAfter := Some(life[k].latest))],
      ledger, history)
  {
    hide BooksOk, LifeOk, StateOk, TicksIn, SnapsIn, EntryOk, LifeKept, StateKept, LedgerKeepsOthers,
      HistoryKeepsOthers, Warmed;
    KeptOf(sched, k, tokens, life, ledger, history);
    var st, l := tokens[k], life[k];
    WarmKeeps(sched, st, l, TicksIn(ledger, l.from, k), SnapsIn(history, l.born, k));
    MovedKept(sched, k, Warmed(st), l.(warmAfter := Some(l.latest)), ledger, history);
    LedgerStays(k, ledger);
    HistoryStays(k, history);
    BooksEntries(sched, tokens, life, ledger, history);
    OneTokenChanges(sched, k, tokens, life, ledger, history, Warmed(st), l.(warmAfter := Some(l.latest)), ledger,
      history);
  }

  lemma MovedKept(sched: SnapshotSchedule, k: TokenKey, st: TokenState, l: Life, ledger: seq<Entry>,
      history: seq<Snapshot>)
    requires l.from <= |ledger| && l.born <= |history|
    requires LifeOk(sched, l, TicksIn(ledger, l.from, k), SnapsIn(history, l.born, k))
    requires StateOk(sched, st, l, TicksIn(ledger, l.from, k), SnapsIn(history, l.born, k))
    ensures LifeKept(sched, k, l, ledger, history) && StateKept(sched, k, st, l, ledger, history)
  {
    hide LifeOk, StateOk, TicksIn, SnapsIn;
  }

  lemma NothingSince(ledger: seq<Entry>, history: seq<Snapshot>, k: TokenKey)
    ensures TicksIn(ledger, |ledger|, k) == [] && SnapsIn(history, |history|, k) == []
      && TradesIn(ledger, |ledger|, k) == []
  {
  }

  /** A token enters memory: its books start empty at the current ends of the logs. */
  lemma BooksCreate(sched: SnapshotSchedule, k: TokenKey, tokens: map<TokenKey, TokenState>, life: map<TokenKey, Life>,
                    ledger: seq<Entry>, history: seq<Snapshot>, e: Event)
    requires BooksOk(sched, tokens, life, ledger, history)
    ensures BooksOk(sched, tokens[k := FreshState(e)],
                    life[k := Life(e.time, e.time, |ledger|, |history|, true, None)], ledger, history)
  {
    hide BooksOk, LifeOk, StateOk, TicksIn, SnapsIn, EntryOk, FreshState, LifeKept, StateKept, LedgerKeepsOthers,
      HistoryKeepsOthers;
    var l := Life(e.time, e.time, |ledger|, |history|, true, None);
    FreshKeeps(sched, e, |ledger|, |history|);
    NothingSince(ledger, history, k);
    MovedKept(sched, k, FreshState(e), l, ledger, history);
    LedgerStays(k, ledger);
    HistoryStays(k, history);
    BooksEntries(sched, tokens, life, ledger, history);
    OneTokenChanges(sched, k, tokens, life, ledger, history, FreshState(e), l, ledger, history);
  }

  /** What the books read of a token's state. */
  predicate SameBooks(a: TokenState, b: TokenState) {
    && a.discoveredAt == b.discoveredAt && a.agg == b.agg
    && a.lastEmitted == b.lastEmitted && a.emittedMilestones == b.emittedMilestones
    && a.rolling == b.rolling && a.tradeLog == b.tradeLog && a.tier == b.tier
  }

  lemma BooksSame(sched: SnapshotSchedule, k: TokenKey, tokens: map<TokenKey, TokenState>, life: map<TokenKey, Life>,
                  ledger: seq<Entry>, history: seq<Snapshot>, st: TokenState)
    requires BooksOk(sched, tokens, life, ledger, history) && k in tokens && SameBooks(st, tokens[k])
    ensures BooksOk(sched, tokens[k := st], life, ledger, history)
  {
    hide BooksOk, LifeOk, StateOk, TicksIn, SnapsIn, EntryOk, SameBooks, LedgerKeepsOthers, HistoryKeepsOthers,
      LifeKept, StateKept;
    KeptOf(sched, k, tokens, life, ledger, history);
    SameStateKept(sched, k, tokens[k], st, life[k], ledger, history);
    LedgerStays(k, ledger);
    HistoryStays(k, history);
    BooksEntries(sched, tokens, life, ledger, history);
    OneTokenChanges(sched, k, tokens, life, ledger, history, st, life[k], ledger, history);
    assert life[k := life[k]] == life;
  }

  lemma HistoryStays(k: TokenKey, history: seq<Snapshot>)
    ensures HistoryKeepsOthers(k, history, history)
  {
  }

  lemma SameStateKept(sched: SnapshotSchedule, k: TokenKey, a: TokenState, b: TokenState, l: Life,
                      ledger: seq<Entry>, history: seq<Snapshot>)
    requires StateKept(sched, k, a, l, ledger, history) && SameBooks(b, a)
    ensures StateKept(sched, k, b, l, ledger, history)
  {
    hide TicksIn, SnapsIn, AggMatches, LastN, Milestones, LastStamp, PrunesAll;
  }

  // ---------------------------------------------------------------- resolving trades

  function Lookup(byCurve: Index, byPool: Index, chain: Chain, curve: Option<string>,
      pool: Option<string>): Option<TokenKey> {
    if curve.Some? && (chain, AddrKey(chain, curve.value)) in byCurve
      then Some(byCurve[(chain, AddrKey(chain, curve.value))])
    else if pool.Some? && (chain, AddrKey(chain, pool.value)) in byPool
      then Some(byPool[(chain, AddrKey(chain, pool.value))])
    else None
  }

  /** A trade or lifecycle event names its token, or is found by its curve, or by its pool. */
  function Resolve(byCurve: Index, byPool: Index, e: Event): Option<TokenKey> {
    if e.token != "" then Some(NewKey(e.chain, e.token))
    else Lookup(byCurve, byPool, e.chain, e.curve, e.pool)
  }

  /** The token an event is about: a discovery only ever names its token. */
  function Target(byCurve: Index, byPool: Index, e: Event): Option<TokenKey> {
    if e.Discovered? then KeyOf(e) else Resolve(byCurve, byPool, e)
  }

  lemma TargetIsKey(byCurve: Index, byPool: Index, e: Event)
    requires KeyOf(e).Some?
    ensures Target(byCurve, byPool, e) == KeyOf(e) && e.token != ""
  {
    hide NewKey;
  }

  ghost predicate IndexOk(m: Index) {
    forall p :: p in m ==> m[p].chain == p.0 && NormalKey(m[p])
  }

  lemma ResolvedIsNormal(byCurve: Index, byPool: Index, e: Event)
    requires IndexOk(byCurve) && IndexOk(byPool)
    ensures var r := Resolve(byCurve, byPool, e); r.Some? ==> NormalKey(r.value) && r.value.chain == e.chain
  {
    if e.token != "" {
      NewKeyIsNormal(e.chain, e.token);
    }
    hide NormalKey, NewKey, AddrKey;
  }

  /** Waiting for its token: a trade with no address. */
  predicate Parkable(e: Event) {
    e.Trade? && e.token == ""
  }

  /** No parked trade could be applied with these indexes. */
  ghost predicate NoneStuck(parked: seq<Event>, byCurve: Index, byPool: Index) {
    forall i :: 0 <= i < |parked| ==> Parkable(parked[i]) && Resolve(byCurve, byPool, parked[i]).None?
  }

  /** The only parked trades that can be applied belong to `k`. */
  ghost predicate OnlyFor(k: TokenKey, parked: seq<Event>, byCurve: Index, byPool: Index) {
    forall i :: 0 <= i < |parked| ==>
      Parkable(parked[i])
      && (Resolve(byCurve, byPool, parked[i]).None? || Resolve(byCurve, byPool, parked[i]) == Some(k))
  }

  function Indexed(m: Index, chain: Chain, addr: Option<string>, k: TokenKey): Index {
    if addr.None? then m else m[(chain, AddrKey(chain, addr.value)) := k]
  }

  /** Indexing a token makes resolvable only trades of that token: so applying them never has to
      create another token. */
  lemma IndexingFrees(k: TokenKey, parked: seq<Event>, byCurve: Index, byPool: Index, curve: Option<string>,
      pool: Option<string>)
    requires IndexOk(byCurve) && IndexOk(byPool) && NormalKey(k) && NoneStuck(parked, byCurve, byPool)
    ensures var c, p := Indexed(byCurve, k.chain, curve, k), Indexed(byPool, k.chain, pool, k);
      IndexOk(c) && IndexOk(p) && OnlyFor(k, parked, c, p)
  {
    hide NormalKey, NewKey, AddrKey;
    var c, p := Indexed(byCurve, k.chain, curve, k), Indexed(byPool, k.chain, pool, k);
    forall i | 0 <= i < |parked|
      ensures Parkable(parked[i]) && (Resolve(c, p, parked[i]).None? || Resolve(c, p, parked[i]) == Some(k))
    {
      assert Resolve(byCurve, byPool, parked[i]).None?;
    }
  }

  // ---------------------------------------------------------------- flushing the parked trades

  /** The parked trades these indexes resolve, in order, and those they do not. */
  function Freed(parked: seq<Event>, byCurve: Index, byPool: Index): seq<Event> {
    if parked == [] then []
    else (if Resolve(byCurve, byPool, parked[0]).Some? then [parked[0]] else []) + Freed(parked[1..], byCurve, byPool)
  }

  function StillParked(parked: seq<Event>, byCurve: Index, byPool: Index): seq<Event> {
    if parked == [] then []
    else
      (if Resolve(byCurve, byPool, parked[0]).None? then [parked[0]] else [])
      + StillParked(parked[1..], byCurve, byPool)
  }

  /** After a flush: what the indexes resolve was folded in, in order, and the rest stayed parked, in order. */
  ghost predicate Flushed(ledger: seq<Entry>, parked: seq<Event>, ledger': seq<Entry>, parked': seq<Event>,
      byCurve: Index, byPool: Index) {
    && Trades(ledger') == Trades(ledger) + Freed(parked, byCurve, byPool)
    && parked' == StillParked(parked, byCurve, byPool)
  }

  /** A flush under way: what was done, and what is left to retry. */
  ghost predicate Flushing(ledger: seq<Entry>, parked: seq<Event>, ledger': seq<Entry>, parked': seq<Event>,
      left: seq<Event>, byCurve: Index, byPool: Index) {
    && Trades(ledger') + Freed(left, byCurve, byPool) == Trades(ledger) + Freed(parked, byCurve, byPool)
    && parked' + StillParked(left, byCurve, byPool) == StillParked(parked, byCurve, byPool)
  }

  lemma FlushStarts(ledger: seq<Entry>, parked: seq<Event>, byCurve: Index, byPool: Index)
    ensures Flushing(ledger, parked, ledger, [], parked, byCurve, byPool)
  {
  }

  lemma FlushEnds(ledger: seq<Entry>, parked: seq<Event>, ledger': seq<Entry>, parked': seq<Event>, byCurve: Index,
      byPool: Index)
    requires Flushing(ledger, parked, ledger', parked', [], byCurve, byPool)
    ensures Flushed(ledger, parked, ledger', parked', byCurve, byPool)
  {
    hide Resolve, Trades;
    assert Trades(ledger') + [] == Trades(ledger') && parked' + [] == parked';
  }

  lemma FlushStep(ledger: seq<Entry>, parked: seq<Event>, l1: seq<Entry>, p1: seq<Event>, left: seq<Event>,
                  l2: seq<Entry>, p2: seq<Event>, byCurve: Index, byPool: Index)
    requires left != [] && Flushing(ledger, parked, l1, p1, left, byCurve, byPool)
    requires if Resolve(byCurve, byPool, left[0]).Some? then Trades(l2) == Trades(l1) + [left[0]] && p2 == p1
             else Trades(l2) == Trades(l1) && p2 == p1 + [left[0]]
    ensures Flushing(ledger, parked, l2, p2, left[1..], byCurve, byPool)
  {
    hide Resolve, Trades, Freed, StillParked;
    FreedStep(left, byCurve, byPool);
    var t, f, k := left[0], Freed(left[1..], byCurve, byPool), StillParked(left[1..], byCurve, byPool);
    if Resolve(byCurve, byPool, t).Some? {
      Regroup(Trades(l1), [t], f);
    } else {
      Regroup(p1, [t], k);
    }
  }

  lemma Regroup(a: seq<Event>, b: seq<Event>, c: seq<Event>)
    ensures a + (b + c) == a + b + c
  {
  }

  lemma FreedStep(left: seq<Event>, byCurve: Index, byPool: Index)
    requires left != []
    ensures var f, k := Freed(left[1..], byCurve, byPool), StillParked(left[1..], byCurve, byPool);
      if Resolve(byCurve, byPool, left[0]).Some? then
        Freed(left, byCurve, byPool) == [left[0]] + f && StillParked(left, byCurve, byPool) == k
      else
        Freed(left, byCurve, byPool) == f && StillParked(left, byCurve, byPool) == [left[0]] + k
  {
    hide Resolve;
    assert [] + Freed(left[1..], byCurve, byPool) == Freed(left[1..], byCurve, byPool);
    assert [] + StillParked(left[1..], byCurve, byPool) == StillParked(left[1..], byCurve, byPool);
  }

  /** What a trade does not change of a token. */
  predicate SameIdentity(a: TokenState, b: TokenState) {
    a.launchpad == b.launchpad && a.creator == b.creator && a.discoveredAt == b.discoveredAt && a.curve == b.curve
      && a.pool == b.pool
  }

  lemma TradeKeepsIdentity(st: TokenState, e: Event, t: Time)
    requires e.Trade? && WellShaped(st.rolling)
    ensures SameIdentity(st, WithTrade(st, e, t))
  {
  }
}
