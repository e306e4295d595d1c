/** The fail-closed gate on historical datasets: a streaming scan that keeps counters and sets, and the verdict
    drawn from them, characterised over whole streams of events. */
module DatasetGate {
  import opened Amounts
  import opened Domain

  datatype RowType = Launch | TradeRow | Graduation

  datatype AmountQuality = OnchainInteger | IntegerValuedFloat | FloatNotInteger | Missing | Inconsistent

  datatype CorpusRow = CorpusRow(
    mint: string, rowType: RowType, slot: Option<nat>, signature: Option<string>, amount: AmountQuality,
    time: int, file: string, row: nat, sequence: nat, ageMilli: Option<int>)

  /** An event is a row of the decoded corpus, with its content hash, or something else. */
  datatype RawEvent = Corpus(row: CorpusRow, id: string) | OtherEvent

  // ---------------------------------------------------------------- the order of rows

  datatype OrderKey = OrderKey(time: int, rank: nat, mint: string, file: string, row: nat, sequence: nat)

  function Rank(t: RowType): nat {
    match t
    case Launch => 0
    case TradeRow => 1
    case Graduation => 2
  }

  function KeyOfRow(c: CorpusRow): OrderKey {
    OrderKey(c.time, Rank(c.rowType), c.mint, c.file, c.row, c.sequence)
  }

  predicate Before(a: OrderKey, b: OrderKey) {
    if a.time != b.time then a.time < b.time
    else if a.rank != b.rank then a.rank < b.rank
    else if a.mint != b.mint then TextLess(a.mint, b.mint)
    else if a.file != b.file then TextLess(a.file, b.file)
    else if a.row != b.row then a.row < b.row
    else a.sequence < b.sequence
  }

  lemma BeforeIsTotal(a: OrderKey, b: OrderKey, c: OrderKey)
    ensures !Before(a, a) && (Before(a, b) || Before(b, a) || a == b)
    ensures Before(a, b) && Before(b, c) ==> Before(a, c)
  {
    hide TextLess;
    TextOrder(a.mint, b.mint, c.mint);
    TextOrder(a.file, b.file, c.file);
  }

  // ---------------------------------------------------------------- what a stream contains

  predicate Usable(e: RawEvent) {
    e.Corpus? && e.row.mint != ""
  }

  datatype Feature =
    | IsCorpus | IsUsable | HasSlot | HasSignature | IntegerAmount | FloatAmount | NoAmount
    | Typed(t: RowType) | TradeOf(mint: string)

  predicate Has(e: RawEvent, f: Feature) {
    if f.IsCorpus? then e.Corpus?
    else
      Usable(e)
      && match f
         case IsCorpus => true
         case IsUsable => true
         case HasSlot => e.row.slot.Some?
         case HasSignature => e.row.signature.Some? && e.row.signature.value != ""
         case IntegerAmount => e.row.amount.OnchainInteger?
         case FloatAmount => e.row.amount.FloatNotInteger? || e.row.amount.IntegerValuedFloat?
         case NoAmount => e.row.amount.Missing? || e.row.amount.Inconsistent?
         case Typed(t) => e.row.rowType == t
         case TradeOf(m) => e.row.rowType.TradeRow? && e.row.mint == m
  }

  function Count(rows: seq<RawEvent>, f: Feature): nat {
    if rows == [] then 0 else Count(rows[..|rows| - 1], f) + if Has(rows[|rows| - 1], f) then 1 else 0
  }

  lemma CountAppend(rows: seq<RawEvent>, e: RawEvent, f: Feature)
    ensures Count(rows + [e], f) == Count(rows, f) + if Has(e, f) then 1 else 0
  {
    assert (rows + [e])[..|rows|] == rows;
  }

  lemma {:induction false} CountRange(rows: seq<RawEvent>, f: Feature)
    ensures Count(rows, f) <= |rows|
    ensures Count(rows, f) == |rows| <==> forall i :: 0 <= i < |rows| ==> Has(rows[i], f)
    ensures Count(rows, f) == 0 <==> forall i :: 0 <= i < |rows| ==> !Has(rows[i], f)
  {
    hide Has;
    if rows != [] {
      CountRange(rows[..|rows| - 1], f);
    }
  }

  /** The mints of the usable rows of one type, or of any. */
  function Mints(rows: seq<RawEvent>, t: Option<RowType>): set<string> {
    set i | 0 <= i < |rows| && Usable(rows[i]) && (t.None? || rows[i].row.rowType == t.value) :: rows[i].row.mint
  }

  lemma MintsAppend(rows: seq<RawEvent>, e: RawEvent, t: Option<RowType>)
    ensures Mints(rows + [e], t)
         == Mints(rows, t) + if Usable(e) && (t.None? || e.row.rowType == t.value) then {e.row.mint} else {}
  {
    var more := rows + [e];
    forall m ensures m in Mints(more, t)
                <==> m in Mints(rows, t) || (Usable(e) && (t.None? || e.row.rowType == t.value) && m == e.row.mint) {
      if m in Mints(rows, t) {
        var i :| 0 <= i < |rows| && Usable(rows[i]) && (t.None? || rows[i].row.rowType == t.value)
          && rows[i].row.mint == m;
        assert more[i].row.mint == m;
      }
      if Usable(e) && (t.None? || e.row.rowType == t.value) && m == e.row.mint { assert more[|rows|].row.mint == m; }
    }
  }

  function Keys(rows: seq<RawEvent>): seq<OrderKey> {
    if rows == [] then []
    else Keys(rows[..|rows| - 1]) + if Usable(rows[|rows| - 1]) then [KeyOfRow(rows[|rows| - 1].row)] else []
  }

  function Violations(keys: seq<OrderKey>): nat {
    if |keys| < 2 then 0
    else Violations(keys[..|keys| - 1]) + if Before(keys[|keys| - 1], keys[|keys| - 2]) then 1 else 0
  }

  predicate InKeyOrder(keys: seq<OrderKey>) {
    forall i, j :: 0 <= i < j < |keys| ==> !Before(keys[j], keys[i])
  }

  /** Comparing neighbours decides whether the whole stream is sorted. */
  lemma {:induction false} NoViolationsIsSorted(keys: seq<OrderKey>)
    ensures Violations(keys) == 0 <==> InKeyOrder(keys)
  {
    hide Before;
    if |keys| >= 2 {
      var front, n := keys[..|keys| - 1], |keys|;
      NoViolationsIsSorted(front);
      if InKeyOrder(keys) {
        assert InKeyOrder(front);
        assert !Before(keys[n - 1], keys[n - 2]);
      }
      if InKeyOrder(front) && !Before(keys[n - 1], keys[n - 2]) {
        forall i, j | 0 <= i < j < n ensures !Before(keys[j], keys[i]) {
          if j == n - 1 && i < n - 2 {
            assert !Before(front[n - 2], front[i]);
            BeforeIsTotal(keys[n - 1], keys[i], keys[n - 2]);
            BeforeIsTotal(keys[i], keys[n - 2], keys[n - 1]);
          } else {
            assert j < n - 1 ==> front[i] == keys[i] && front[j] == keys[j];
          }
        }
      }
    }
  }

  // ---------------------------------------------------------------- the scan

  datatype DatasetScan = DatasetScan(
    events: nat, invalidRows: nat, exactDupRows: nat, dupEventIds: nat, orderingViolations: nat,
    hasSlot: nat, hasSignature: nat, integerAmounts: nat, floatAmounts: nat, missingAmounts: nat,
    trades: nat, launches: nat, graduations: nat, schemaOk: bool)

  datatype TokenAcc = TokenAcc(launch: bool, graduated: bool, trades: nat, maxAge: int)

  /** The counters are the counts of the stream. */
  ghost predicate ScanIs(s: DatasetScan, rows: seq<RawEvent>) {
    && s.events == |rows| && s.invalidRows == |rows| - Count(rows, IsUsable)
    && (s.schemaOk <==> Count(rows, IsCorpus) == |rows|)
    && s.orderingViolations == Violations(Keys(rows))
    && s.hasSlot == Count(rows, HasSlot) && s.hasSignature == Count(rows, HasSignature)
    && s.integerAmounts == Count(rows, IntegerAmount) && s.floatAmounts == Count(rows, FloatAmount)
    && s.missingAmounts == Count(rows, NoAmount)
    && s.trades == Count(rows, Typed(TradeRow)) && s.launches == Count(rows, Typed(Launch))
    && s.graduations == Count(rows, Typed(Graduation))
  }

  /** The per-mint records are those of the stream. */
  ghost predicate TokensAre(tokens: map<string, TokenAcc>, rows: seq<RawEvent>) {
    && tokens.Keys == Mints(rows, None)
    && (forall m :: m in tokens ==>
          && (tokens[m].launch <==> m in Mints(rows, Some(Launch)))
          && (tokens[m].graduated <==> m in Mints(rows, Some(Graduation)))
          && tokens[m].trades == Count(rows, TradeOf(m)))
  }

  function AccAfter(acc: TokenAcc, c: CorpusRow): TokenAcc {
    match c.rowType
    case Launch => acc.(launch := true)
    case TradeRow =>
      acc.(trades := acc.trades + 1,
           maxAge := if c.ageMilli.Some? && c.ageMilli.value > acc.maxAge then c.ageMilli.value else acc.maxAge)
    case Graduation => acc.(graduated := true)
  }

  function AccOf(tokens: map<string, TokenAcc>, m: string): TokenAcc {
    if m in tokens then tokens[m] else TokenAcc(false, false, 0, 0)
  }

  lemma {:induction false} NoTradesOfStrangers(rows: seq<RawEvent>, m: string)
    requires m !in Mints(rows, None)
    ensures Count(rows, TradeOf(m)) == 0 && forall t :: m !in Mints(rows, t)
  {
    CountRange(rows, TradeOf(m));
  }

  lemma TokensAfter(tokens: map<string, TokenAcc>, rows: seq<RawEvent>, e: RawEvent)
    requires TokensAre(tokens, rows) && Usable(e)
    ensures TokensAre(tokens[e.row.mint := AccAfter(AccOf(tokens, e.row.mint), e.row)], rows + [e])
  {
    hide Mints, Count;
    var m := e.row.mint;
    if m !in tokens { NoTradesOfStrangers(rows, m); }
    MintsAppend(rows, e, None);
    MintsAppend(rows, e, Some(Launch));
    MintsAppend(rows, e, Some(Graduation));
    forall n
      ensures Count(rows + [e], TradeOf(n))
           == Count(rows, TradeOf(n)) + if e.row.rowType.TradeRow? && n == m then 1 else 0
    {
      CountAppend(rows, e, TradeOf(n));
    }
  }

  lemma KeysAppend(rows: seq<RawEvent>, e: RawEvent)
    ensures Keys(rows + [e]) == Keys(rows) + if Usable(e) then [KeyOfRow(e.row)] else []
  {
    assert (rows + [e])[..|rows|] == rows;
  }

  lemma ViolationsAppend(keys: seq<OrderKey>, k: OrderKey)
    ensures Violations(keys + [k]) == Violations(keys) + if keys != [] && Before(k, keys[|keys| - 1]) then 1 else 0
  {
    assert (keys + [k])[..|keys|] == keys;
  }

  function LastKey(rows: seq<RawEvent>): Option<OrderKey> {
    if Keys(rows) == [] then None else Some(Keys(rows)[|Keys(rows)| - 1])
  }

  /** The counters after one usable row, duplicates aside. */
  function ScanAfter(s: DatasetScan, prev: Option<OrderKey>, c: CorpusRow): DatasetScan {
    var amount := c.amount;
    s.(events := s.events + 1,
       orderingViolations := s.orderingViolations + if prev.Some? && Before(KeyOfRow(c), prev.value) then 1 else 0,
       hasSlot := s.hasSlot + if c.slot.Some? then 1 else 0,
       hasSignature := s.hasSignature + if c.signature.Some? && c.signature.value != "" then 1 else 0,
       integerAmounts := s.integerAmounts + if amount.OnchainInteger? then 1 else 0,
       floatAmounts := s.floatAmounts + if amount.FloatNotInteger? || amount.IntegerValuedFloat? then 1 else 0,
       missingAmounts := s.missingAmounts + if amount.Missing? || amount.Inconsistent? then 1 else 0,
       launches := s.launches + if c.rowType.Launch? then 1 else 0,
       trades := s.trades + if c.rowType.TradeRow? then 1 else 0,
       graduations := s.graduations + if c.rowType.Graduation? then 1 else 0)
  }

  lemma ScanCounts(s: DatasetScan, rows: seq<RawEvent>, e: RawEvent)
    requires ScanIs(s, rows) && Usable(e)
    ensures ScanIs(ScanAfter(s, LastKey(rows), e.row), rows + [e])
  {
    hide Count, Keys, Violations, Before, KeyOfRow;
    CountAppend(rows, e, IsCorpus);
    CountAppend(rows, e, IsUsable);
    CountAppend(rows, e, HasSlot);
    CountAppend(rows, e, HasSignature);
    CountAppend(rows, e, IntegerAmount);
    CountAppend(rows, e, FloatAmount);
    CountAppend(rows, e, NoAmount);
    CountAppend(rows, e, Typed(TradeRow));
    CountAppend(rows, e, Typed(Launch));
    CountAppend(rows, e, Typed(Graduation));
    KeysAppend(rows, e);
    ViolationsAppend(Keys(rows), KeyOfRow(e.row));
  }

  lemma ScanSkips(s: DatasetScan, rows: seq<RawEvent>, e: RawEvent)
    requires ScanIs(s, rows) && !Usable(e)
    ensures ScanIs(s.(events := s.events + 1, invalidRows := s.invalidRows + 1, schemaOk := s.schemaOk && e.Corpus?),
      rows + [e])
    ensures LastKey(rows + [e]) == LastKey(rows)
  {
    hide Count, Violations, Before, KeyOfRow;
    CountAppend(rows, e, IsCorpus);
    CountAppend(rows, e, IsUsable);
    CountAppend(rows, e, HasSlot);
    CountAppend(rows, e, HasSignature);
    CountAppend(rows, e, IntegerAmount);
    CountAppend(rows, e, FloatAmount);
    CountAppend(rows, e, NoAmount);
    CountAppend(rows, e, Typed(TradeRow));
    CountAppend(rows, e, Typed(Launch));
    CountAppend(rows, e, Typed(Graduation));
    KeysAppend(rows, e);
    CountRange(rows, IsCorpus);
    hide Keys;
    assert Keys(rows) + [] == Keys(rows);
  }

  lemma TokensSkip(tokens: map<string, TokenAcc>, rows: seq<RawEvent>, e: RawEvent)
    requires TokensAre(tokens, rows) && !Usable(e)
    ensures TokensAre(tokens, rows + [e]) && Mints(rows + [e], Some(Launch)) == Mints(rows, Some(Launch))
  {
    hide Mints, Count, Usable;
    MintsAppend(rows, e, None);
    MintsAppend(rows, e, Some(Launch));
    MintsAppend(rows, e, Some(Graduation));
    forall n ensures Count(rows + [e], TradeOf(n)) == Count(rows, TradeOf(n)) {
      CountAppend(rows, e, TradeOf(n));
    }
  }

  datatype Coverage = Coverage(launches: nat, withTrade: nat, withTenTrades: nat, survived30s: nat, survived60s: nat,
      survived2m: nat, survived5m: nat, survived15m: nat, graduated: nat, zeroTrade: nat, incompleteLifecycle: nat)

  datatype Criterion = Graduated | Traded | TradedTen | NeverTraded | Survived(ms: int) | Incomplete

  predicate Meets(a: TokenAcc, c: Criterion) {
    match c
    case Graduated => a.graduated
    case Traded => a.trades >= 1
    case TradedTen => a.trades >= 10
    case NeverTraded => a.trades == 0
    case Survived(ms) => a.maxAge >= ms
    case Incomplete => a.launch && !a.graduated && a.trades == 0
  }

  function Meeting(tokens: map<string, TokenAcc>, among: set<string>, c: Criterion): set<string> {
    set m | m in among && m in tokens && Meets(tokens[m], c)
  }

  /** Every coverage number counts the mints, among these, that meet its criterion. */
  ghost predicate CoverageIs(v: Coverage, tokens: map<string, TokenAcc>, among: set<string>) {
    && v.withTrade == |Meeting(tokens, among, Traded)| && v.withTenTrades == |Meeting(tokens, among, TradedTen)|
    && v.survived30s == |Meeting(tokens, among, Survived(30_000))|
    && v.survived60s == |Meeting(tokens, among, Survived(60_000))|
    && v.survived2m == |Meeting(tokens, among, Survived(120_000))|
    && v.survived5m == |Meeting(tokens, among, Survived(300_000))|
    && v.survived15m == |Meeting(tokens, among, Survived(900_000))|
    && v.graduated == |Meeting(tokens, among, Graduated)|
    && v.zeroTrade == |Meeting(tokens, among, NeverTraded)|
    && v.incompleteLifecycle == |Meeting(tokens, among, Incomplete)|
  }

  function Covered(v: Coverage, a: TokenAcc): Coverage {
    v.(withTrade := v.withTrade + if a.trades >= 1 then 1 else 0,
       withTenTrades := v.withTenTrades + if a.trades >= 10 then 1 else 0,
       zeroTrade := v.zeroTrade + if a.trades == 0 then 1 else 0,
       survived30s := v.survived30s + if a.maxAge >= 30_000 then 1 else 0,
       survived60s := v.survived60s + if a.maxAge >= 60_000 then 1 else 0,
       survived2m := v.survived2m + if a.maxAge >= 120_000 then 1 else 0,
       survived5m := v.survived5m + if a.maxAge >= 300_000 then 1 else 0,
       survived15m := v.survived15m + if a.maxAge >= 900_000 then 1 else 0,
       graduated := v.graduated + if a.graduated then 1 else 0,
       incompleteLifecycle := v.incompleteLifecycle + if a.launch && !a.graduated && a.trades == 0 then 1 else 0)
  }

  lemma MeetingOneMore(tokens: map<string, TokenAcc>, among: set<string>, m: string, c: Criterion)
    requires m in tokens && m !in among
    ensures |Meeting(tokens, among + {m}, c)| == |Meeting(tokens, among, c)| + if Meets(tokens[m], c) then 1 else 0
  {
    hide Meets;
    assert Meeting(tokens, among + {m}, c) == Meeting(tokens, among, c) + if Meets(tokens[m], c) then {m} else {};
  }

  lemma CoverOne(v: Coverage, tokens: map<string, TokenAcc>, among: set<string>, m: string)
    requires CoverageIs(v, tokens, among) && m in tokens && m !in among
    ensures CoverageIs(Covered(v, tokens[m]), tokens, among + {m})
  {
    hide Meeting;
    MeetingOneMore(tokens, among, m, Traded);
    MeetingOneMore(tokens, among, m, TradedTen);
    MeetingOneMore(tokens, among, m, Survived(30_000));
    MeetingOneMore(tokens, among, m, Survived(60_000));
    MeetingOneMore(tokens, among, m, Survived(120_000));
    MeetingOneMore(tokens, among, m, Survived(300_000));
    MeetingOneMore(tokens, among, m, Survived(900_000));
    MeetingOneMore(tokens, among, m, Graduated);
    MeetingOneMore(tokens, among, m, NeverTraded);
    MeetingOneMore(tokens, among, m, Incomplete);
  }

  lemma NoneCovered(v: Coverage, tokens: map<string, TokenAcc>)
    requires v == Coverage(v.launches, 0, 0, 0, 0, 0, 0, 0, 0, 0, 0)
    ensures CoverageIs(v, tokens, {})
  {
    assert forall c :: Meeting(tokens, {}, c) == {};
  }

  lemma NoMints()
    ensures Mints([], Some(Launch)) == {}
  {
  }

  /** Each launched mint took at least one launch row. */
  lemma {:induction false} LaunchesCoverMints(rows: seq<RawEvent>)
    ensures |Mints(rows, Some(Launch))| <= Count(rows, Typed(Launch))
  {
    hide Mints;
    if rows != [] {
      var front, e := rows[..|rows| - 1], rows[|rows| - 1];
      LaunchesCoverMints(front);
      MintsAppend(front, e, Some(Launch));
      CountAppend(front, e, Typed(Launch));
      assert rows == front + [e];
    } else {
      NoMints();
    }
  }

  class StreamingScan {
    const storeIds: bool
    var scan: DatasetScan
    var tokens: map<string, TokenAcc>
    var seenIds: set<string>
    var seenRows: set<(string, nat, RowType)>
    var launchMints: set<string>
    var previous: Option<OrderKey>
    /** Every event pushed, in order. */
    ghost var rows: seq<RawEvent>

    ghost predicate Valid()
      reads this
    {
      && ScanIs(scan, rows) && TokensAre(tokens, rows)
      && launchMints == Mints(rows, Some(Launch)) && previous == LastKey(rows)
      && (storeIds ==> scan.dupEventIds + |seenIds| == Count(rows, IsUsable)
                       && scan.exactDupRows + |seenRows| == Count(rows, IsUsable))
    }

    constructor (store: bool)
      ensures Valid() && rows == [] && storeIds == store
    {
      storeIds := store;
      scan := DatasetScan(0, 0, 0, 0, 0, 0, 0, 0, 0, 0, 0, 0, 0, true);
      tokens, seenIds, seenRows, launchMints, previous, rows := map[], {}, {}, {}, None, [];
    }

    /** One event: counted, recorded, and compared with the one before. */
    method Push(raw: RawEvent)
      requires Valid()
      modifies this
      ensures Valid() && rows == old(rows) + [raw]
    {
      hide ScanIs, TokensAre, Mints, LastKey, Count;
      if !raw.Corpus? || raw.row.mint == "" {
        ScanSkips(scan, rows, raw);
        TokensSkip(tokens, rows, raw);
        CountAppend(rows, raw, IsUsable);
        scan := scan.(events := scan.events + 1, invalidRows := scan.invalidRows + 1,
                      schemaOk := scan.schemaOk && raw.Corpus?);
        rows := rows + [raw];
        return;
      }
      var c := raw.row;
      Remember(raw);
      label Remembered:
      var s := ScanAfter(scan, previous, c);
      ScanCounts(scan, rows, raw);
      TokensAfter(tokens, rows, raw);
      MintsAppend(rows, raw, Some(Launch));
      NewLastKey(rows, raw);
      CountAppend(rows, raw, IsUsable);
      scan := s;
      previous := Some(KeyOfRow(c));
      if c.rowType.Launch? {
        launchMints := launchMints + {c.mint};
      }
      tokens := tokens[c.mint := AccAfter(AccOf(tokens, c.mint), c)];
      rows := rows + [raw];
    }

    /** Duplicates: by id and row when ids are stored, and otherwise by repeated order keys. */
    method Remember(raw: RawEvent)
      requires Valid() && Usable(raw)
      modifies `scan, `seenIds, `seenRows
      ensures ScanIs(scan, rows)
      ensures scan == old(scan).(dupEventIds := scan.dupEventIds, exactDupRows := scan.exactDupRows)
      ensures storeIds ==> scan.dupEventIds + |seenIds| == Count(rows, IsUsable) + 1
                           && scan.exactDupRows + |seenRows| == Count(rows, IsUsable) + 1
    {
      hide TokensAre, Mints, LastKey, Count, Keys, Violations, Before;
      if storeIds {
        assert raw.id in seenIds ==> seenIds + {raw.id} == seenIds;
        if raw.id in seenIds {
          scan := scan.(dupEventIds := scan.dupEventIds + 1);
        }
        seenIds := seenIds + {raw.id};
        var key := (raw.row.file, raw.row.row, raw.row.rowType);
        assert key in seenRows ==> seenRows + {key} == seenRows;
        if key in seenRows {
          scan := scan.(exactDupRows := scan.exactDupRows + 1);
        }
        seenRows := seenRows + {key};
      } else if previous.Some? && previous.value == KeyOfRow(raw.row) {
        scan := scan.(exactDupRows := scan.exactDupRows + 1);
      }
    }

    /** The coverage of the stream, in one pass over the mints. */
    method Finish() returns (coverage: Coverage, duplicateLaunches: nat)
      requires Valid()
      ensures coverage.launches == |Mints(rows, Some(Launch))|
      ensures CoverageIs(coverage, tokens, tokens.Keys)
      ensures duplicateLaunches + |Mints(rows, Some(Launch))| == scan.launches
    {
      hide ScanIs, TokensAre, Mints, LastKey, Count, CoverageIs;
      LaunchesCoverMints(rows);
      LaunchesCounted();
      duplicateLaunches := 0;
      if scan.launches > |launchMints| {
        duplicateLaunches := scan.launches - |launchMints|;
      }
      coverage := Coverage(|launchMints|, 0, 0, 0, 0, 0, 0, 0, 0, 0, 0);
      var todo, done := tokens.Keys, {};
      NoneCovered(coverage, tokens);
      while todo != {}
        invariant todo <= tokens.Keys && done == tokens.Keys - todo
        invariant coverage.launches == |launchMints| && CoverageIs(coverage, tokens, done)
        decreases |todo|
      {
        var m :| m in todo;
        CoverOne(coverage, tokens, done, m);
        coverage := Covered(coverage, tokens[m]);
        todo, done := todo - {m}, done + {m};
      }
      assert done == tokens.Keys;
    }

    lemma LaunchesCounted()
      requires Valid()
      ensures scan.launches == Count(rows, Typed(Launch))
    {
    }
  }

  lemma NewLastKey(rows: seq<RawEvent>, e: RawEvent)
    requires Usable(e)
    ensures LastKey(rows + [e]) == Some(KeyOfRow(e.row))
  {
    KeysAppend(rows, e);
    hide Keys;
  }

  // ---------------------------------------------------------------- the verdict

  datatype DatasetVerdict = ResearchValid | FeatureOnly | Invalid | NotFound

  datatype Bias = AllLaunches | GraduatedOnly | UnknownBias

  datatype Validation = Validation(schemaValid: bool, orderingValid: bool, launchPopulationValid: bool,
      deadTokensPresent: bool, tradeAmountsValid: bool, curveReconstructable: bool, executionValid: bool,
      featureValid: bool, exactIdentity: bool, bias: Bias, historicalReplay: bool, verdict: DatasetVerdict)

  function GraduationBias(launches: nat, graduated: nat): Bias {
    if launches == 0 then UnknownBias else if graduated == launches then GraduatedOnly else AllLaunches
  }

  function Validate(s: DatasetScan, v: Coverage): Validation {
    var schemaValid := s.schemaOk && v.launches > 0;
    var orderingValid := s.orderingViolations == 0;
    var bias := GraduationBias(v.launches, v.graduated);
    var populationValid := v.launches > 0 && !bias.GraduatedOnly?;
    var deadPresent := v.zeroTrade > 0 || v.graduated < v.launches;
    var exact := s.hasSignature == s.events && s.events > 0 && s.hasSlot == s.events;
    var amountsValid := s.trades > 0 && s.integerAmounts > 0 && s.missingAmounts == 0 && s.floatAmounts == 0;
    var curve := amountsValid && exact;
    var featureValid := schemaValid && orderingValid && populationValid && deadPresent && s.events > 0;
    var executionValid := featureValid && amountsValid && curve && exact && s.hasSlot == s.events;
    var verdict :=
      if !schemaValid || !populationValid then Invalid
      else if featureValid && executionValid then ResearchValid
      else if featureValid then FeatureOnly
      else Invalid;
    var complete := executionValid && featureValid && populationValid && deadPresent && !bias.GraduatedOnly?;
    Validation(schemaValid, orderingValid, populationValid, deadPresent, amountsValid, curve, executionValid,
               featureValid, exact, bias, complete, verdict)
  }

  /** Enough for features: only corpus rows, in order, with launches that did not all graduate. */
  ghost predicate FeatureGrade(rows: seq<RawEvent>) {
    var launched, graduated := Mints(rows, Some(Launch)), Mints(rows, Some(Graduation));
    && (forall i :: 0 <= i < |rows| ==> rows[i].Corpus?)
    && InKeyOrder(Keys(rows))
    && launched != {} && |graduated| != |launched|
    && (|graduated| < |launched| || exists m :: m in Mints(rows, None) && Count(rows, TradeOf(m)) == 0)
  }

  /** ... and for execution: every row placed in a slot and a signed transaction, with integer amounts, and
      something traded. */
  ghost predicate ExecutionGrade(rows: seq<RawEvent>) {
    && (forall i :: 0 <= i < |rows| ==>
          Has(rows[i], HasSlot) && Has(rows[i], HasSignature) && Has(rows[i], IntegerAmount))
    && exists i :: 0 <= i < |rows| && Has(rows[i], Typed(TradeRow))
  }

  lemma GraduatedAre(tokens: map<string, TokenAcc>, rows: seq<RawEvent>)
    requires TokensAre(tokens, rows)
    ensures Meeting(tokens, tokens.Keys, Graduated) == Mints(rows, Some(Graduation))
    ensures Meeting(tokens, tokens.Keys, NeverTraded) != {}
      <==> exists m :: m in Mints(rows, None) && Count(rows, TradeOf(m)) == 0
  {
    hide Count;
    assert forall m :: m in Mints(rows, Some(Graduation)) ==> m in Mints(rows, None);
    hide Mints;
    if m :| m in Mints(rows, None) && Count(rows, TradeOf(m)) == 0 {
      assert m in Meeting(tokens, tokens.Keys, NeverTraded);
    }
    if m :| m in Meeting(tokens, tokens.Keys, NeverTraded) {
      assert m in Mints(rows, None) && Count(rows, TradeOf(m)) == 0;
    }
  }

  lemma AmountsAre(rows: seq<RawEvent>)
    requires Count(rows, HasSlot) == |rows|
    ensures Count(rows, FloatAmount) == 0 && Count(rows, NoAmount) == 0
       <==> forall i :: 0 <= i < |rows| ==> Has(rows[i], IntegerAmount)
    ensures (forall i :: 0 <= i < |rows| ==> Has(rows[i], IntegerAmount)) ==> Count(rows, IntegerAmount) == |rows|
  {
    CountRange(rows, HasSlot);
    CountRange(rows, FloatAmount);
    CountRange(rows, NoAmount);
    CountRange(rows, IntegerAmount);
    forall i | 0 <= i < |rows|
      ensures Has(rows[i], IntegerAmount) <==> !Has(rows[i], FloatAmount) && !Has(rows[i], NoAmount)
    {
      assert Has(rows[i], HasSlot);
    }
  }

  /** The gate: research-valid, and replayable as history, exactly when the stream is of feature and execution
      grade; feature-only exactly when it is of feature grade alone; invalid otherwise. */
  lemma GateIsExact(s: DatasetScan, v: Coverage, tokens: map<string, TokenAcc>, rows: seq<RawEvent>)
    requires ScanIs(s, rows) && TokensAre(tokens, rows)
    requires v.launches == |Mints(rows, Some(Launch))| && CoverageIs(v, tokens, tokens.Keys)
    ensures var r := Validate(s, v);
      && (r.verdict.ResearchValid? <==> FeatureGrade(rows) && ExecutionGrade(rows))
      && (r.historicalReplay <==> r.verdict.ResearchValid?)
      && (r.verdict.FeatureOnly? <==> FeatureGrade(rows) && !ExecutionGrade(rows))
      && (r.verdict.Invalid? <==> !FeatureGrade(rows))
  {
    GraduatedAre(tokens, rows);
    SchemaIs(rows);
    NoViolationsIsSorted(Keys(rows));
    ExecutionIs(rows);
    hide Count, Mints, Keys, Violations, InKeyOrder, Meeting, Has, TokensAre, ExecutionGrade;
    assert v.graduated == |Mints(rows, Some(Graduation))|;
    assert v.zeroTrade > 0 <==> Meeting(tokens, tokens.Keys, NeverTraded) != {};
  }

  lemma SchemaIs(rows: seq<RawEvent>)
    ensures Count(rows, IsCorpus) == |rows| <==> forall i :: 0 <= i < |rows| ==> rows[i].Corpus?
    ensures Mints(rows, Some(Launch)) != {} ==> rows != []
  {
    CountRange(rows, IsCorpus);
    if rows == [] {
      assert Mints(rows, Some(Launch)) == {};
    }
    assert forall i :: 0 <= i < |rows| ==> (Has(rows[i], IsCorpus) <==> rows[i].Corpus?);
  }

  lemma ExecutionIs(rows: seq<RawEvent>)
    ensures ExecutionGrade(rows) <==>
      && rows != []
      && Count(rows, HasSignature) == |rows| && Count(rows, HasSlot) == |rows|
      && Count(rows, Typed(TradeRow)) > 0 && Count(rows, IntegerAmount) > 0
      && Count(rows, NoAmount) == 0 && Count(rows, FloatAmount) == 0
  {
    CountRange(rows, HasSlot);
    CountRange(rows, HasSignature);
    CountRange(rows, Typed(TradeRow));
    if Count(rows, HasSlot) == |rows| {
      AmountsAre(rows);
    }
    hide Has, Count;
  }

  /** The gate over a whole stream. */
  method ValidateStream(events: seq<RawEvent>, store: bool) returns (r: Validation)
    ensures r.verdict.ResearchValid? <==> FeatureGrade(events) && ExecutionGrade(events)
    ensures r.historicalReplay <==> r.verdict.ResearchValid?
    ensures r.verdict.FeatureOnly? <==> FeatureGrade(events) && !ExecutionGrade(events)
    ensures r.verdict.Invalid? <==> !FeatureGrade(events)
  {
    hide FeatureGrade, ExecutionGrade, Validate, ScanIs, TokensAre, Mints, LastKey, Count, CoverageIs;
    var s := new StreamingScan(store);
    var i := 0;
    while i < |events|
      invariant 0 <= i <= |events| && s.Valid() && s.rows == events[..i] && fresh(s)
    {
      s.Push(events[i]);
      assert events[..i + 1] == events[..i] + [events[i]];
      i := i + 1;
    }
    assert events[..i] == events;
    var coverage, _ := s.Finish();
    GateIsExact(s.scan, coverage, s.tokens, events);
    r := Validate(s.scan, coverage);
  }
}
