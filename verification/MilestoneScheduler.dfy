/** The live milestone timer: one heap of due milestones for all tokens, registered once each. */
module MilestoneScheduler {
  import opened Amounts
  import opened Schedule
  import opened Domain

  // ---------------------------------------------------------------- token ids

  function KeyId(k: TokenKey): string {
    k.chain.AsStr() + "|" + k.token
  }

  function FirstBar(s: string): nat {
    if s == "" || s[0] == '|' then 0 else 1 + FirstBar(s[1..])
  }

  lemma {:induction false} FirstBarIs(head: string, tail: string)
    requires '|' !in head
    ensures FirstBar(head + "|" + tail) == |head|
  {
    var s := head + "|" + tail;
    if head != "" {
      assert s[0] == head[0] && s[1..] == head[1..] + "|" + tail;
      FirstBarIs(head[1..], tail);
    } else {
      assert s[0] == '|';
    }
  }

  lemma {:induction false} FirstBarBound(s: string)
    ensures FirstBar(s) <= |s|
  {
    if s != "" {
      FirstBarBound(s[1..]);
    }
  }

  /** Splits at the first bar only, and falls back to Solana. */
  function Decode(id: string): TokenKey {
    FirstBarBound(id);
    var i := FirstBar(id);
    var chain := Chain.Parse(id[..i]);
    NewKey(if chain.Some? then chain.value else Solana, if i < |id| then id[i + 1..] else "")
  }

  /** The key in the form every constructor leaves it. */
  predicate IsBuilt(k: TokenKey) {
    NewKey(k.chain, k.token) == k
  }

  /** Decoding gives back the key, even when the token itself contains bars. */
  lemma DecodeKeyId(k: TokenKey)
    requires IsBuilt(k)
    ensures Decode(KeyId(k)) == k
  {
    hide AddrKey, NormalizeAddress;
    var head, id := k.chain.AsStr(), KeyId(k);
    assert '|' !in head && Chain.Parse(head) == Some(k.chain);
    FirstBarIs(head, k.token);
    assert id[..|head|] == head && id[|head| + 1..] == k.token;
  }

  // ---------------------------------------------------------------- due milestones

  datatype Due = Due(due: I64, id: string, age: I64)

  datatype Delivery = Delivery(key: TokenKey, age: I64, lateness: I64)

  /** The heap's order: by time, then id, then age. */
  predicate Sooner(a: Due, b: Due) {
    if a.due != b.due then a.due < b.due
    else if a.id != b.id then TextLess(a.id, b.id)
    else a.age < b.age
  }

  lemma SoonerIsTotal(a: Due, b: Due, c: Due)
    ensures !Sooner(a, a) && (Sooner(a, b) || Sooner(b, a) || a == b)
    ensures Sooner(a, b) && Sooner(b, c) ==> Sooner(a, c)
  {
    hide TextLess;
    TextOrder(a.id, b.id, c.id);
  }

  lemma SoonestExists(s: set<Due>)
    requires s != {}
    ensures exists d :: d in s && forall e :: e in s ==> !Sooner(e, d)
  {
    hide Sooner;
    var x :| x in s;
    var rest := s - {x};
    assert s == rest + {x};
    if rest == {} {
      SoonerIsTotal(x, x, x);
      assert x in s && forall e :: e in s ==> e == x;
    } else {
      SoonestExists(rest);
      var y :| y in rest && forall e :: e in rest ==> !Sooner(e, y);
      var d := if Sooner(x, y) then x else y;
      forall e | e in s ensures !Sooner(e, d) {
        SoonerIsTotal(e, x, y);
        SoonerIsTotal(x, y, e);
        SoonerIsTotal(x, x, x);
        assert e == x || e in rest;
      }
      assert d in s;
    }
  }

  predicate SoonestFirst(batch: seq<Due>) {
    forall i, j :: 0 <= i < j < |batch| ==> Sooner(batch[i], batch[j])
  }

  function IdsOf(batch: seq<Due>): set<(string, I64)> {
    set i | 0 <= i < |batch| :: (batch[i].id, batch[i].age)
  }

  function DeliveriesOf(batch: seq<Due>, now: I64): seq<Delivery> {
    seq(|batch|, i requires 0 <= i < |batch| =>
      Delivery(Decode(batch[i].id), batch[i].age, Saturate(now - batch[i].due)))
  }

  /** The heap and the queued set hold the same milestones, each once and at its promised time. */
  ghost predicate HeapAgrees(heap: multiset<Due>, queued: set<(string, I64)>, promised: map<(string, I64), I64>) {
    && (forall d :: d in heap ==> heap[d] == 1 && (d.id, d.age) in queued
                                  && (d.id, d.age) in promised && promised[(d.id, d.age)] == d.due)
    && (forall q :: q in queued ==> q in promised && Due(promised[q], q.0, q.1) in heap)
  }

  /** What was promised is either queued or delivered, never both, and always to a registered token. */
  ghost predicate PromisesSplit(queued: set<(string, I64)>, delivered: set<(string, I64)>,
      promised: map<(string, I64), I64>, registered: set<string>) {
    && promised.Keys == queued + delivered && queued !! delivered
    && (forall q :: q in promised ==> q.0 in registered)
  }

  ghost predicate RegisteredBuilt(registered: set<string>) {
    forall id :: id in registered ==> exists k :: IsBuilt(k) && id == KeyId(k)
  }

  lemma PushAgrees(heap: multiset<Due>, queued: set<(string, I64)>, promised: map<(string, I64), I64>, d: Due)
    requires HeapAgrees(heap, queued, promised) && (d.id, d.age) !in promised
    ensures HeapAgrees(heap + multiset{d}, queued + {(d.id, d.age)}, promised[(d.id, d.age) := d.due])
    ensures |heap + multiset{d}| == |heap| + 1
  {
    var heap', queued', promised' := heap + multiset{d}, queued + {(d.id, d.age)}, promised[(d.id, d.age) := d.due];
    forall e | e in heap' ensures heap'[e] == 1 && (e.id, e.age) in queued' && promised'[(e.id, e.age)] == e.due {
      if e != d { assert e in heap; }
    }
    forall q | q in queued' ensures q in promised' && Due(promised'[q], q.0, q.1) in heap' {
      if q != (d.id, d.age) { assert q in queued; }
    }
  }

  lemma PopAgrees(heap: multiset<Due>, queued: set<(string, I64)>, promised: map<(string, I64), I64>, d: Due)
    requires HeapAgrees(heap, queued, promised) && d in heap
    ensures HeapAgrees(heap - multiset{d}, queued - {(d.id, d.age)}, promised)
    ensures d !in heap - multiset{d} && |heap - multiset{d}| == |heap| - 1
    ensures forall e :: e in heap - multiset{d} <==> e in heap && e != d
  {
    var heap', queued' := heap - multiset{d}, queued - {(d.id, d.age)};
    forall e | e in heap' ensures heap'[e] == 1 && (e.id, e.age) in queued' {
      assert e in heap;
    }
  }

  lemma DeliverSplits(queued: set<(string, I64)>, delivered: set<(string, I64)>, promised: map<(string, I64), I64>,
                      registered: set<string>, q: (string, I64))
    requires PromisesSplit(queued, delivered, promised, registered) && q in queued
    ensures PromisesSplit(queued - {q}, delivered + {q}, promised, registered) && q !in delivered
  {
    assert queued + delivered == (queued - {q}) + (delivered + {q});
  }

  /** A register call so far: nothing promised before has changed, and the ages seen are promised. */
  ghost predicate Registering(before: map<(string, I64), I64>, promised: map<(string, I64), I64>, kid: string,
                              ages: seq<I64>, discovered: I64) {
    && (forall q :: q in promised <==> q in before || (q.0 == kid && q.1 in ages))
    && (forall q :: q in before ==> promised[q] == before[q])
    && (forall a: I64 :: a in ages ==> (kid, a) in promised && promised[(kid, a)] == Saturate(discovered + a))
  }

  lemma RegisterNew(before: map<(string, I64), I64>, promised: map<(string, I64), I64>, kid: string, ages: seq<I64>,
                    discovered: I64, age: I64)
    requires Registering(before, promised, kid, ages, discovered) && (kid, age) !in promised
    ensures Registering(before, promised[(kid, age) := Saturate(discovered + age)], kid, ages + [age], discovered)
  {
    var promised' := promised[(kid, age) := Saturate(discovered + age)];
    forall q ensures q in promised' <==> q in before || (q.0 == kid && q.1 in ages + [age]) {
      assert q in promised <==> q in before || (q.0 == kid && q.1 in ages);
    }
    forall a: I64 | a in ages + [age] ensures (kid, a) in promised' && promised'[(kid, a)] == Saturate(discovered + a) {
      if a in ages { assert (kid, a) in promised; }
    }
  }

  lemma RegisterAgain(before: map<(string, I64), I64>, promised: map<(string, I64), I64>, kid: string, ages: seq<I64>,
                      discovered: I64, age: I64)
    requires Registering(before, promised, kid, ages, discovered) && (kid, age) in promised && (kid, age) !in before
    ensures Registering(before, promised, kid, ages + [age], discovered)
  {
    assert age in ages;
  }

  /** A pop call so far: what was in the heap is still there or in the batch, and the batch comes first. */
  ghost predicate Popping(before: multiset<Due>, heap: multiset<Due>, batch: seq<Due>, now: I64) {
    && (forall d :: d in before <==> d in heap || d in batch)
    && (forall d :: d in batch ==> d !in heap && d.due <= now)
    && (forall d, e :: d in batch && e in heap ==> Sooner(d, e))
    && SoonestFirst(batch)
  }

  lemma PopOneMore(before: multiset<Due>, heap: multiset<Due>, batch: seq<Due>, now: I64, d: Due, rest: multiset<Due>)
    requires Popping(before, heap, batch, now) && d in heap && d.due <= now
    requires forall e :: e in heap ==> !Sooner(e, d)
    requires forall e :: e in rest <==> e in heap && e != d
    ensures Popping(before, rest, batch + [d], now)
  {
    hide Sooner;
    forall e | e in heap && e != d ensures Sooner(d, e) {
      SoonerIsTotal(d, e, d);
    }
  }

  lemma PopNoMore(before: multiset<Due>, heap: multiset<Due>, batch: seq<Due>, now: I64)
    requires Popping(before, heap, batch, now) && forall e :: e in heap ==> e.due > now
    ensures forall d :: d in batch <==> d in before && d.due <= now
    ensures forall d :: d in heap <==> d in before && d.due > now
  {
    hide Sooner;
  }

  lemma OneMoreId(batch: seq<Due>, d: Due)
    ensures IdsOf(batch + [d]) == IdsOf(batch) + {(d.id, d.age)}
  {
    var more := batch + [d];
    forall q ensures q in IdsOf(more) <==> q in IdsOf(batch) || q == (d.id, d.age) {
      if q in IdsOf(batch) {
        var i :| 0 <= i < |batch| && (batch[i].id, batch[i].age) == q;
        assert (more[i].id, more[i].age) == q;
      }
      if q == (d.id, d.age) { assert (more[|batch|].id, more[|batch|].age) == q; }
    }
  }

  lemma LaterThan(heap: multiset<Due>, d: Due, now: I64)
    requires d.due > now && forall e :: e in heap ==> !Sooner(e, d)
    ensures forall e :: e in heap ==> e.due > now
  {
    hide TextLess;
  }

  class LiveMilestoneScheduler {
    var heap: multiset<Due>
    var queued: set<(string, I64)>
    var registered: set<string>
    var scheduled: nat
    var popped: nat
    /** When each milestone ever registered is due; and which have been handed out. */
    ghost var promised: map<(string, I64), I64>
    ghost var delivered: set<(string, I64)>

    ghost predicate Valid()
      reads this
    {
      && HeapAgrees(heap, queued, promised) && PromisesSplit(queued, delivered, promised, registered)
      && RegisteredBuilt(registered) && scheduled == popped + |heap|
    }

    constructor ()
      ensures Valid() && heap == multiset{} && promised == map[] && delivered == {} && registered == {}
    {
      heap, queued, registered, scheduled, popped := multiset{}, {}, {}, 0, 0;
      promised, delivered := map[], {};
    }

    /** A token is registered once; each of its milestone ages is queued once, due at its time. */
    method Register(key: TokenKey, discovered: I64, schedule: SnapshotSchedule)
      requires Valid() && IsBuilt(key)
      modifies this
      ensures Valid() && registered == old(registered) + {KeyId(key)} && delivered == old(delivered)
        && popped == old(popped)
      ensures KeyId(key) in old(registered) ==>
        heap == old(heap) && queued == old(queued) && promised == old(promised) && scheduled == old(scheduled)
      ensures KeyId(key) !in old(registered) ==>
        Registering(old(promised), promised, KeyId(key), schedule.milestones, discovered)
    {
      hide KeyId, IsBuilt, HeapAgrees, Registering;
      var kid := KeyId(key);
      if kid in registered {
        assert registered == registered + {kid};
        return;
      }
      assert forall q :: q in promised ==> q.0 != kid;
      assert Registering(promised, promised, kid, [], discovered) by { RegisteringNothing(promised, kid, discovered); }
      RegisterKid(key);
      var i := 0;
      assert schedule.milestones[..0] == [];
      while i < |schedule.milestones|
        invariant 0 <= i <= |schedule.milestones| && Valid() && popped == old(popped)
        invariant registered == old(registered) + {kid} && delivered == old(delivered)
        invariant Registering(old(promised), promised, kid, schedule.milestones[..i], discovered)
      {
        var age := schedule.milestones[i];
        assert schedule.milestones[..i + 1] == schedule.milestones[..i] + [age];
        NotDelivered(old(promised), kid, age);
        if (kid, age) !in queued {
          RegisterNew(old(promised), promised, kid, schedule.milestones[..i], discovered, age);
          Push(Due(Saturate(discovered + age), kid, age));
        } else {
          RegisterAgain(old(promised), promised, kid, schedule.milestones[..i], discovered, age);
        }
        i := i + 1;
      }
      assert schedule.milestones[..i] == schedule.milestones;
    }

    method RegisterKid(key: TokenKey)
      requires Valid() && IsBuilt(key)
      modifies `registered
      ensures Valid() && registered == old(registered) + {KeyId(key)}
    {
      hide IsBuilt, KeyId, HeapAgrees;
      registered := registered + {KeyId(key)};
    }

    /** A token registered only now has had nothing delivered. */
    lemma NotDelivered(before: map<(string, I64), I64>, kid: string, age: I64)
      requires Valid() && (kid, age) !in before && delivered <= before.Keys
      ensures (kid, age) in promised <==> (kid, age) in queued
    {
      hide HeapAgrees, RegisteredBuilt;
    }

    method Push(d: Due)
      requires Valid() && (d.id, d.age) !in promised && d.id in registered
      modifies `heap, `queued, `scheduled, `promised
      ensures Valid() && promised == old(promised)[(d.id, d.age) := d.due]
      ensures heap == old(heap) + multiset{d} && queued == old(queued) + {(d.id, d.age)}
    {
      hide HeapAgrees, RegisteredBuilt;
      PushAgrees(heap, queued, promised, d);
      queued := queued + {(d.id, d.age)};
      heap := heap + multiset{d};
      scheduled := scheduled + 1;
      promised := promised[(d.id, d.age) := d.due];
    }

    /** The heap's least element. */
    method Peek() returns (d: Due)
      requires heap != multiset{}
      ensures d in heap && forall e :: e in heap ==> !Sooner(e, d)
    {
      hide Sooner;
      ghost var elements := set e | e in heap;
      assert exists e :: e in heap;
      var some :| some in heap;
      assert some in elements;
      SoonestExists(elements);
      d :| d in heap && forall e :: e in heap ==> !Sooner(e, d);
    }

    method Pop(d: Due)
      requires Valid() && d in heap
      modifies `heap, `queued, `popped, `delivered
      ensures Valid() && heap == old(heap) - multiset{d} && delivered == old(delivered) + {(d.id, d.age)}
      ensures forall e :: e in heap <==> e in old(heap) && e != d
      ensures popped == old(popped) + 1 && (d.id, d.age) !in old(delivered) && |heap| == |old(heap)| - 1
    {
      hide HeapAgrees, RegisteredBuilt, PromisesSplit;
      PopAgrees(heap, queued, promised, d);
      InQueue(d);
      DeliverSplits(queued, delivered, promised, registered, (d.id, d.age));
      heap := heap - multiset{d};
      queued := queued - {(d.id, d.age)};
      popped := popped + 1;
      delivered := delivered + {(d.id, d.age)};
    }

    lemma InQueue(d: Due)
      requires Valid() && d in heap
      ensures (d.id, d.age) in queued
    {
    }

    /** Hands out exactly what is due by `now` and was not handed out before, in due order; everything left is
        due later. */
    method PopDue(now: I64) returns (out: seq<Delivery>, ghost batch: seq<Due>)
      requires Valid()
      modifies `heap, `queued, `popped, `delivered
      ensures Valid() && out == DeliveriesOf(batch, now) && SoonestFirst(batch)
      ensures forall d :: d in batch <==> d in old(heap) && d.due <= now
      ensures forall d :: d in heap <==> d in old(heap) && d.due > now
      ensures delivered == old(delivered) + IdsOf(batch) && old(delivered) !! IdsOf(batch)
      ensures forall q :: q in promised && promised[q] <= now ==> q in delivered
      ensures popped == old(popped) + |batch|
      ensures forall n :: 0 <= n < |out| ==> IsBuilt(out[n].key) && KeyId(out[n].key) in registered
    {
      hide Decode, IsBuilt, KeyId, Sooner, Popping, HeapAgrees, PromisesSplit, RegisteredBuilt, IdsOf, SoonestFirst;
      out, batch := [], [];
      PoppingNothing(heap, now);
      while heap != multiset{}
        invariant Valid() && out == DeliveriesOf(batch, now) && Popping(old(heap), heap, batch, now)
        invariant delivered == old(delivered) + IdsOf(batch) && old(delivered) !! IdsOf(batch)
        invariant popped == old(popped) + |batch|
        decreases |heap|
      {
        var d := Peek();
        if d.due > now {
          LaterThan(heap, d, now);
          break;
        }
        label Popped:
        Pop(d);
        PopOneMore(old(heap), old@Popped(heap), batch, now, d, heap);
        OneMoreId(batch, d);
        out := out + [Delivery(Decode(d.id), d.age, Saturate(now - d.due))];
        batch := batch + [d];
      }
      PopNoMore(old(heap), heap, batch, now);
      BatchSorted(old(heap), heap, batch, now);
      PromisesKept(now);
      forall n | 0 <= n < |out| ensures IsBuilt(out[n].key) && KeyId(out[n].key) in registered {
        assert batch[n] in batch;
        BatchRegistered(old(heap), old(queued), promised, old(delivered), registered, batch[n]);
      }
    }

    lemma PromisesKept(now: I64)
      requires Valid() && forall e :: e in heap ==> e.due > now
      ensures forall q :: q in promised && promised[q] <= now ==> q in delivered
    {
      hide RegisteredBuilt;
    }
  }

  /** A queued milestone names the token it was registered for. */
  lemma BatchRegistered(heap: multiset<Due>, queued: set<(string, I64)>, promised: map<(string, I64), I64>,
                        delivered: set<(string, I64)>, registered: set<string>, d: Due)
    requires HeapAgrees(heap, queued, promised) && PromisesSplit(queued, delivered, promised, registered)
    requires RegisteredBuilt(registered) && d in heap
    ensures IsBuilt(Decode(d.id)) && KeyId(Decode(d.id)) == d.id && d.id in registered
  {
    hide Decode, IsBuilt, KeyId;
    assert (d.id, d.age) in promised;
    var k :| IsBuilt(k) && d.id == KeyId(k);
    DecodeKeyId(k);
  }

  /** A batch is exactly the promises that were due and not yet delivered. */
  lemma BatchIsPromised(heap: multiset<Due>, queued: set<(string, I64)>, promised: map<(string, I64), I64>,
                        delivered: set<(string, I64)>, registered: set<string>, batch: seq<Due>, now: I64)
    requires HeapAgrees(heap, queued, promised) && PromisesSplit(queued, delivered, promised, registered)
    requires forall d :: d in batch <==> d in heap && d.due <= now
    ensures forall d :: d in batch ==> AtItsTime(d, promised)
    ensures forall q :: q in IdsOf(batch) <==> q in promised && promised[q] <= now && q !in delivered
  {
    forall q ensures q in IdsOf(batch) <==> q in promised && promised[q] <= now && q !in delivered {
      if q in IdsOf(batch) {
        var i :| 0 <= i < |batch| && (batch[i].id, batch[i].age) == q;
        assert batch[i] in batch;
      }
      if q in promised && promised[q] <= now && q !in delivered {
        assert q in queued;
        var d := Due(promised[q], q.0, q.1);
        assert d in batch;
        var i :| 0 <= i < |batch| && batch[i] == d;
        assert (batch[i].id, batch[i].age) == q;
      }
    }
  }

  lemma RegisteringNothing(promised: map<(string, I64), I64>, kid: string, discovered: I64)
    ensures Registering(promised, promised, kid, [], discovered)
  {
  }

  lemma PoppingNothing(heap: multiset<Due>, now: I64)
    ensures Popping(heap, heap, [], now) && IdsOf([]) == {}
  {
  }

  lemma BatchSorted(before: multiset<Due>, heap: multiset<Due>, batch: seq<Due>, now: I64)
    requires Popping(before, heap, batch, now)
    ensures SoonestFirst(batch)
  {
  }

  // ---------------------------------------------------------------- any interleaving of calls

  datatype Call = Register(key: TokenKey, discovered: I64, schedule: SnapshotSchedule) | PopDue(now: I64)

  predicate CallsOk(calls: seq<Call>) {
    forall i :: 0 <= i < |calls| && calls[i].Register? ==> IsBuilt(calls[i].key)
  }

  function Ids(calls: seq<Call>): set<string> {
    set i | 0 <= i < |calls| && calls[i].Register? :: KeyId(calls[i].key)
  }

  /** What the calls promise: the milestones of each token's first registration. */
  function Promises(calls: seq<Call>): map<(string, I64), I64> {
    if calls == [] then map[]
    else
      var front, last := calls[..|calls| - 1], calls[|calls| - 1];
      if last.PopDue? || KeyId(last.key) in Ids(front) then Promises(front)
      else WithMilestones(Promises(front), KeyId(last.key), last.schedule.milestones, last.discovered)
  }

  function WithMilestones(before: map<(string, I64), I64>, kid: string, ages: seq<I64>,
      discovered: I64): map<(string, I64), I64> {
    before + map a: I64 | a in ages :: (kid, a) := Saturate(discovered + a)
  }

  function AllIds(batches: seq<seq<Due>>): set<(string, I64)> {
    if batches == [] then {} else AllIds(batches[..|batches| - 1]) + IdsOf(batches[|batches| - 1])
  }

  /** A milestone at the time promised for it. */
  predicate AtItsTime(d: Due, promises: map<(string, I64), I64>) {
    (d.id, d.age) in promises && promises[(d.id, d.age)] == d.due
  }

  /** A pop hands out exactly the promised milestones that are due and were not handed out by an earlier pop,
      soonest first. */
  ghost predicate Delivers(calls: seq<Call>, batches: seq<seq<Due>>, i: nat)
    requires i < |calls| && i < |batches|
  {
    if calls[i].PopDue? then
      && SoonestFirst(batches[i])
      && (forall d :: d in batches[i] ==> d.due <= calls[i].now && AtItsTime(d, Promises(calls[..i])))
      && (forall q :: q in IdsOf(batches[i]) <==>
            q in Promises(calls[..i]) && Promises(calls[..i])[q] <= calls[i].now && q !in AllIds(batches[..i]))
    else batches[i] == []
  }

  lemma IdsAppend(calls: seq<Call>, c: Call)
    ensures Ids(calls + [c]) == Ids(calls) + if c.Register? then {KeyId(c.key)} else {}
  {
    hide KeyId;
    var more := calls + [c];
    forall id ensures id in Ids(more) <==> id in Ids(calls) || (c.Register? && id == KeyId(c.key)) {
      if id in Ids(calls) {
        var i :| 0 <= i < |calls| && calls[i].Register? && KeyId(calls[i].key) == id;
        assert more[i].Register? && KeyId(more[i].key) == id;
      }
      if c.Register? && id == KeyId(c.key) { assert more[|calls|].Register? && KeyId(more[|calls|].key) == id; }
    }
  }

  lemma PromisesAppend(calls: seq<Call>, c: Call, promised: map<(string, I64), I64>)
    requires c.PopDue? ==> promised == Promises(calls)
    requires c.Register? && KeyId(c.key) in Ids(calls) ==> promised == Promises(calls)
    requires c.Register? && KeyId(c.key) !in Ids(calls) ==>
      Registering(Promises(calls), promised, KeyId(c.key), c.schedule.milestones, c.discovered)
      && forall q :: q in Promises(calls) ==> q.0 != KeyId(c.key)
    ensures Promises(calls + [c]) == promised
  {
    hide KeyId, Ids, Registering, WithMilestones;
    assert (calls + [c])[..|calls|] == calls;
    if c.Register? && KeyId(c.key) !in Ids(calls) {
      RegisteredMap(Promises(calls), promised, KeyId(c.key), c.schedule.milestones, c.discovered);
    }
  }

  lemma RegisteredMap(before: map<(string, I64), I64>, promised: map<(string, I64), I64>, kid: string, ages: seq<I64>,
                      discovered: I64)
    requires Registering(before, promised, kid, ages, discovered) && forall q :: q in before ==> q.0 != kid
    ensures WithMilestones(before, kid, ages, discovered) == promised
  {
    hide Saturate;
    var p := WithMilestones(before, kid, ages, discovered);
    forall q ensures q in p <==> q in promised {
      if q in promised && q !in before { assert q == (kid, q.1) && q.1 in ages; }
    }
    forall q | q in p ensures p[q] == promised[q] {
      if q !in before { assert q == (kid, q.1) && q.1 in ages; }
    }
  }

  lemma {:induction false} PromisesAreToIds(calls: seq<Call>)
    ensures forall q :: q in Promises(calls) ==> q.0 in Ids(calls)
  {
    hide KeyId;
    if calls != [] {
      var front, last := calls[..|calls| - 1], calls[|calls| - 1];
      PromisesAreToIds(front);
      IdsAppend(front, last);
      assert calls == front + [last];
    }
  }

  lemma AllIdsAppend(batches: seq<seq<Due>>, batch: seq<Due>)
    ensures AllIds(batches + [batch]) == AllIds(batches) + IdsOf(batch)
  {
    assert (batches + [batch])[..|batches|] == batches;
  }

  lemma EarlierDelivers(calls: seq<Call>, batches: seq<seq<Due>>, batch: seq<Due>, i: nat)
    requires i < |batches| <= |calls| && Delivers(calls, batches, i)
    ensures Delivers(calls, batches + [batch], i)
  {
    assert (batches + [batch])[..i] == batches[..i];
  }

  method OneCall(s: LiveMilestoneScheduler, calls: seq<Call>, i: nat, ghost before: set<(string, I64)>)
    returns (out: seq<Delivery>, ghost batch: seq<Due>)
    requires s.Valid() && CallsOk(calls) && i < |calls|
    requires s.promised == Promises(calls[..i]) && s.registered == Ids(calls[..i]) && s.delivered == before
    modifies s
    ensures s.Valid() && s.promised == Promises(calls[..i + 1]) && s.registered == Ids(calls[..i + 1])
    ensures s.delivered == before + IdsOf(batch)
    ensures if calls[i].PopDue? then
              && out == DeliveriesOf(batch, calls[i].now) && SoonestFirst(batch)
              && (forall d :: d in batch ==> d.due <= calls[i].now && AtItsTime(d, Promises(calls[..i])))
              && (forall q :: q in IdsOf(batch) <==>
                    q in Promises(calls[..i]) && Promises(calls[..i])[q] <= calls[i].now && q !in before)
            else out == [] && batch == []
  {
    hide KeyId, IsBuilt, SoonestFirst, HeapAgrees, RegisteredBuilt, Registering;
    ghost var front := calls[..i];
    assert calls[..i + 1] == front + [calls[i]];
    IdsAppend(front, calls[i]);
    PromisesAreToIds(front);
    out, batch := [], [];
    assert IdsOf([]) == {};
    match calls[i]
    case Register(key, discovered, schedule) =>
      s.Register(key, discovered, schedule);
      PromisesAppend(front, calls[i], s.promised);
    case PopDue(now) =>
      ghost var heap, queued := s.heap, s.queued;
      out, batch := s.PopDue(now);
      PromisesAppend(front, calls[i], s.promised);
      BatchIsPromised(heap, queued, s.promised, before, s.registered, batch, now);
  }

  /** Exactly once, over any calls: what each pop returns. */
  method RunCalls(calls: seq<Call>) returns (outs: seq<seq<Delivery>>, ghost batches: seq<seq<Due>>)
    requires CallsOk(calls)
    ensures |outs| == |calls| && |batches| == |calls|
    ensures forall i :: 0 <= i < |calls| ==> Delivers(calls, batches, i)
    ensures forall i :: 0 <= i < |calls| && calls[i].PopDue? ==> outs[i] == DeliveriesOf(batches[i], calls[i].now)
    ensures forall i, n :: 0 <= i < |calls| && calls[i].PopDue? && 0 <= n < |outs[i]| ==>
      Registered(calls, i, outs[i][n].key)
  {
    hide KeyId, IsBuilt, Promises, Ids, IdsOf, SoonestFirst, HeapAgrees, PromisesSplit, RegisteredBuilt, Registered,
      Decode;
    var s := new LiveMilestoneScheduler();
    outs, batches := [], [];
    var i := 0;
    NothingCalled(calls);
    while i < |calls|
      invariant 0 <= i <= |calls| && |outs| == i && |batches| == i && s.Valid() && fresh(s)
      invariant s.promised == Promises(calls[..i]) && s.registered == Ids(calls[..i]) && s.delivered == AllIds(batches)
      invariant forall j :: 0 <= j < i ==> Delivers(calls, batches, j)
      invariant forall j :: 0 <= j < i && calls[j].PopDue? ==> outs[j] == DeliveriesOf(batches[j], calls[j].now)
    {
      var out, batch := OneCall(s, calls, i, AllIds(batches));
      forall j | 0 <= j < i ensures Delivers(calls, batches + [batch], j) {
        EarlierDelivers(calls, batches, batch, j);
      }
      AllIdsAppend(batches, batch);
      assert (batches + [batch])[..i] == batches;
      outs, batches := outs + [out], batches + [batch];
      i := i + 1;
    }
    forall i, n | 0 <= i < |calls| && calls[i].PopDue? && 0 <= n < |outs[i]|
      ensures Registered(calls, i, outs[i][n].key)
    {
      assert Delivers(calls, batches, i);
      DeliveredIsRegistered(calls, i, batches[i], n);
    }
  }

  /** Some call before `i` registered this token. */
  ghost predicate Registered(calls: seq<Call>, i: nat, key: TokenKey)
    requires i <= |calls|
  {
    exists j :: 0 <= j < i && calls[j].Register? && calls[j].key == key
  }

  lemma DeliveredIsRegistered(calls: seq<Call>, i: nat, batch: seq<Due>, n: nat)
    requires CallsOk(calls) && i < |calls| && n < |batch|
    requires forall d :: d in batch ==> AtItsTime(d, Promises(calls[..i]))
    ensures Registered(calls, i, Decode(batch[n].id))
  {
    hide KeyId, IsBuilt, Decode, Promises;
    PromisesAreToIds(calls[..i]);
    assert AtItsTime(batch[n], Promises(calls[..i]));
    var j :| 0 <= j < i && calls[..i][j].Register? && KeyId(calls[..i][j].key) == batch[n].id;
    assert calls[j] == calls[..i][j];
    DecodeKeyId(calls[j].key);
  }

  /** Within one pop, no milestone is handed out twice. */
  lemma OnceInAPop(calls: seq<Call>, batches: seq<seq<Due>>, i: nat, m: nat, n: nat)
    requires i < |calls| && |batches| == |calls| && Delivers(calls, batches, i)
    requires m < n < |batches[i]|
    ensures (batches[i][m].id, batches[i][m].age) != (batches[i][n].id, batches[i][n].age)
  {
    hide Promises, Sooner, AllIds, IdsOf;
    var a, b := batches[i][m], batches[i][n];
    assert a in batches[i] && b in batches[i];
    SoonerIsTotal(a, b, a);
  }

  /** By the first pop not before its time, a promised milestone has been handed out. */
  lemma DueIsDelivered(calls: seq<Call>, batches: seq<seq<Due>>, i: nat, q: (string, I64))
    requires i < |calls| && |batches| == |calls| && Delivers(calls, batches, i) && calls[i].PopDue?
    requires q in Promises(calls[..i]) && Promises(calls[..i])[q] <= calls[i].now
    ensures q in AllIds(batches[..i + 1])
  {
    hide Promises, Sooner, IdsOf;
    assert batches[..i + 1] == batches[..i] + [batches[i]];
    AllIdsAppend(batches[..i], batches[i]);
  }

  lemma NothingCalled(calls: seq<Call>)
    ensures Promises(calls[..0]) == map[] && Ids(calls[..0]) == {} && AllIds([]) == {}
  {
  }

  /** No milestone is handed out twice. */
  lemma {:induction false} NeverTwice(calls: seq<Call>, batches: seq<seq<Due>>, i: nat, j: nat)
    requires i < j < |calls| && |batches| == |calls|
    requires Delivers(calls, batches, i) && Delivers(calls, batches, j)
    ensures IdsOf(batches[i]) !! IdsOf(batches[j])
  {
    EarlierIds(batches, i, j);
    assert IdsOf([]) == {};
    hide IdsOf;
  }

  lemma {:induction false} EarlierIds(batches: seq<seq<Due>>, i: nat, j: nat)
    requires i < j <= |batches|
    ensures IdsOf(batches[i]) <= AllIds(batches[..j])
    decreases j
  {
    assert batches[..j][..j - 1] == batches[..j - 1];
    if i < j - 1 {
      EarlierIds(batches, i, j - 1);
    }
  }
}
