/** The response cache: least-recently-used eviction, lazy expiry on read, and the counters over both. */
module ResponseCaches {
  import opened Collections

  datatype Key = Key(digest: string)
  datatype Reply = Reply(text: string)
  datatype Entry = Entry(reply: Reply, expiresAt: Option<int>)

  /** `order` is the key order of the table: least recently used first. */
  datatype Contents = Contents(data: map<Key, Entry>, order: seq<Key>)
  datatype Counters = Counters(hits: nat, misses: nat, expired: nat, evictions: nat)
  datatype CacheState = CacheState(contents: Contents, counters: Counters)

  datatype Settings = Settings(maxsize: nat, ttl: Option<int>)

  // ----- order

  function Without(order: seq<Key>, k: Key): (r: seq<Key>)
    ensures forall x :: x in r <==> x in order && x != k
    ensures k !in order ==> r == order
    ensures |r| <= |order|
  {
    if order == [] then []
    else if order[0] == k then Without(order[1..], k)
    else [order[0]] + Without(order[1..], k)
  }

  /** Moves a key to the most recent end, adding it if it is new. */
  function Touch(order: seq<Key>, k: Key): seq<Key> {
    Without(order, k) + [k]
  }

  lemma {:induction false} WithoutDistinct(order: seq<Key>, k: Key)
    requires Distinct(order)
    ensures Distinct(Without(order, k))
    ensures |Without(order, k)| == |order| - (if k in order then 1 else 0)
  {
    if order != [] {
      assert order[0] !in order[1..];
      WithoutDistinct(order[1..], k);
    }
  }

  lemma TouchDistinct(order: seq<Key>, k: Key)
    requires Distinct(order)
    ensures Distinct(Touch(order, k))
    ensures |Touch(order, k)| == |order| + (if k in order then 0 else 1)
    ensures forall x :: x in Touch(order, k) <==> x in order || x == k
  {
    WithoutDistinct(order, k);
    DistinctAppend(Without(order, k), k);
  }

  // ----- operations

  /** Drops least recently used entries until the table fits. */
  function Evicted(s: CacheState, maxsize: nat): CacheState
    decreases |s.contents.order|
  {
    if |s.contents.order| <= maxsize then s
    else
      var oldest := s.contents.order[0];
      Evicted(CacheState(Contents(s.contents.data - {oldest}, s.contents.order[1..]),
                         s.counters.(evictions := s.counters.evictions + 1)), maxsize)
  }

  predicate IsLive(e: Entry, now: int) {
    e.expiresAt.None? || now < e.expiresAt.value
  }

  function Missed(s: CacheState): CacheState {
    s.(counters := s.counters.(misses := s.counters.misses + 1))
  }

  function AfterGet(s: CacheState, k: Key, now: int): CacheState {
    if k !in s.contents.data then Missed(s)
    else if !IsLive(s.contents.data[k], now) then
      var m := Missed(s);
      CacheState(Contents(s.contents.data - {k}, Without(s.contents.order, k)),
          m.counters.(expired := m.counters.expired + 1))
    else
      CacheState(s.contents.(order := Touch(s.contents.order, k)), s.counters.(hits := s.counters.hits + 1))
  }

  function GetResult(s: CacheState, k: Key, now: int): Option<Reply> {
    if k in s.contents.data && IsLive(s.contents.data[k], now) then Some(s.contents.data[k].reply) else None
  }

  function NewEntry(cfg: Settings, reply: Reply, now: int): Entry {
    Entry(reply, if cfg.ttl.Some? then Some(now + cfg.ttl.value) else None)
  }

  function AfterPut(cfg: Settings, s: CacheState, k: Key, reply: Reply, now: int): CacheState {
    Evicted(s.(contents := Contents(s.contents.data[k := NewEntry(cfg, reply, now)], Touch(s.contents.order, k))),
        cfg.maxsize)
  }

  function AfterClear(s: CacheState): CacheState {
    s.(contents := Contents(map[], []))
  }

  class ResponseCache {
    const cfg: Settings
    var data: map<Key, Entry>
    var order: seq<Key>
    var hits: nat
    var misses: nat
    var expired: nat
    var evictions: nat

    ghost function View(): CacheState
      reads this
    {
      CacheState(Contents(data, order), Counters(hits, misses, expired, evictions))
    }

    /** A size below one is raised to one; a time to live must be positive. */
    constructor (maxsize: int, ttl: Option<int>)
      requires ttl.Some? ==> ttl.value > 0
      ensures cfg == Settings(if maxsize < 1 then 1 else maxsize, ttl) && View() == EmptyCache()
    {
      cfg := Settings(if maxsize < 1 then 1 else maxsize, ttl);
      data, order := map[], [];
      hits, misses, expired, evictions := 0, 0, 0, 0;
    }

    method Get(k: Key, now: int) returns (r: Option<Reply>)
      modifies this
      ensures r == GetResult(old(View()), k, now) && View() == AfterGet(old(View()), k, now)
    {
      if k !in data {
        misses := misses + 1;
        return None;
      }
      var entry := data[k];
      if entry.expiresAt.Some? && now >= entry.expiresAt.value {
        data := data - {k};
        order := Without(order, k);
        expired := expired + 1;
        misses := misses + 1;
        return None;
      }
      order := Touch(order, k);
      hits := hits + 1;
      return Some(entry.reply);
    }

    method Put(k: Key, reply: Reply, now: int)
      modifies this
      ensures View() == AfterPut(cfg, old(View()), k, reply, now)
    {
      data := data[k := NewEntry(cfg, reply, now)];
      order := Touch(order, k);
      while |order| > cfg.maxsize
        invariant Evicted(View(), cfg.maxsize) == AfterPut(cfg, old(View()), k, reply, now)
        decreases |order|
      {
        data := data - {order[0]};
        order := order[1..];
        evictions := evictions + 1;
      }
    }

    method Clear()
      modifies this
      ensures View() == AfterClear(old(View()))
    {
      data, order := map[], [];
    }
  }

  // ----- whole histories

  datatype Op = Get(key: Key, now: int) | Put(key: Key, reply: Reply, now: int) | Clear

  function EmptyCache(): CacheState {
    CacheState(Contents(map[], []), Counters(0, 0, 0, 0))
  }

  function Step(cfg: Settings, s: CacheState, op: Op): CacheState {
    match op
    case Get(k, now) => AfterGet(s, k, now)
    case Put(k, reply, now) => AfterPut(cfg, s, k, reply, now)
    case Clear => AfterClear(s)
  }

  function Run(cfg: Settings, ops: seq<Op>): CacheState {
    if ops == [] then EmptyCache()
    else Step(cfg, Run(cfg, ops[..|ops| - 1]), ops[|ops| - 1])
  }

  ghost predicate Consistent(cfg: Settings, s: CacheState) {
    && Distinct(s.contents.order)
    && (forall k :: k in s.contents.data <==> k in s.contents.order)
    && |s.contents.order| <= cfg.maxsize
  }

  /** Consistent but for being one or more entries too large. */
  ghost predicate Listed(c: Contents) {
    Distinct(c.order) && forall k :: k in c.data <==> k in c.order
  }

  lemma DropOldest(c: Contents)
    requires Listed(c) && c.order != []
    ensures Listed(Contents(c.data - {c.order[0]}, c.order[1..]))
  {
    assert c.order == [c.order[0]] + c.order[1..];
    assert forall i :: 0 <= i < |c.order[1..]| ==> c.order[1..][i] == c.order[i + 1];
  }

  /** The last `n` elements, or all if there are fewer. */
  function Recent(order: seq<Key>, n: nat): (r: seq<Key>)
    ensures |r| == if |order| <= n then |order| else n
    ensures forall x :: x in r ==> x in order
  {
    if |order| <= n then order else order[|order| - n..]
  }

  lemma RecentTail(order: seq<Key>, n: nat)
    requires |order| > n
    ensures Recent(order[1..], n) == Recent(order, n)
  {
  }

  /** Eviction keeps the most recent keys with their entries, and counts every one it drops. */
  lemma {:induction false} EvictedKeepsRecent(s: CacheState, maxsize: nat)
    requires Listed(s.contents)
    ensures var r := Evicted(s, maxsize);
            && Listed(r.contents)
            && r.contents.order == Recent(s.contents.order, maxsize)
            && KeepsEntries(s.contents, r.contents)
            && r.counters == s.counters.(evictions := r.counters.evictions)
            && |r.contents.order| + r.counters.evictions == |s.contents.order| + s.counters.evictions
    decreases |s.contents.order|
  {
    hide Listed, Recent;
    if |s.contents.order| > maxsize {
      DropOldest(s.contents);
      RecentTail(s.contents.order, maxsize);
      var oldest := s.contents.order[0];
      EvictedKeepsRecent(CacheState(Contents(s.contents.data - {oldest}, s.contents.order[1..]),
                                    s.counters.(evictions := s.counters.evictions + 1)), maxsize);
    } else {
      AllRecent(s.contents.order, maxsize);
      ListedKeys(s.contents);
    }
  }

  ghost predicate KeepsEntries(before: Contents, after: Contents) {
    forall k :: k in after.data ==> k in before.data && after.data[k] == before.data[k]
  }

  lemma AllRecent(order: seq<Key>, n: nat)
    requires |order| <= n
    ensures Recent(order, n) == order
  {
  }

  lemma ListedKeys(c: Contents)
    requires Listed(c)
    ensures forall k :: k in c.data <==> k in c.order
  {
  }

  lemma StepConsistent(cfg: Settings, s: CacheState, op: Op)
    requires Consistent(cfg, s) && cfg.maxsize >= 1
    ensures Consistent(cfg, Step(cfg, s, op))
  {
    hide Evicted, Distinct;
    match op
    case Get(k, now) =>
      TouchDistinct(s.contents.order, k);
      WithoutDistinct(s.contents.order, k);
    case Put(k, reply, now) =>
      TouchDistinct(s.contents.order, k);
      EvictedKeepsRecent(s.(contents := Contents(s.contents.data[k := NewEntry(cfg, reply, now)],
          Touch(s.contents.order, k))), cfg.maxsize);
    case Clear =>
      NothingDistinct();
  }

  lemma NothingDistinct()
    ensures Distinct<Key>([])
  {
  }

  lemma {:induction false} RunConsistent(cfg: Settings, ops: seq<Op>)
    requires cfg.maxsize >= 1
    ensures Consistent(cfg, Run(cfg, ops))
  {
    hide Step, Consistent;
    if ops == [] {
      EmptyConsistent(cfg);
    } else {
      RunConsistent(cfg, ops[..|ops| - 1]);
      StepConsistent(cfg, Run(cfg, ops[..|ops| - 1]), ops[|ops| - 1]);
    }
  }

  lemma EmptyConsistent(cfg: Settings)
    ensures Consistent(cfg, EmptyCache())
  {
  }

  // ----- counters

  function Gets(ops: seq<Op>): nat {
    if ops == [] then 0 else Gets(ops[..|ops| - 1]) + (if ops[|ops| - 1].Get? then 1 else 0)
  }

  /** Puts of a key the table did not hold at that moment. */
  function NewPuts(cfg: Settings, ops: seq<Op>): nat {
    if ops == [] then 0
    else
      var front, op := ops[..|ops| - 1], ops[|ops| - 1];
      NewPuts(cfg, front) + (if op.Put? && op.key !in Run(cfg, front).contents.data then 1 else 0)
  }

  /** Entries dropped by clearing. */
  function Cleared(cfg: Settings, ops: seq<Op>): nat {
    if ops == [] then 0
    else
      var front, op := ops[..|ops| - 1], ops[|ops| - 1];
      Cleared(cfg, front) + (if op.Clear? then |Run(cfg, front).contents.order| else 0)
  }

  /** Every read is a hit or a miss; every key ever added is still there, or was evicted, expired or cleared. */
  lemma {:induction false} CountersBalance(cfg: Settings, ops: seq<Op>)
    requires cfg.maxsize >= 1
    ensures var s := Run(cfg, ops);
            && s.counters.hits + s.counters.misses == Gets(ops)
            && NewPuts(cfg, ops) == |s.contents.data| + s.counters.evictions + s.counters.expired + Cleared(cfg, ops)
  {
    hide Distinct, Step;
    RunConsistent(cfg, ops);
    SizeIsLength(cfg, Run(cfg, ops));
    if ops != [] {
      var front, op := ops[..|ops| - 1], ops[|ops| - 1];
      CountersBalance(cfg, front);
      RunConsistent(cfg, front);
      SizeIsLength(cfg, Run(cfg, front));
      StepCounts(cfg, Run(cfg, front), op);
    }
  }

  lemma SizeIsLength(cfg: Settings, s: CacheState)
    requires Consistent(cfg, s)
    ensures |s.contents.data| == |s.contents.order|
  {
    DistinctSize(s.contents.order);
    assert s.contents.data.Keys == Elements(s.contents.order);
    assert |s.contents.data.Keys| == |s.contents.data|;
  }

  lemma StepCounts(cfg: Settings, s: CacheState, op: Op)
    requires Consistent(cfg, s) && cfg.maxsize >= 1
    ensures var r := Step(cfg, s, op);
            && r.counters.hits + r.counters.misses == s.counters.hits + s.counters.misses + (if op.Get? then 1 else 0)
            && |r.contents.order| + r.counters.evictions + r.counters.expired + (if op.Clear? then |s.contents.order| else 0)
               == |s.contents.order| + s.counters.evictions + s.counters.expired
                  + (if op.Put? && op.key !in s.contents.data then 1 else 0)
  {
    hide Evicted, Distinct;
    match op
    case Get(k, now) =>
      TouchDistinct(s.contents.order, k);
      WithoutDistinct(s.contents.order, k);
    case Put(k, reply, now) =>
      TouchDistinct(s.contents.order, k);
      EvictedKeepsRecent(s.(contents := Contents(s.contents.data[k := NewEntry(cfg, reply, now)],
          Touch(s.contents.order, k))), cfg.maxsize);
    case Clear =>
  }

  // ----- what an entry holds

  /** The last put of a key since the last clear, with its time. */
  function LastPut(ops: seq<Op>, k: Key): Option<(Reply, int)> {
    if ops == [] then None
    else
      match ops[|ops| - 1]
      case Put(x, reply, now) => if x == k then Some((reply, now)) else LastPut(ops[..|ops| - 1], k)
      case Get(_, _) => LastPut(ops[..|ops| - 1], k)
      case Clear => None
  }

  /** Every entry is its key's last put. */
  lemma {:induction false} EntryIsLastPut(cfg: Settings, ops: seq<Op>, k: Key)
    requires cfg.maxsize >= 1 && k in Run(cfg, ops).contents.data
    ensures LastPut(ops, k).Some?
    ensures Run(cfg, ops).contents.data[k] == NewEntry(cfg, LastPut(ops, k).value.0, LastPut(ops, k).value.1)
  {
    hide Evicted, Distinct, Run;
    RunUnfolds(cfg, ops);
    if ops != [] {
      var front, op := ops[..|ops| - 1], ops[|ops| - 1];
      var s := Run(cfg, front);
      RunConsistent(cfg, front);
      if op.Put? {
        TouchDistinct(s.contents.order, op.key);
        var t := s.(contents := Contents(s.contents.data[op.key := NewEntry(cfg, op.reply, op.now)],
            Touch(s.contents.order, op.key)));
        EvictedKeepsRecent(t, cfg.maxsize);
      }
      if !(op.Put? && op.key == k) {
        EntryIsLastPut(cfg, front, k);
      }
    }
  }

  lemma RunUnfolds(cfg: Settings, ops: seq<Op>)
    ensures ops == [] ==> Run(cfg, ops) == EmptyCache()
    ensures ops != [] ==> Run(cfg, ops) == Step(cfg, Run(cfg, ops[..|ops| - 1]), ops[|ops| - 1])
  {
  }

  /** A hit returns the reply last put under the key, and never one whose time to live has passed. */
  lemma HitIsLastPutAndLive(cfg: Settings, ops: seq<Op>, k: Key, now: int, reply: Reply)
    requires cfg.maxsize >= 1 && GetResult(Run(cfg, ops), k, now) == Some(reply)
    ensures LastPut(ops, k).Some? && LastPut(ops, k).value.0 == reply
    ensures cfg.ttl.Some? ==> now < LastPut(ops, k).value.1 + cfg.ttl.value
  {
    EntryIsLastPut(cfg, ops, k);
  }

  // ----- least recently used, without the cache

  /** The key has been put since the last clear, and that put has not run out at this time. */
  predicate Fresh(ttl: Option<int>, ops: seq<Op>, k: Key, now: int) {
    LastPut(ops, k).Some? && (ttl.Some? ==> now < LastPut(ops, k).value.1 + ttl.value)
  }

  /**
   * The keys in use, by last use: a put uses its key and leaves the `maxsize` last used ones, a read
   * uses a key that is fresh and drops one that is not, and a clear drops all.
   */
  function InUse(cfg: Settings, ops: seq<Op>): seq<Key> {
    if ops == [] then []
    else
      var front := ops[..|ops| - 1];
      var before := InUse(cfg, front);
      match ops[|ops| - 1]
      case Get(k, now) =>
        if k !in before then before else if Fresh(cfg.ttl, front, k, now) then Touch(before, k) else Without(before, k)
      case Put(k, _, _) => Recent(Touch(before, k), cfg.maxsize)
      case Clear => []
  }

  /** No read comes after the time to live of its key's last put. */
  ghost predicate ReadsInTime(ttl: Option<int>, ops: seq<Op>) {
    forall i :: 0 <= i < |ops| && ops[i].Get? && LastPut(ops[..i], ops[i].key).Some? ==>
      Fresh(ttl, ops[..i], ops[i].key, ops[i].now)
  }

  /**
   * Every key touched since the last clear, by last touch. A put touches its key; a read touches its
   * key when that key is among the `maxsize` most recently touched ones. Nothing is ever dropped.
   */
  function Touched(maxsize: nat, ops: seq<Op>): seq<Key> {
    if ops == [] then []
    else
      var before := Touched(maxsize, ops[..|ops| - 1]);
      match ops[|ops| - 1]
      case Get(k, _) => if k in Recent(before, maxsize) then Touch(before, k) else before
      case Put(k, _, _) => Touch(before, k)
      case Clear => []
  }

  lemma {:induction false} WithoutConcat(a: seq<Key>, b: seq<Key>, k: Key)
    ensures Without(a + b, k) == Without(a, k) + Without(b, k)
  {
    if a == [] {
      assert a + b == b;
    } else {
      assert (a + b)[1..] == a[1..] + b;
      WithoutConcat(a[1..], b, k);
    }
  }

  lemma TouchConcat(a: seq<Key>, b: seq<Key>, k: Key)
    ensures Touch(a + b, k) == Without(a, k) + Touch(b, k)
  {
    hide Without;
    WithoutConcat(a, b, k);
  }

  /** Touching and then cutting to size is the same as cutting, touching and cutting again. */
  lemma RecentTouch(all: seq<Key>, k: Key, n: nat)
    requires Distinct(all) && n >= 1
    ensures Recent(Touch(all, k), n) == Recent(Touch(Recent(all, n), k), n)
    ensures k in Recent(all, n) ==> Recent(Touch(all, k), n) == Touch(Recent(all, n), k)
  {
    hide Distinct, Touch, Without;
    if |all| > n {
      var past, kept := all[..|all| - n], all[|all| - n..];
      assert all == past + kept;
      WithoutConcat(past, kept, k);
      SplitDistinct(all, |all| - n, k);
      TouchDistinct(kept, k);
      TouchConcat(past, kept, k);
      RecentSuffix(Without(past, k), Touch(kept, k), n);
    } else {
      TouchDistinct(all, k);
    }
  }

  lemma SplitDistinct(all: seq<Key>, at: nat, k: Key)
    requires Distinct(all) && at <= |all|
    ensures Distinct(all[at..])
    ensures k in all[at..] ==> k !in all[..at]
  {
    if k in all[at..] {
      var j :| at <= j < |all| && all[j] == k;
      assert forall i :: 0 <= i < at ==> all[i] != all[j];
    }
  }

  lemma RecentSuffix(a: seq<Key>, b: seq<Key>, n: nat)
    requires |b| >= n
    ensures Recent(a + b, n) == Recent(b, n)
  {
    var c := a + b;
    assert c[|c| - n..] == b[|b| - n..];
  }

  lemma {:induction false} TouchedDistinct(maxsize: nat, ops: seq<Op>)
    ensures Distinct(Touched(maxsize, ops))
  {
    if ops != [] {
      TouchedDistinct(maxsize, ops[..|ops| - 1]);
      if !ops[|ops| - 1].Clear? {
        TouchDistinct(Touched(maxsize, ops[..|ops| - 1]), ops[|ops| - 1].key);
      }
    }
  }

  lemma NothingRecent(n: nat)
    ensures Recent([], n) == []
  {
  }

  /** The refinement: the table lists exactly the keys in use, in order of last use. */
  lemma {:induction false} HoldsInUse(cfg: Settings, ops: seq<Op>)
    requires cfg.maxsize >= 1
    ensures Run(cfg, ops).contents.order == InUse(cfg, ops)
  {
    hide Evicted, Distinct, Touch, Without, Recent, Run;
    RunUnfolds(cfg, ops);
    if ops != [] {
      var front, op := ops[..|ops| - 1], ops[|ops| - 1];
      HoldsInUse(cfg, front);
      var s := Run(cfg, front);
      RunConsistent(cfg, front);
      match op
      case Get(k, now) =>
        if k in s.contents.data {
          EntryIsLastPut(cfg, front, k);
        }
      case Put(k, reply, now) =>
        TouchDistinct(s.contents.order, k);
        var t := s.(contents := Contents(s.contents.data[k := NewEntry(cfg, reply, now)], Touch(s.contents.order, k)));
        EvictedKeepsRecent(t, cfg.maxsize);
      case Clear =>
    }
  }

  /**
   * Exactly when a read hits, and with what: the key is in use, and the reply is that of its last put
   * since the last clear, whose time to live has not passed.
   */
  lemma HitsExactlyFresh(cfg: Settings, ops: seq<Op>, k: Key, now: int, reply: Reply)
    requires cfg.maxsize >= 1
    ensures GetResult(Run(cfg, ops), k, now) == Some(reply) <==>
        k in InUse(cfg, ops) && Fresh(cfg.ttl, ops, k, now) && LastPut(ops, k).value.0 == reply
  {
    hide InUse, Run, LastPut;
    HoldsInUse(cfg, ops);
    RunConsistent(cfg, ops);
    if k in Run(cfg, ops).contents.data {
      EntryIsLastPut(cfg, ops, k);
    }
  }

  /** Reads in the history that found their key in use and fresh, and those that found it in use but not fresh. */
  function ReadCounts(cfg: Settings, ops: seq<Op>): (c: (nat, nat)) {
    if ops == [] then (0, 0)
    else
      var front, op := ops[..|ops| - 1], ops[|ops| - 1];
      var c := ReadCounts(cfg, front);
      if !op.Get? || op.key !in InUse(cfg, front) then c
      else if Fresh(cfg.ttl, front, op.key, op.now) then (c.0 + 1, c.1)
      else (c.0, c.1 + 1)
  }

  /** What the counters of hits and of expired entries count. */
  lemma {:induction false} CountersMeanReads(cfg: Settings, ops: seq<Op>)
    requires cfg.maxsize >= 1
    ensures Run(cfg, ops).counters.hits == ReadCounts(cfg, ops).0
    ensures Run(cfg, ops).counters.expired == ReadCounts(cfg, ops).1
  {
    hide Evicted, Distinct, Touch, Without, InUse, Run;
    RunUnfolds(cfg, ops);
    if ops != [] {
      var front, op := ops[..|ops| - 1], ops[|ops| - 1];
      CountersMeanReads(cfg, front);
      var s := Run(cfg, front);
      RunConsistent(cfg, front);
      HoldsInUse(cfg, front);
      match op
      case Get(k, now) =>
        if k in s.contents.data {
          EntryIsLastPut(cfg, front, k);
        }
      case Put(k, reply, now) =>
        TouchDistinct(s.contents.order, k);
        EvictedKeepsRecent(s.(contents := Contents(s.contents.data[k := NewEntry(cfg, reply, now)],
            Touch(s.contents.order, k))), cfg.maxsize);
      case Clear =>
    }
  }

  // ----- what the size guarantees

  /** Without late reads the keys in use are the `maxsize` most recently touched ones. */
  lemma {:induction false} InUseIsRecent(cfg: Settings, ops: seq<Op>)
    requires cfg.maxsize >= 1 && ReadsInTime(cfg.ttl, ops)
    ensures InUse(cfg, ops) == Recent(Touched(cfg.maxsize, ops), cfg.maxsize)
  {
    hide Distinct, Touch, Without, Recent, Fresh;
    NothingRecent(cfg.maxsize);
    if ops != [] {
      var front, op := ops[..|ops| - 1], ops[|ops| - 1];
      InTimePrefix(cfg.ttl, ops);
      InUseIsRecent(cfg, front);
      TouchedDistinct(cfg.maxsize, front);
      if !op.Clear? {
        RecentTouch(Touched(cfg.maxsize, front), op.key, cfg.maxsize);
      }
      if op.Get? && op.key in InUse(cfg, front) {
        InUseWasPut(cfg, front, op.key);
      }
    }
  }

  lemma InTimePrefix(ttl: Option<int>, ops: seq<Op>)
    requires ReadsInTime(ttl, ops) && ops != []
    ensures ReadsInTime(ttl, ops[..|ops| - 1])
    ensures var front, op := ops[..|ops| - 1], ops[|ops| - 1];
            op.Get? && LastPut(front, op.key).Some? ==> Fresh(ttl, front, op.key, op.now)
  {
    hide Fresh, LastPut;
    var front := ops[..|ops| - 1];
    forall i | 0 <= i < |front| && front[i].Get? && LastPut(front[..i], front[i].key).Some?
      ensures Fresh(ttl, front[..i], front[i].key, front[i].now)
    {
      assert front[..i] == ops[..i] && front[i] == ops[i];
    }
  }

  lemma InUseWasPut(cfg: Settings, ops: seq<Op>, k: Key)
    requires cfg.maxsize >= 1 && k in InUse(cfg, ops)
    ensures LastPut(ops, k).Some?
  {
    HoldsInUse(cfg, ops);
    RunConsistent(cfg, ops);
    EntryIsLastPut(cfg, ops, k);
  }

  /**
   * Without late reads, so in particular without a time to live, the cache is exactly
   * least-recently-used: it holds the `maxsize` most recently touched distinct keys, in that order.
   */
  lemma HoldsMostRecent(cfg: Settings, ops: seq<Op>)
    requires cfg.maxsize >= 1 && ReadsInTime(cfg.ttl, ops)
    ensures Run(cfg, ops).contents.order == Recent(Touched(cfg.maxsize, ops), cfg.maxsize)
  {
    HoldsInUse(cfg, ops);
    InUseIsRecent(cfg, ops);
  }

  /** Without a time to live no read comes too late. */
  lemma NoTtlInTime(ops: seq<Op>)
    ensures ReadsInTime(None, ops)
  {
  }

  /** So a read hits exactly when its key is among those and fresh, and then returns its last put. */
  lemma HitsExactlyRecent(cfg: Settings, ops: seq<Op>, k: Key, now: int)
    requires cfg.maxsize >= 1 && ReadsInTime(cfg.ttl, ops)
    ensures GetResult(Run(cfg, ops), k, now).Some? <==>
        k in Recent(Touched(cfg.maxsize, ops), cfg.maxsize) && Fresh(cfg.ttl, ops, k, now)
    ensures GetResult(Run(cfg, ops), k, now).Some? ==>
              LastPut(ops, k).Some? && GetResult(Run(cfg, ops), k, now).value == LastPut(ops, k).value.0
  {
    hide InUse, Run, LastPut, Recent, ReadsInTime;
    InUseIsRecent(cfg, ops);
    HoldsInUse(cfg, ops);
    RunConsistent(cfg, ops);
    if k in Run(cfg, ops).contents.data {
      EntryIsLastPut(cfg, ops, k);
    }
  }

  /** Nothing but reads, and puts of other keys; every read of `k` comes before `limit`. */
  ghost predicate Spares(ops: seq<Op>, k: Key, limit: Option<int>) {
    forall i :: 0 <= i < |ops| ==>
      match ops[i]
      case Get(x, now) => x == k && limit.Some? ==> now < limit.value
      case Put(x, _, _) => x != k
      case Clear => false
  }

  function OtherKeys(ops: seq<Op>, k: Key): set<Key> {
    set i | 0 <= i < |ops| && !ops[i].Clear? && ops[i].key != k :: ops[i].key
  }

  /** `k` is in use, and whatever was used after it is in `others`. */
  ghost predicate Behind(order: seq<Key>, k: Key, others: set<Key>) {
    exists at :: 0 <= at < |order| && order[at] == k && forall j :: at < j < |order| ==> order[j] in others
  }

  ghost predicate AllIn(rest: seq<Key>, others: set<Key>) {
    forall x :: x in rest ==> x in others
  }

  lemma BehindSplit(order: seq<Key>, k: Key, others: set<Key>) returns (past: seq<Key>, rest: seq<Key>)
    requires Behind(order, k, others)
    ensures order == past + ([k] + rest) && AllIn(rest, others)
  {
    var at :| 0 <= at < |order| && order[at] == k && forall j :: at < j < |order| ==> order[j] in others;
    past, rest := order[..at], order[at + 1..];
  }

  lemma BehindJoin(past: seq<Key>, k: Key, rest: seq<Key>, others: set<Key>)
    requires AllIn(rest, others)
    ensures Behind(past + ([k] + rest), k, others)
  {
    var order, at := past + ([k] + rest), |past|;
    assert order[at] == k;
    forall j | at < j < |order|
      ensures order[j] in others
    {
      assert order[j] == rest[j - at - 1];
    }
  }

  lemma BehindTouch(order: seq<Key>, k: Key, others: set<Key>, x: Key)
    requires Behind(order, k, others) && x != k
    ensures Behind(Touch(order, x), k, others + {x}) && Behind(Without(order, x), k, others)
  {
    hide Touch, Without, Behind;
    var past, rest := BehindSplit(order, k, others);
    WithoutConcat(past, [k] + rest, x);
    WithoutConcat([k], rest, x);
    WithoutOne(k, x);
    var p, r := Without(past, x), Without(rest, x);
    BehindJoin(p, k, r, others);
    TouchEnd(order, x);
    assert (p + ([k] + r)) + [x] == p + ([k] + (r + [x]));
    BehindJoin(p, k, r + [x], others + {x});
  }

  lemma TouchEnd(order: seq<Key>, x: Key)
    ensures Touch(order, x) == Without(order, x) + [x]
  {
  }

  lemma WithoutOne(k: Key, x: Key)
    requires x != k
    ensures Without([k], x) == [k]
  {
  }

  lemma BehindLast(order: seq<Key>, k: Key, others: set<Key>)
    ensures Behind(Touch(order, k), k, others)
  {
    assert Touch(order, k)[|Without(order, k)|] == k;
  }

  /** With fewer than `n` keys used after it, `k` survives the cut to `n`. */
  lemma BehindRecent(order: seq<Key>, k: Key, others: set<Key>, n: nat)
    requires Behind(order, k, others) && Distinct(order) && |others| < n
    ensures Behind(Recent(order, n), k, others)
  {
    hide Distinct, Behind;
    var past, rest := BehindSplit(order, k, others);
    DistinctTail(order, |past| + 1);
    assert order[|past| + 1..] == rest;
    DistinctWithin(rest, others);
    var cut := if |order| <= n then 0 else |order| - n;
    assert Recent(order, n) == past[cut..] + ([k] + rest);
    BehindJoin(past[cut..], k, rest, others);
  }

  lemma DistinctTail(order: seq<Key>, n: nat)
    requires Distinct(order) && n <= |order|
    ensures Distinct(order[n..])
  {
  }

  lemma BehindMore(order: seq<Key>, k: Key, others: set<Key>, more: set<Key>)
    requires Behind(order, k, others) && others <= more
    ensures Behind(order, k, more)
  {
    var at :| 0 <= at < |order| && order[at] == k && forall j :: at < j < |order| ==> order[j] in others;
    assert order[at] == k && forall j :: at < j < |order| ==> order[j] in more;
  }

  lemma OthersGrow(ops: seq<Op>, k: Key)
    requires ops != []
    ensures var front, op := ops[..|ops| - 1], ops[|ops| - 1];
            OtherKeys(front, k) <= OtherKeys(ops, k)
            && (!op.Clear? && op.key != k ==> OtherKeys(front, k) + {op.key} <= OtherKeys(ops, k))
  {
    var front := ops[..|ops| - 1];
    forall x | x in OtherKeys(front, k)
      ensures x in OtherKeys(ops, k)
    {
      var i :| 0 <= i < |front| && !front[i].Clear? && front[i].key != k && front[i].key == x;
      assert ops[i] == front[i];
    }
  }

  ghost function Limit(ttl: Option<int>, put: int): Option<int> {
    if ttl.Some? then Some(put + ttl.value) else None
  }

  /** After a put, `k` stays in use and keeps that put while fewer than `maxsize` other keys are used. */
  lemma {:induction false} StaysInUse(cfg: Settings, past: seq<Op>, k: Key, reply: Reply, put: int, later: seq<Op>)
    requires cfg.maxsize >= 1 && Spares(later, k, Limit(cfg.ttl, put)) && |OtherKeys(later, k)| < cfg.maxsize
    ensures var ops := past + [Put(k, reply, put)] + later;
            LastPut(ops, k) == Some((reply, put)) && Behind(InUse(cfg, ops), k, OtherKeys(later, k))
    decreases |later|
  {
    hide Distinct, Touch, Without, Recent, Behind, OtherKeys;
    var ops := past + [Put(k, reply, put)] + later;
    var front := ops[..|ops| - 1];
    InUseDistinct(cfg, front);
    if later == [] {
      assert front == past;
      BehindLast(InUse(cfg, past), k, OtherKeys(later, k));
      TouchDistinct(InUse(cfg, past), k);
      BehindRecent(Touch(InUse(cfg, past), k), k, OtherKeys(later, k), cfg.maxsize);
    } else {
      var last := |later| - 1;
      assert front == past + [Put(k, reply, put)] + later[..last];
      OthersGrow(later, k);
      SubsetSize(OtherKeys(later[..last], k), OtherKeys(later, k));
      StaysInUse(cfg, past, k, reply, put, later[..last]);
      StepStaysInUse(cfg, front, later[last], k, OtherKeys(later[..last], k), OtherKeys(later, k));
    }
  }

  lemma StepStaysInUse(cfg: Settings, front: seq<Op>, op: Op, k: Key, others: set<Key>, more: set<Key>)
    requires cfg.maxsize >= 1 && Distinct(InUse(cfg, front)) && Behind(InUse(cfg, front), k, others)
    requires LastPut(front, k).Some? && Spares([op], k, Limit(cfg.ttl, LastPut(front, k).value.1))
    requires others <= more && |more| < cfg.maxsize && (!op.Clear? && op.key != k ==> op.key in more)
    ensures LastPut(front + [op], k) == LastPut(front, k) && Behind(InUse(cfg, front + [op]), k, more)
  {
    hide Distinct, Touch, Without, Recent, Behind;
    assert (front + [op])[..|front|] == front;
    assert [op][0] == op;
    var order := InUse(cfg, front);
    BehindMore(order, k, others, more);
    match op
    case Get(x, now) =>
      if x == k {
        BehindLast(order, k, more);
      } else {
        BehindTouch(order, k, more, x);
        assert more + {x} == more;
      }
    case Put(x, _, _) =>
      BehindTouch(order, k, more, x);
      assert more + {x} == more;
      TouchDistinct(order, x);
      BehindRecent(Touch(order, x), k, more, cfg.maxsize);
    case Clear =>
  }

  lemma InUseDistinct(cfg: Settings, ops: seq<Op>)
    requires cfg.maxsize >= 1
    ensures Distinct(InUse(cfg, ops))
  {
    HoldsInUse(cfg, ops);
    RunConsistent(cfg, ops);
  }

  /**
   * What a caller can rely on: after a put, a read within the time to live hits with that reply as
   * long as fewer than `maxsize` other keys were put or read in between, whatever came before.
   */
  lemma PutIsReadBack(cfg: Settings, past: seq<Op>, k: Key, reply: Reply, put: int, later: seq<Op>, now: int)
    requires cfg.maxsize >= 1 && Spares(later, k, Limit(cfg.ttl, put)) && |OtherKeys(later, k)| < cfg.maxsize
    requires cfg.ttl.Some? ==> now < put + cfg.ttl.value
    ensures GetResult(Run(cfg, past + [Put(k, reply, put)] + later), k, now) == Some(reply)
  {
    hide InUse, Run, LastPut, OtherKeys, Spares;
    var ops := past + [Put(k, reply, put)] + later;
    StaysInUse(cfg, past, k, reply, put, later);
    HitsExactlyFresh(cfg, ops, k, now, reply);
  }
}
