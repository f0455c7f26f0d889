/** Whole runs of the prefix cache: what every run keeps, the recency order, and LRU inclusion. */
module CacheRuns {
  import opened KVCache

  datatype Op<K, V> = Get(key: K) | Put(entry: Entry<K, V>) | EvictLru(needed: int) | Clear

  function Step<K(==), V>(b: Budget, c: Cache<K, V>, op: Op<K, V>): Cache<K, V> {
    match op
    case Get(k) => GetSpec(c, k).0
    case Put(e) => PutSpec(b, c, e)
    case EvictLru(n) => EvictSpec(c, n)
    case Clear => ClearSpec(c)
  }

  function Run<K(==), V>(b: Budget, ops: seq<Op<K, V>>): Cache<K, V> {
    if ops == [] then Cache([], 0, 0, 0, 0)
    else Step(b, Run(b, ops[..|ops| - 1]), ops[|ops| - 1])
  }

  /** Runs in which every put returns. */
  ghost predicate Completed<K, V>(b: Budget, ops: seq<Op<K, V>>) {
    forall i | 0 <= i < |ops| && ops[i].Put? :: Returns(b, ops[i].entry)
  }

  /** Every run accounts for its bytes, respects both budgets and holds one entry per key. */
  lemma {:induction false} RunSound<K, V>(b: Budget, ops: seq<Op<K, V>>)
    requires Completed(b, ops)
    ensures Sound(b, Run(b, ops))
  {
    if ops != [] {
      var before, op := Run(b, ops[..|ops| - 1]), ops[|ops| - 1];
      RunSound(b, ops[..|ops| - 1]);
      match op
      case Get(k) => GetSound(b, before, k);
      case Put(e) => PutSound(b, before, e);
      case EvictLru(n) => EvictSound(b, before, n);
      case Clear =>
    }
  }

  // ---------------------------------------------------------------- the counters

  /** How many lookups of the run found something. */
  function Found<K(==), V>(b: Budget, ops: seq<Op<K, V>>): nat {
    if ops == [] then 0 else
      var front := ops[..|ops| - 1];
      Found(b, front) + match ops[|ops| - 1]
        case Get(k) => if GetSpec(Run(b, front), k).1.Some? then 1 else 0
        case _ => 0
  }

  function Lookups<K, V>(ops: seq<Op<K, V>>): nat {
    if ops == [] then 0 else Lookups(ops[..|ops| - 1]) + if ops[|ops| - 1].Get? then 1 else 0
  }

  /** How many stores of the run brought in a key that was not there. */
  function Came<K(==), V>(b: Budget, ops: seq<Op<K, V>>): nat {
    if ops == [] then 0 else
      var front := ops[..|ops| - 1];
      Came(b, front) + match ops[|ops| - 1]
        case Put(e) => if e.bytes <= b.memory && !Has(Run(b, front).entries, e.key) then 1 else 0
        case _ => 0
  }

  /** How many entries the run cleared. */
  function Cleared<K(==), V>(b: Budget, ops: seq<Op<K, V>>): nat {
    if ops == [] then 0 else
      var front := ops[..|ops| - 1];
      Cleared(b, front) + if ops[|ops| - 1].Clear? then |Run(b, front).entries| else 0
  }

  /**
   The counters over every run: hits are the lookups that found something, misses the others, and every entry that came
   in is still there, was cleared, or is counted as evicted.
   */
  lemma {:induction false} CountersAddUp<K, V>(b: Budget, ops: seq<Op<K, V>>)
    ensures var c := Run(b, ops);
      && c.hits == Found(b, ops) && c.hits + c.misses == Lookups(ops)
      && Came(b, ops) == |c.entries| + Cleared(b, ops) + c.evictions
  {
    if ops != [] { CountersAddUp(b, ops[..|ops| - 1]); }
  }

  // ---------------------------------------------------------------- recency

  /** When a key was last looked up or stored, counting operations from 1; 0 for never. */
  function LastUse<K(==), V>(b: Budget, ops: seq<Op<K, V>>, k: K): (n: nat)
    ensures n <= |ops|
  {
    if ops == [] then 0 else
      match ops[|ops| - 1]
      case Get(k') => if k' == k then |ops| else LastUse(b, ops[..|ops| - 1], k)
      case Put(e) => if e.key == k && e.bytes <= b.memory then |ops| else LastUse(b, ops[..|ops| - 1], k)
      case _ => LastUse(b, ops[..|ops| - 1], k)
  }

  /** es runs in increasing order of last use, all of them after m. */
  ghost predicate Recency<K, V>(b: Budget, ops: seq<Op<K, V>>, es: seq<Entry<K, V>>, m: int)
    decreases |es|
  {
    es == [] || (m < LastUse(b, ops, es[0].key) && Recency(b, ops, es[1..], LastUse(b, ops, es[0].key)))
  }

  lemma {:induction false} RecencyWeaken<K, V>(b: Budget, ops: seq<Op<K, V>>, es: seq<Entry<K, V>>, m: int, m': int)
    requires Recency(b, ops, es, m) && m' <= m
    ensures Recency(b, ops, es, m')
  {
  }

  lemma {:induction false} RecencyWithout<K, V>(b: Budget, ops: seq<Op<K, V>>, es: seq<Entry<K, V>>, k: K, m: int)
    requires Recency(b, ops, es, m)
    ensures Recency(b, ops, Without(es, k), m)
    decreases |es|
  {
    if es != [] {
      var u := LastUse(b, ops, es[0].key);
      if es[0].key == k {
        RecencyWeaken(b, ops, es[1..], u, m);
      } else {
        RecencyWithout(b, ops, es[1..], k, u);
        assert Without(es, k)[1..] == Without(es[1..], k);
      }
    }
  }

  lemma {:induction false} RecencySuffix<K, V>(b: Budget, ops: seq<Op<K, V>>, es: seq<Entry<K, V>>, d: nat, m: int)
    requires d <= |es| && Recency(b, ops, es, m)
    ensures Recency(b, ops, es[d..], m)
    decreases |es|
  {
    if d > 0 {
      RecencySuffix(b, ops, es[1..], d - 1, LastUse(b, ops, es[0].key));
      assert es[1..][d - 1..] == es[d..];
      RecencyWeaken(b, ops, es[d..], LastUse(b, ops, es[0].key), m);
    } else {
      assert es[d..] == es;
    }
  }

  /** One more operation that uses no key of es leaves their order alone. */
  lemma {:induction false} RecencyFrame<K, V>(b: Budget, ops: seq<Op<K, V>>, op: Op<K, V>, es: seq<Entry<K, V>>, m: int)
    requires Recency(b, ops, es, m)
    requires op.Get? ==> !Has(es, op.key)
    requires op.Put? && op.entry.bytes <= b.memory ==> !Has(es, op.entry.key)
    ensures Recency(b, ops + [op], es, m)
    decreases |es|
  {
    if es != [] {
      assert (ops + [op])[..|ops|] == ops;
      RecencyFrame(b, ops, op, es[1..], LastUse(b, ops, es[0].key));
    }
  }

  /** The key just used goes last. */
  lemma {:induction false} RecencyAppend<K, V>(b: Budget, ops: seq<Op<K, V>>, es: seq<Entry<K, V>>, e: Entry<K, V>,
                                               m: int)
    requires Recency(b, ops, es, m) && LastUse(b, ops, e.key) == |ops| && m < |ops|
    requires !Has(es, e.key)
    requires forall i | 0 <= i < |es| :: LastUse(b, ops, es[i].key) < |ops|
    ensures Recency(b, ops, es + [e], m)
    decreases |es|
  {
    if es == [] {
      assert [] + [e] == [e];
    } else {
      assert (es + [e])[1..] == es[1..] + [e];
      RecencyAppend(b, ops, es[1..], e, LastUse(b, ops, es[0].key));
    }
  }

  lemma {:induction false} UsedBefore<K, V>(b: Budget, ops: seq<Op<K, V>>, op: Op<K, V>, es: seq<Entry<K, V>>)
    requires op.Get? ==> !Has(es, op.key)
    requires op.Put? ==> !Has(es, op.entry.key)
    ensures forall i | 0 <= i < |es| :: LastUse(b, ops + [op], es[i].key) <= |ops|
    decreases |es|
  {
    if es != [] {
      assert (ops + [op])[..|ops|] == ops;
      UsedBefore(b, ops, op, es[1..]);
      assert forall i | 1 <= i < |es| :: es[i] == es[1..][i - 1];
    }
  }

  /** Moving or adding the used key to the end keeps the order. */
  lemma Touch<K, V>(b: Budget, ops: seq<Op<K, V>>, op: Op<K, V>, es: seq<Entry<K, V>>, e: Entry<K, V>)
    requires op == Get(e.key) || (op == Put(e) && e.bytes <= b.memory)
    requires Recency(b, ops, es, 0) && !Has(es, e.key)
    ensures Recency(b, ops + [op], es + [e], 0)
  {
    RecencyFrame(b, ops, op, es, 0);
    UsedBefore(b, ops, op, es);
    RecencyAppend(b, ops + [op], es, e, 0);
  }

  lemma PutInOrder<K, V>(b: Budget, front: seq<Op<K, V>>, e: Entry<K, V>, es: seq<Entry<K, V>>)
    requires e.bytes <= b.memory && Returns(b, e) && Distinct(es) && Recency(b, front, es, 0)
    ensures Recency(b, front + [Put(e)], Kept(b, Without(es, e.key), e.bytes) + [e], 0)
  {
    var rest := Without(es, e.key);
    WithoutDistinct(es, e.key);
    RecencyWithout(b, front, es, e.key, 0);
    KeptInOrder(b, front, rest, e.bytes, e.key);
    Touch(b, front, Put(e), Kept(b, rest, e.bytes), e);
  }

  lemma {:induction false} KeptInOrder<K, V>(b: Budget, front: seq<Op<K, V>>, es: seq<Entry<K, V>>, bytes: nat, k: K)
    requires Recency(b, front, es, 0) && !Has(es, k)
    ensures Recency(b, front, Kept(b, es, bytes), 0) && !Has(Kept(b, es, bytes), k)
    decreases |es|
  {
    if es != [] && !Room(b, es, bytes) {
      RecencyWeaken(b, front, es[1..], LastUse(b, front, es[0].key), 0);
      KeptInOrder(b, front, es[1..], bytes, k);
    }
  }

  lemma GetInOrder<K, V>(b: Budget, front: seq<Op<K, V>>, k: K, es: seq<Entry<K, V>>)
    requires Has(es, k) && Distinct(es) && Recency(b, front, es, 0)
    ensures Recency(b, front + [Get(k)], Without(es, k) + [es[Find(es, k)]], 0)
  {
    WithoutDistinct(es, k);
    RecencyWithout(b, front, es, k, 0);
    Touch(b, front, Get(k), Without(es, k), es[Find(es, k)]);
  }

  lemma EvictInOrder<K, V>(b: Budget, front: seq<Op<K, V>>, n: int, es: seq<Entry<K, V>>)
    requires Recency(b, front, es, 0)
    ensures Recency(b, front + [EvictLru(n)], Shed(es, n), 0)
  {
    ShedFreesEnough(es, n);
    RecencySuffix(b, front, es, |es| - |Shed(es, n)|, 0);
    RecencyFrame(b, front, EvictLru(n), Shed(es, n), 0);
  }

  /**
   In every run the entries stand in order of last use, so evicting from the front is evicting the least recently used.
   */
  lemma {:induction false} RunInRecencyOrder<K, V>(b: Budget, ops: seq<Op<K, V>>)
    requires Completed(b, ops)
    ensures Recency(b, ops, Run(b, ops).entries, 0)
  {
    if ops != [] {
      var front, op := ops[..|ops| - 1], ops[|ops| - 1];
      assert ops == front + [op];
      var es := Run(b, front).entries;
      RunInRecencyOrder(b, front);
      RunSound(b, front);
      if op.Put? && op.entry.bytes <= b.memory {
        PutInOrder(b, front, op.entry, es);
      } else if op.EvictLru? {
        EvictInOrder(b, front, op.needed, es);
      } else if op.Get? && Has(es, op.key) {
        GetInOrder(b, front, op.key, es);
      } else if !op.Clear? {
        RecencyFrame(b, front, op, es, 0);
      }
    }
  }

  // ---------------------------------------------------------------- inclusion

  /** s is a subsequence of l: fewer entries, in the same relative order. */
  predicate Sub<T(==)>(s: seq<T>, l: seq<T>) {
    s == [] || (l != [] && if s[0] == l[0] then Sub(s[1..], l[1..]) else Sub(s, l[1..]))
  }

  lemma {:induction false} SubDropLeft<T>(s: seq<T>, l: seq<T>)
    requires Sub(s, l) && s != []
    ensures Sub(s[1..], l)
  {
    if s[0] == l[0] {
      if s[1..] != [] && s[1] == l[0] { SubDropLeft(s[1..], l[1..]); }
    } else {
      SubDropLeft(s, l[1..]);
      if s[1..] != [] && s[1] == l[0] { SubDropLeft(s[1..], l[1..]); }
    }
  }

  /** Dropping the front of l, and of s with it when it is the same entry or s is to lose its front anyway. */
  lemma SubDropFront<T>(s: seq<T>, l: seq<T>, both: bool)
    requires Sub(s, l) && l != [] && (both || s == [] || s[0] != l[0])
    ensures Sub(if both && s != [] then s[1..] else s, l[1..])
  {
    if both && s != [] && s[0] != l[0] { SubDropLeft(s, l[1..]); }
  }

  lemma {:induction false} SubAppend<T>(s: seq<T>, l: seq<T>, e: T, both: bool)
    requires Sub(s, l)
    ensures Sub(if both then s + [e] else s, l + [e])
  {
    if l != [] {
      assert (l + [e])[1..] == l[1..] + [e];
      if s != [] && s[0] == l[0] {
        SubAppend(s[1..], l[1..], e, both);
        assert (s + [e])[1..] == s[1..] + [e];
      } else if s != [] {
        SubAppend(s, l[1..], e, both);
      } else if both {
        assert [] + [e] == [e];
        if e == l[0] {} else { SubAppend(s, l[1..], e, both); }
      }
    } else {
      assert [] + [e] == [e];
    }
  }

  lemma {:induction false} SubHas<K, V>(s: seq<Entry<K, V>>, l: seq<Entry<K, V>>, k: K)
    requires Sub(s, l) && Has(s, k) && Distinct(l)
    ensures Has(l, k) && s[Find(s, k)] == l[Find(l, k)]
  {
    if s[0] == l[0] {
      if s[0].key != k { SubHas(s[1..], l[1..], k); }
    } else {
      SubHas(s, l[1..], k);
    }
  }

  lemma {:induction false} SubWithout<K, V>(s: seq<Entry<K, V>>, l: seq<Entry<K, V>>, k: K)
    requires Sub(s, l) && Distinct(l)
    ensures Sub(Without(s, k), Without(l, k))
  {
    if s != [] {
      if s[0] == l[0] {
        if s[0].key != k {
          SubWithout(s[1..], l[1..], k);
          assert Without(s, k)[1..] == Without(s[1..], k) && Without(l, k)[1..] == Without(l[1..], k);
        }
      } else if l[0].key == k {
        if Has(s, k) { SubHas(s, l[1..], k); }
        WithoutSlices(s, k);
      } else {
        SubWithout(s, l[1..], k);
        assert Without(l, k)[1..] == Without(l[1..], k);
        SubSkip(Without(s, k), Without(l, k));
      }
    }
  }

  lemma SubSkip<T>(s: seq<T>, l: seq<T>)
    requires l != [] && Sub(s, l[1..])
    ensures Sub(s, l)
  {
    if s != [] && s[0] == l[0] { SubDropLeft(s, l[1..]); }
  }

  /** Lookups and stores only, of entries no larger than unit, so that max_entries of them always fit the bytes. */
  ghost predicate Roomy<K, V>(b: Budget, unit: nat, ops: seq<Op<K, V>>) {
    && b.entries >= 1 && unit * b.entries <= b.memory
    && forall i | 0 <= i < |ops| :: ops[i].Get? || (ops[i].Put? && ops[i].entry.bytes <= unit)
  }

  ghost predicate Small<K, V>(unit: nat, es: seq<Entry<K, V>>) {
    forall i | 0 <= i < |es| :: es[i].bytes <= unit
  }

  lemma {:induction false} SmallBytes<K, V>(unit: nat, es: seq<Entry<K, V>>)
    requires Small(unit, es)
    ensures Bytes(es) <= unit * |es|
  {
    if es != [] {
      SmallBytes(unit, es[1..]);
      assert unit * |es| == unit * (|es| - 1) + unit;
    }
  }

  /** With bytes to spare, a put drops at most the front entry, and only when the cache is full. */
  lemma RoomyKept<K, V>(b: Budget, unit: nat, es: seq<Entry<K, V>>, bytes: nat)
    requires b.entries >= 1 && unit * b.entries <= b.memory && Small(unit, es) && bytes <= unit && |es| <= b.entries
    ensures Kept(b, es, bytes) == if |es| < b.entries then es else es[1..]
  {
    var rest := if |es| < b.entries then es else es[1..];
    assert Small(unit, rest);
    SmallBytes(unit, rest);
    assert |rest| + 1 <= b.entries;
    UnitFits(unit, |rest|, b.entries);
    assert Room(b, rest, bytes);
  }

  lemma {:induction false} UnitFits(unit: nat, n: nat, m: nat)
    requires n + 1 <= m
    ensures unit * n + unit <= unit * m
  {
    assert unit * m == unit * (m - 1) + unit;
    if n + 1 < m { UnitFits(unit, n, m - 1); }
  }

  /** The pair of caches: the smaller is part of the larger, and the same as the larger until it has been full. */
  ghost predicate Included<K, V>(bs: Budget, s: Cache<K, V>, bl: Budget, l: Cache<K, V>, unit: nat) {
    && Sound(bs, s) && Sound(bl, l) && Small(unit, s.entries) && Small(unit, l.entries)
    && Sub(s.entries, l.entries) && s.hits <= l.hits
    && (|s.entries| < bs.entries ==> s.entries == l.entries)
  }

  lemma {:induction false} SmallWithout<K, V>(unit: nat, es: seq<Entry<K, V>>, k: K)
    requires Small(unit, es)
    ensures Small(unit, Without(es, k))
  {
    WithoutSlices(es, k);
  }

  lemma GetIncluded<K, V>(bs: Budget, s: Cache<K, V>, bl: Budget, l: Cache<K, V>, unit: nat, k: K)
    requires Included(bs, s, bl, l, unit)
    ensures Included(bs, GetSpec(s, k).0, bl, GetSpec(l, k).0, unit)
  {
    GetSound(bs, s, k);
    GetSound(bl, l, k);
    SubWithout(s.entries, l.entries, k);
    SmallWithout(unit, s.entries, k);
    SmallWithout(unit, l.entries, k);
    if Has(s.entries, k) {
      SubHas(s.entries, l.entries, k);
      SubAppend(Without(s.entries, k), Without(l.entries, k), l.entries[Find(l.entries, k)], true);
    } else if Has(l.entries, k) {
      WithoutSlices(s.entries, k);
      SubAppend(s.entries, Without(l.entries, k), l.entries[Find(l.entries, k)], false);
    }
  }

  lemma PutIncluded<K, V>(bs: Budget, s: Cache<K, V>, bl: Budget, l: Cache<K, V>, unit: nat, e: Entry<K, V>)
    requires Included(bs, s, bl, l, unit) && 1 <= bs.entries <= bl.entries && e.bytes <= unit
    requires unit * bs.entries <= bs.memory && unit * bl.entries <= bl.memory
    ensures Included(bs, PutSpec(bs, s, e), bl, PutSpec(bl, l, e), unit)
  {
    var rs, rl := Without(s.entries, e.key), Without(l.entries, e.key);
    PutSound(bs, s, e);
    PutSound(bl, l, e);
    UnitFits(unit, 0, bs.entries);
    UnitFits(unit, 0, bl.entries);
    SubWithout(s.entries, l.entries, e.key);
    SmallWithout(unit, s.entries, e.key);
    SmallWithout(unit, l.entries, e.key);
    RoomyKept(bs, unit, rs, e.bytes);
    RoomyKept(bl, unit, rl, e.bytes);
    var ks, kl := Kept(bs, rs, e.bytes), Kept(bl, rl, e.bytes);
    if |rl| >= bl.entries {
      if |rs| < bs.entries {
        WithoutSlices(s.entries, e.key);
        if Has(s.entries, e.key) { SubHas(s.entries, l.entries, e.key); }
      }
      SubDropFront(rs, rl, true);
    } else if |rs| >= bs.entries {
      SubDropLeft(rs, rl);
    }
    SubAppend(ks, kl, e, true);
  }

  /**
   LRU inclusion: on any trace of lookups and stores, the cache with fewer entries holds a subset of the larger one's
   bindings, in the same relative order, and has no more hits.
   */
  lemma {:induction false} LruInclusion<K, V>(bs: Budget, bl: Budget, unit: nat, ops: seq<Op<K, V>>)
    requires Roomy(bs, unit, ops) && Roomy(bl, unit, ops) && bs.entries <= bl.entries
    ensures Included(bs, Run(bs, ops), bl, Run(bl, ops), unit)
  {
    if ops != [] {
      var front, op := ops[..|ops| - 1], ops[|ops| - 1];
      LruInclusion(bs, bl, unit, front);
      match op
      case Get(k) => GetIncluded(bs, Run(bs, front), bl, Run(bl, front), unit, k);
      case Put(e) => PutIncluded(bs, Run(bs, front), bl, Run(bl, front), unit, e);
      case EvictLru(_) =>
      case Clear =>
    }
  }
}
