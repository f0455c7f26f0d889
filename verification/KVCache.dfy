/** core/kv_cache.py: an LRU cache of prefix states with a byte budget and an entry budget. */
module KVCache {
  import opened Options

  datatype Entry<K, V> = Entry(key: K, kv: V, prefixLength: nat, bytes: nat)

  /** The cache as a value; entries run from least to most recently used. */
  datatype Cache<K, V> = Cache(entries: seq<Entry<K, V>>, memory: int, hits: nat, misses: nat, evictions: nat)

  datatype Budget = Budget(memory: nat, entries: nat)

  function Bytes<K, V>(es: seq<Entry<K, V>>): nat {
    if es == [] then 0 else es[0].bytes + Bytes(es[1..])
  }

  predicate Has<K(==), V>(es: seq<Entry<K, V>>, k: K) {
    es != [] && (es[0].key == k || Has(es[1..], k))
  }

  function Find<K(==), V>(es: seq<Entry<K, V>>, k: K): (i: nat)
    ensures i <= |es|
    ensures if Has(es, k) then i < |es| && es[i].key == k else i == |es|
    ensures forall j | 0 <= j < i :: es[j].key != k
  {
    if es == [] || es[0].key == k then 0 else 1 + Find(es[1..], k)
  }

  /** The entries with the binding of k taken out. */
  function Without<K(==), V>(es: seq<Entry<K, V>>, k: K): (r: seq<Entry<K, V>>)
    ensures |r| == |es| - if Has(es, k) then 1 else 0
  {
    if es == [] then []
    else if es[0].key == k then es[1..]
    else [es[0]] + Without(es[1..], k)
  }

  ghost predicate Distinct<K, V>(es: seq<Entry<K, V>>) {
    es == [] || (!Has(es[1..], es[0].key) && Distinct(es[1..]))
  }

  /** What every operation keeps: one entry per key, bytes accounted for, both budgets respected. */
  ghost predicate Sound<K, V>(b: Budget, c: Cache<K, V>) {
    Distinct(c.entries) && c.memory == Bytes(c.entries) <= b.memory && |c.entries| <= b.entries
  }

  lemma {:induction false} BytesAppend<K, V>(a: seq<Entry<K, V>>, b: seq<Entry<K, V>>)
    ensures Bytes(a + b) == Bytes(a) + Bytes(b)
  {
    if a == [] {
      assert a + b == b;
    } else {
      assert (a + b)[1..] == a[1..] + b;
      BytesAppend(a[1..], b);
    }
  }

  lemma {:induction false} WithoutBytes<K, V>(es: seq<Entry<K, V>>, k: K)
    ensures Bytes(Without(es, k)) == Bytes(es) - if Has(es, k) then es[Find(es, k)].bytes else 0
  {
    if es != [] && es[0].key != k {
      WithoutBytes(es[1..], k);
      assert Without(es, k)[1..] == Without(es[1..], k);
    }
  }

  lemma {:induction false} WithoutSlices<K, V>(es: seq<Entry<K, V>>, k: K)
    ensures Has(es, k) ==> Without(es, k) == es[..Find(es, k)] + es[Find(es, k) + 1..]
    ensures !Has(es, k) ==> Without(es, k) == es
  {
    if es != [] && es[0].key != k {
      WithoutSlices(es[1..], k);
      if Has(es, k) {
        var i, tail := Find(es, k), es[1..];
        assert tail[i..] == es[i + 1..];
        assert es[..i] == [es[0]] + tail[..i - 1];
        assert Without(es, k) == [es[0]] + (tail[..i - 1] + tail[i..]);
      }
    }
  }

  lemma {:induction false} HasAppend<K, V>(a: seq<Entry<K, V>>, b: seq<Entry<K, V>>, k: K)
    ensures Has(a + b, k) <==> Has(a, k) || Has(b, k)
  {
    if a == [] {
      assert a + b == b;
    } else {
      assert (a + b)[1..] == a[1..] + b;
      HasAppend(a[1..], b, k);
    }
  }

  lemma {:induction false} WithoutHas<K, V>(es: seq<Entry<K, V>>, k: K, x: K)
    requires Distinct(es)
    ensures Has(Without(es, k), x) <==> Has(es, x) && x != k
  {
    if es != [] {
      WithoutHas(es[1..], k, x);
      if es[0].key != k { assert Without(es, k)[1..] == Without(es[1..], k); }
    }
  }

  lemma {:induction false} WithoutDistinct<K, V>(es: seq<Entry<K, V>>, k: K)
    requires Distinct(es)
    ensures Distinct(Without(es, k)) && !Has(Without(es, k), k)
  {
    WithoutHas(es, k, k);
    if es != [] && es[0].key != k {
      WithoutDistinct(es[1..], k);
      WithoutHas(es[1..], k, es[0].key);
      assert Without(es, k)[1..] == Without(es[1..], k);
    }
  }

  lemma {:induction false} AppendDistinct<K, V>(es: seq<Entry<K, V>>, e: Entry<K, V>)
    requires Distinct(es) && !Has(es, e.key)
    ensures Distinct(es + [e]) && Bytes(es + [e]) == Bytes(es) + e.bytes
  {
    BytesAppend(es, [e]);
    if es != [] {
      AppendDistinct(es[1..], e);
      HasAppend(es[1..], [e], es[0].key);
      assert (es + [e])[1..] == es[1..] + [e];
    }
  }

  // ---------------------------------------------------------------- specifications

  function GetSpec<K(==), V>(c: Cache<K, V>, k: K): (Cache<K, V>, Option<Entry<K, V>>) {
    var i := Find(c.entries, k);
    if i < |c.entries| then
      (c.(entries := Without(c.entries, k) + [c.entries[i]], hits := c.hits + 1), Some(c.entries[i]))
    else
      (c.(misses := c.misses + 1), None)
  }

  predicate Room<K, V>(b: Budget, es: seq<Entry<K, V>>, bytes: nat) {
    Bytes(es) + bytes <= b.memory && |es| < b.entries
  }

  /** Dropping from the least recently used end until an entry of the given size fits. */
  function Kept<K, V>(b: Budget, es: seq<Entry<K, V>>, bytes: nat): (r: seq<Entry<K, V>>)
    ensures |r| <= |es|
  {
    if es == [] || Room(b, es, bytes) then es else Kept(b, es[1..], bytes)
  }

  function PutSpec<K(==), V>(b: Budget, c: Cache<K, V>, e: Entry<K, V>): Cache<K, V> {
    if e.bytes > b.memory then c else
      var rest := Without(c.entries, e.key);
      var kept := Kept(b, rest, e.bytes);
      c.(entries := kept + [e], memory := Bytes(kept) + e.bytes, evictions := c.evictions + (|rest| - |kept|))
  }

  /** Dropping from the least recently used end until the given number of bytes is free. */
  function Shed<K, V>(es: seq<Entry<K, V>>, needed: int): (r: seq<Entry<K, V>>)
    ensures |r| <= |es|
  {
    if es == [] || needed <= 0 then es else Shed(es[1..], needed - es[0].bytes)
  }

  function EvictSpec<K, V>(c: Cache<K, V>, needed: int): Cache<K, V> {
    var kept := Shed(c.entries, needed);
    c.(entries := kept, memory := c.memory - Bytes(c.entries) + Bytes(kept),
       evictions := c.evictions + (|c.entries| - |kept|))
  }

  function ClearSpec<K, V>(c: Cache<K, V>): Cache<K, V> {
    c.(entries := [], memory := 0)
  }

  /** kept is a most-recently-used suffix of es. */
  ghost predicate Suffix<K, V>(kept: seq<Entry<K, V>>, es: seq<Entry<K, V>>) {
    |kept| <= |es| && kept == es[|es| - |kept|..]
  }

  /** What survives a put is the longest most-recently-used suffix beside which the new entry fits. */
  lemma {:induction false} KeptIsLongestFit<K, V>(b: Budget, es: seq<Entry<K, V>>, bytes: nat)
    requires bytes <= b.memory && b.entries >= 1
    ensures var kept := Kept(b, es, bytes);
      Suffix(kept, es) && Room(b, kept, bytes) && forall d | 0 <= d < |es| - |kept| :: !Room(b, es[d..], bytes)
  {
    if es != [] && !Room(b, es, bytes) {
      KeptIsLongestFit(b, es[1..], bytes);
      var kept := Kept(b, es, bytes);
      forall d | 0 <= d < |es| - |kept| ensures !Room(b, es[d..], bytes) {
        if d == 0 { assert es[0..] == es; } else { assert es[d..] == es[1..][d - 1..]; }
      }
    } else {
      assert es[0..] == es;
    }
  }

  /** Eviction frees what was asked for, unless it empties the cache, and no entry more than needed. */
  lemma {:induction false} ShedFreesEnough<K, V>(es: seq<Entry<K, V>>, needed: int)
    ensures var kept := Shed(es, needed);
      && Suffix(kept, es) && Bytes(kept) <= Bytes(es)
      && (kept == [] || Bytes(es) - Bytes(kept) >= needed)
      && forall d | 0 <= d < |es| - |kept| :: Bytes(es) - Bytes(es[d..]) < needed
  {
    if es != [] && needed > 0 {
      ShedFreesEnough(es[1..], needed - es[0].bytes);
      var kept := Shed(es, needed);
      forall d | 0 <= d < |es| - |kept| ensures Bytes(es) - Bytes(es[d..]) < needed {
        if d == 0 { assert es[0..] == es; } else { assert es[d..] == es[1..][d - 1..]; }
      }
    } else {
      assert es[0..] == es;
    }
  }

  lemma GetSound<K, V>(b: Budget, c: Cache<K, V>, k: K)
    requires Sound(b, c)
    ensures Sound(b, GetSpec(c, k).0)
  {
    WithoutBytes(c.entries, k);
    WithoutDistinct(c.entries, k);
    if Has(c.entries, k) { AppendDistinct(Without(c.entries, k), c.entries[Find(c.entries, k)]); }
  }

  // ---------------------------------------------------------------- when put returns

  /** put ends for this entry: there is a place for an entry at all, or the entry is refused as oversized. */
  predicate Returns<K, V>(b: Budget, e: Entry<K, V>) {
    b.entries >= 1 || e.bytes > b.memory
  }

  /** Where put's eviction stands: in the loop for bytes, in the loop for the entry count, or past both. */
  datatype Phase = FreeingBytes | FreeingEntries | Ready

  datatype Progress<K, V> = Progress(phase: Phase, entries: seq<Entry<K, V>>)

  /** One evaluation of a loop guard, with the eviction if it holds; evicting from an empty cache does nothing. */
  function Turn<K, V>(b: Budget, bytes: nat, p: Progress<K, V>): Progress<K, V> {
    match p.phase
    case FreeingBytes =>
      if p.entries != [] && Bytes(p.entries) + bytes > b.memory then Progress(FreeingBytes, p.entries[1..])
      else Progress(FreeingEntries, p.entries)
    case FreeingEntries =>
      if |p.entries| >= b.entries then Progress(FreeingEntries, if p.entries == [] then [] else p.entries[1..])
      else Progress(Ready, p.entries)
    case Ready => p
  }

  function Turns<K, V>(b: Budget, bytes: nat, p: Progress<K, V>, n: nat): Progress<K, V>
    decreases n
  {
    if n == 0 then p else Turns(b, bytes, Turn(b, bytes, p), n - 1)
  }

  lemma {:induction false} LoopsEnd<K, V>(b: Budget, bytes: nat, p: Progress<K, V>) returns (n: nat)
    requires b.entries >= 1
    ensures Turns(b, bytes, p, n).phase == Ready
    decreases match p.phase case FreeingBytes => 2 case FreeingEntries => 1 case Ready => 0, |p.entries|
  {
    if p.phase == Ready {
      n := 0;
    } else {
      n := LoopsEnd(b, bytes, Turn(b, bytes, p));
      n := n + 1;
    }
  }

  lemma {:induction false} LoopsNeverEnd<K, V>(b: Budget, bytes: nat, p: Progress<K, V>, n: nat)
    requires b.entries == 0 && p.phase != Ready
    ensures Turns(b, bytes, p, n).phase != Ready
    decreases n
  {
    if n > 0 { LoopsNeverEnd(b, bytes, Turn(b, bytes, p), n - 1); }
  }

  lemma {:induction false} LoopsKeep<K, V>(b: Budget, bytes: nat, p: Progress<K, V>, n: nat)
    requires bytes <= b.memory && Turns(b, bytes, p, n).phase == Ready
    requires p.phase == FreeingEntries ==> p.entries == [] || Bytes(p.entries) + bytes <= b.memory
    requires p.phase == Ready ==> p.entries == Kept(b, p.entries, bytes)
    ensures Turns(b, bytes, p, n).entries == Kept(b, p.entries, bytes)
    decreases n
  {
    if n > 0 { LoopsKeep(b, bytes, Turn(b, bytes, p), n - 1); }
  }

  /**
   put, exactly: its eviction loops end after finitely many turns if and only if max_entries is at least 1, and what
   they leave is then what the specification keeps; an oversized entry never gets there.
   */
  lemma PutReturnsExactly<K, V>(b: Budget, es: seq<Entry<K, V>>, e: Entry<K, V>)
    ensures Returns(b, e) <==>
      e.bytes > b.memory || exists n :: Turns(b, e.bytes, Progress(FreeingBytes, es), n).phase == Ready
    ensures e.bytes <= b.memory ==> forall n | Turns(b, e.bytes, Progress(FreeingBytes, es), n).phase == Ready ::
      Turns(b, e.bytes, Progress(FreeingBytes, es), n).entries == Kept(b, es, e.bytes)
  {
    var start := Progress(FreeingBytes, es);
    if b.entries >= 1 {
      var n := LoopsEnd(b, e.bytes, start);
    } else {
      forall n: nat ensures Turns(b, e.bytes, start, n).phase != Ready { LoopsNeverEnd(b, e.bytes, start, n); }
    }
    if e.bytes <= b.memory {
      forall n | Turns(b, e.bytes, start, n).phase == Ready
        ensures Turns(b, e.bytes, start, n).entries == Kept(b, es, e.bytes)
      {
        LoopsKeep(b, e.bytes, start, n);
      }
    }
  }

  /** What is kept has room beside it and inherits distinct keys. */
  lemma {:induction false} KeptSound<K, V>(b: Budget, es: seq<Entry<K, V>>, bytes: nat, k: K)
    requires bytes <= b.memory && b.entries >= 1 && Distinct(es) && !Has(es, k)
    ensures var kept := Kept(b, es, bytes); Room(b, kept, bytes) && Distinct(kept) && !Has(kept, k)
  {
    if es != [] && !Room(b, es, bytes) { KeptSound(b, es[1..], bytes, k); }
  }

  lemma PutSound<K, V>(b: Budget, c: Cache<K, V>, e: Entry<K, V>)
    requires Sound(b, c) && Returns(b, e)
    ensures Sound(b, PutSpec(b, c, e))
  {
    if e.bytes <= b.memory {
      var rest := Without(c.entries, e.key);
      WithoutDistinct(c.entries, e.key);
      KeptSound(b, rest, e.bytes, e.key);
      AppendDistinct(Kept(b, rest, e.bytes), e);
    }
  }

  /** What is shed leaves distinct keys and no more entries or bytes than before. */
  lemma {:induction false} ShedSound<K, V>(es: seq<Entry<K, V>>, needed: int)
    requires Distinct(es)
    ensures var kept := Shed(es, needed); Distinct(kept) && |kept| <= |es| && Bytes(kept) <= Bytes(es)
  {
    if es != [] && needed > 0 { ShedSound(es[1..], needed - es[0].bytes); }
  }

  lemma EvictSound<K, V>(b: Budget, c: Cache<K, V>, needed: int)
    requires Sound(b, c)
    ensures Sound(b, EvictSpec(c, needed))
  {
    ShedSound(c.entries, needed);
  }

  // ---------------------------------------------------------------- lookups after a store

  lemma {:induction false} FindIs<K, V>(es: seq<Entry<K, V>>, i: nat)
    requires Distinct(es) && i < |es|
    ensures Has(es, es[i].key) && Find(es, es[i].key) == i
  {
    if i > 0 {
      FindIs(es[1..], i - 1);
      assert es[1..][i - 1] == es[i];
    }
  }

  /** A lookup finds the entry just stored if and only if it was not oversized; an oversized one changes no lookup. */
  lemma StoredIsFound<K, V>(b: Budget, c: Cache<K, V>, e: Entry<K, V>)
    requires Sound(b, c) && Returns(b, e)
    ensures GetSpec(PutSpec(b, c, e), e.key).1 == Some(e) <==> e.bytes <= b.memory
    ensures e.bytes > b.memory ==> forall k :: GetSpec(PutSpec(b, c, e), k).1 == GetSpec(c, k).1
  {
    PutSound(b, c, e);
    if e.bytes <= b.memory {
      var es := PutSpec(b, c, e).entries;
      FindIs(es, |es| - 1);
    } else {
      var i := Find(c.entries, e.key);
      if i < |c.entries| { EntryWithin(c.entries, i); }
    }
  }

  lemma {:induction false} EntryWithin<K, V>(es: seq<Entry<K, V>>, i: nat)
    requires i < |es|
    ensures es[i].bytes <= Bytes(es)
  {
    if i > 0 { EntryWithin(es[1..], i - 1); }
  }

  // ---------------------------------------------------------------- what lookups find

  lemma {:induction false} HasMeans<K, V>(es: seq<Entry<K, V>>, k: K)
    ensures Has(es, k) <==> exists i | 0 <= i < |es| :: es[i].key == k
  {
    if es != [] {
      HasMeans(es[1..], k);
      if Has(es[1..], k) {
        var i :| 0 <= i < |es[1..]| && es[1..][i].key == k;
        assert es[i + 1].key == k;
      }
      if i :| 0 < i < |es| && es[i].key == k { assert es[1..][i - 1].key == k; }
    }
  }

  /** A lookup returns the binding of the key, wherever it stands, and nothing only if there is none. */
  lemma GetFinds<K, V>(c: Cache<K, V>, k: K)
    requires Distinct(c.entries)
    ensures GetSpec(c, k).1 == None <==> forall i | 0 <= i < |c.entries| :: c.entries[i].key != k
    ensures forall i | 0 <= i < |c.entries| && c.entries[i].key == k :: GetSpec(c, k).1 == Some(c.entries[i])
    ensures var (after, found) := GetSpec(c, k);
      && after.hits == c.hits + (if found.Some? then 1 else 0)
      && after.misses == c.misses + (if found.Some? then 0 else 1)
      && after.memory == c.memory && after.evictions == c.evictions
  {
    HasMeans(c.entries, k);
    forall i | 0 <= i < |c.entries| && c.entries[i].key == k ensures GetSpec(c, k).1 == Some(c.entries[i]) {
      FindIs(c.entries, i);
    }
  }

  lemma {:induction false} FindAppend<K, V>(a: seq<Entry<K, V>>, b: seq<Entry<K, V>>, k: K)
    ensures Find(a + b, k) == if Has(a, k) then Find(a, k) else |a| + Find(b, k)
  {
    if a == [] {
      assert a + b == b;
    } else {
      assert (a + b)[1..] == a[1..] + b;
      FindAppend(a[1..], b, k);
    }
  }

  /** The binding of a key among entries. */
  function Lookup<K(==), V>(es: seq<Entry<K, V>>, k: K): Option<Entry<K, V>> {
    if Find(es, k) < |es| then Some(es[Find(es, k)]) else None
  }

  lemma LookupAppend<K, V>(a: seq<Entry<K, V>>, b: seq<Entry<K, V>>, k: K)
    ensures Lookup(a + b, k) == if Has(a, k) then Lookup(a, k) else Lookup(b, k)
  {
    FindAppend(a, b, k);
    var i := Find(b, k);
    if Has(a, k) {
      assert (a + b)[Find(a, k)] == a[Find(a, k)];
    } else if i < |b| {
      assert (a + b)[|a| + i] == b[i];
    }
  }

  lemma {:induction false} LookupWithout<K, V>(es: seq<Entry<K, V>>, k: K, x: K)
    requires Distinct(es) && x != k
    ensures Lookup(Without(es, k), x) == Lookup(es, x)
  {
    if es != [] && es[0].key != k {
      LookupWithout(es[1..], k, x);
      assert Without(es, k)[1..] == Without(es[1..], k);
    }
  }

  lemma LookupSuffix<K, V>(kept: seq<Entry<K, V>>, es: seq<Entry<K, V>>, x: K)
    requires Suffix(kept, es) && Distinct(es) && Has(kept, x)
    ensures Lookup(kept, x) == Lookup(es, x)
  {
    var d := |es| - |kept|;
    assert kept == es[d..];
    FindIs(es, d + Find(kept, x));
    assert es[d + Find(kept, x)] == kept[Find(kept, x)];
  }

  /** Looking a key up changes what no lookup finds. */
  lemma GetKeepsLookups<K, V>(c: Cache<K, V>, k: K, x: K)
    requires Distinct(c.entries)
    ensures GetSpec(GetSpec(c, k).0, x).1 == GetSpec(c, x).1
  {
    var rest := Without(c.entries, k);
    WithoutDistinct(c.entries, k);
    if Has(c.entries, k) {
      LookupAppend(rest, [c.entries[Find(c.entries, k)]], x);
      if x != k {
        LookupWithout(c.entries, k, x);
        WithoutHas(c.entries, k, x);
      }
    }
  }

  /** After a store of an entry that fits, every other key is found as before if its entry survived, and else not. */
  lemma PutKeepsLookups<K, V>(b: Budget, c: Cache<K, V>, e: Entry<K, V>, x: K)
    requires Sound(b, c) && b.entries >= 1 && e.bytes <= b.memory && x != e.key
    ensures var kept := Kept(b, Without(c.entries, e.key), e.bytes);
      GetSpec(PutSpec(b, c, e), x).1 == if Has(kept, x) then GetSpec(c, x).1 else None
  {
    var rest := Without(c.entries, e.key);
    var kept := Kept(b, rest, e.bytes);
    WithoutDistinct(c.entries, e.key);
    KeptIsLongestFit(b, rest, e.bytes);
    LookupAppend(kept, [e], x);
    if Has(kept, x) {
      LookupSuffix(kept, rest, x);
      LookupWithout(c.entries, e.key, x);
    }
  }

  /** After an eviction every key is found as before if its entry survived, and else not. */
  lemma EvictKeepsLookups<K, V>(c: Cache<K, V>, needed: int, x: K)
    requires Distinct(c.entries)
    ensures GetSpec(EvictSpec(c, needed), x).1 == if Has(Shed(c.entries, needed), x) then GetSpec(c, x).1 else None
  {
    ShedFreesEnough(c.entries, needed);
    if Has(Shed(c.entries, needed), x) { LookupSuffix(Shed(c.entries, needed), c.entries, x); }
  }

  /** After a clear nothing is found and nothing is charged; the counters stay. */
  lemma ClearForgets<K, V>(c: Cache<K, V>, x: K)
    ensures var after := ClearSpec(c);
      && GetSpec(after, x).1 == None && after.memory == Bytes(after.entries) == 0
      && after.hits == c.hits && after.misses == c.misses && after.evictions == c.evictions
  {
  }

  // ---------------------------------------------------------------- the class

  class KVCacheManager<K(==), V> {
    const hash: seq<nat> -> K
    const sizeOf: V -> nat
    const budget: Budget
    var cache: seq<Entry<K, V>>
    var hitCount: nat
    var missCount: nat
    var evictionCount: nat
    var currentMemoryBytes: int

    function View(): Cache<K, V>
      reads this
    {
      Cache(cache, currentMemoryBytes, hitCount, missCount, evictionCount)
    }

    ghost predicate Valid()
      reads this
    {
      Sound(budget, View())
    }

    constructor (hash: seq<nat> -> K, sizeOf: V -> nat, budget: Budget)
      ensures Valid() && View() == Cache([], 0, 0, 0, 0)
      ensures this.hash == hash && this.sizeOf == sizeOf && this.budget == budget
    {
      this.hash, this.sizeOf, this.budget := hash, sizeOf, budget;
      cache, hitCount, missCount, evictionCount, currentMemoryBytes := [], 0, 0, 0, 0;
    }

    method Get(prefix: seq<nat>) returns (entry: Option<Entry<K, V>>)
      requires Valid()
      modifies this
      ensures Valid()
      ensures (View(), entry) == GetSpec(old(View()), hash(prefix))
      ensures entry == None <==> forall i | 0 <= i < |old(cache)| :: old(cache)[i].key != hash(prefix)
      ensures forall i | 0 <= i < |old(cache)| && old(cache)[i].key == hash(prefix) :: entry == Some(old(cache)[i])
      ensures hitCount == old(hitCount) + if entry.Some? then 1 else 0
      ensures missCount == old(missCount) + if entry.Some? then 0 else 1
    {
      GetFinds(View(), hash(prefix));
      GetSound(budget, View(), hash(prefix));
      WithoutSlices(cache, hash(prefix));
      var i := Find(cache, hash(prefix));
      if i < |cache| {
        entry := Some(cache[i]);
        cache := cache[..i] + cache[i + 1..] + [cache[i]];
        hitCount := hitCount + 1;
      } else {
        missCount := missCount + 1;
        entry := None;
      }
    }

    /** Asks for what put needs to end at all: PutReturnsExactly. */
    method Put(prefix: seq<nat>, kv: V)
      requires Valid() && Returns(budget, Entry(hash(prefix), kv, |prefix|, sizeOf(kv)))
      modifies this
      ensures Valid()
      ensures View() == PutSpec(budget, old(View()), Entry(hash(prefix), kv, |prefix|, sizeOf(kv)))
    {
      var key, bytes := hash(prefix), sizeOf(kv);
      ghost var e := Entry(key, kv, |prefix|, bytes);
      PutSound(budget, View(), e);
      if bytes > budget.memory {
        return;
      }
      WithoutBytes(cache, key);
      WithoutSlices(cache, key);
      var i := Find(cache, key);
      if i < |cache| {
        var oldEntry := cache[i];
        cache := cache[..i] + cache[i + 1..];
        currentMemoryBytes := currentMemoryBytes - oldEntry.bytes;
      }
      MakeRoom(bytes);
      cache := cache + [Entry(key, kv, |prefix|, bytes)];
      currentMemoryBytes := currentMemoryBytes + bytes;
    }

    /** The two eviction loops of put: first until the bytes fit, then until the entry count does. */
    method MakeRoom(bytes: nat)
      requires budget.entries >= 1 && bytes <= budget.memory && currentMemoryBytes == Bytes(cache)
      modifies this
      ensures cache == Kept(budget, old(cache), bytes) && currentMemoryBytes == Bytes(cache)
      ensures evictionCount == old(evictionCount) + (|old(cache)| - |cache|)
      ensures hitCount == old(hitCount) && missCount == old(missCount)
    {
      while cache != [] && currentMemoryBytes + bytes > budget.memory
        invariant |cache| <= old(|cache|) && currentMemoryBytes == Bytes(cache)
        invariant Kept(budget, cache, bytes) == Kept(budget, old(cache), bytes)
        invariant evictionCount == old(evictionCount) + (old(|cache|) - |cache|)
        invariant hitCount == old(hitCount) && missCount == old(missCount)
        decreases |cache|
      {
        var _ := EvictOneLocked();
      }
      while |cache| >= budget.entries
        invariant |cache| <= old(|cache|) && currentMemoryBytes == Bytes(cache)
        invariant cache == [] || currentMemoryBytes + bytes <= budget.memory
        invariant Kept(budget, cache, bytes) == Kept(budget, old(cache), bytes)
        invariant evictionCount == old(evictionCount) + (old(|cache|) - |cache|)
        invariant hitCount == old(hitCount) && missCount == old(missCount)
        decreases |cache|
      {
        var _ := EvictOneLocked();
      }
    }

    method EvictLru(needed: int)
      requires Valid()
      modifies this
      ensures Valid()
      ensures View() == EvictSpec(old(View()), needed)
    {
      EvictSound(budget, View(), needed);
      var freed := 0;
      while cache != [] && freed < needed
        invariant currentMemoryBytes == Bytes(cache) && freed + Bytes(cache) == old(Bytes(cache))
        invariant Shed(cache, needed - freed) == old(Shed(cache, needed))
        invariant evictionCount == old(evictionCount + |cache|) - |cache|
        invariant hitCount == old(hitCount) && missCount == old(missCount)
        decreases |cache|
      {
        var bytes := EvictOneLocked();
        freed := freed + bytes;
      }
    }

    method EvictOneLocked() returns (freed: nat)
      modifies this
      ensures hitCount == old(hitCount) && missCount == old(missCount)
      ensures old(cache) == [] ==> freed == 0 && View() == old(View())
      ensures old(cache) != [] ==>
        && freed == old(cache)[0].bytes && cache == old(cache)[1..]
        && currentMemoryBytes == old(currentMemoryBytes) - freed && evictionCount == old(evictionCount) + 1
    {
      if cache == [] {
        return 0;
      }
      freed := cache[0].bytes;
      cache := cache[1..];
      currentMemoryBytes := currentMemoryBytes - freed;
      evictionCount := evictionCount + 1;
    }

    method Clear()
      requires Valid()
      modifies this
      ensures Valid() && View() == ClearSpec(old(View()))
      ensures cache == [] && currentMemoryBytes == 0
    {
      cache, currentMemoryBytes := [], 0;
    }
  }
}
