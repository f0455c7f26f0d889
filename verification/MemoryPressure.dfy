/** profiler/watermark.py and profiler/pressure.py: watermark levels, the rejecting latch and escalating eviction. */
module MemoryPressure {
  import Options
  import opened KVCache

  datatype Level = NORMAL | HIGH | CRITICAL

  function Classify(utilization: real, high: real, critical: real): Level {
    if utilization >= critical then CRITICAL
    else if utilization >= high then HIGH
    else NORMAL
  }

  class WatermarkMonitor {
    const highRatio: real
    const criticalRatio: real
    var currentLevel: Level

    constructor (highRatio: real, criticalRatio: real)
      ensures this.highRatio == highRatio && this.criticalRatio == criticalRatio && currentLevel == NORMAL
    {
      this.highRatio, this.criticalRatio, currentLevel := highRatio, criticalRatio, NORMAL;
    }

    /** Re-reads the utilisation; fires says whether the callbacks of the new level are due. */
    method Check(utilization: real) returns (fires: bool)
      modifies this
      ensures currentLevel == Classify(utilization, highRatio, criticalRatio)
      ensures fires == (currentLevel != old(currentLevel))
      ensures currentLevel == CRITICAL <==> criticalRatio <= utilization
      ensures currentLevel == HIGH <==> highRatio <= utilization < criticalRatio
    {
      var newLevel;
      if utilization >= criticalRatio {
        newLevel := CRITICAL;
      } else if utilization >= highRatio {
        newLevel := HIGH;
      } else {
        newLevel := NORMAL;
      }
      fires := newLevel != currentLevel;
      if fires {
        currentLevel := newLevel;
      }
    }
  }

  /** The handler's own state. */
  datatype Pressure = Pressure(level: Level, rejecting: bool, escalation: nat)

  /** The handler after one observed level. */
  function Observe(s: Pressure, level: Level, hasCache: bool): Pressure {
    if level == s.level then s else
      match level
      case NORMAL => Pressure(NORMAL, false, 0)
      case HIGH => Pressure(HIGH, s.rejecting, s.escalation + if hasCache then 1 else 0)
      case CRITICAL => Pressure(CRITICAL, true, s.escalation)
  }

  function Ratio(escalation: nat): (r: real)
    ensures 0.0 < r <= 0.5
  {
    if escalation == 0 then 0.10 else if escalation == 1 then 0.25 else 0.50
  }

  /** The escalated share of the cached bytes, rounded down. */
  function Share(bytes: int, escalation: nat): int {
    (bytes as real * Ratio(escalation)).Floor
  }

  /** The cache after one observed level. */
  function CacheAfter<K, V>(s: Pressure, level: Level, c: Cache<K, V>): Cache<K, V> {
    if level == s.level then c else
      match level
      case NORMAL => c
      case HIGH => EvictSpec(c, Share(c.memory, s.escalation))
      case CRITICAL => ClearSpec(c)
  }

  class MemoryPressureHandler<K(==), V> {
    const monitor: WatermarkMonitor
    const kvCache: KVCacheManager?<K, V>
    var rejecting: bool
    var escalationStep: nat

    function View(): Pressure
      reads this, monitor
    {
      Pressure(monitor.currentLevel, rejecting, escalationStep)
    }

    constructor (monitor: WatermarkMonitor, kvCache: KVCacheManager?<K, V>)
      ensures this.monitor == monitor && this.kvCache == kvCache && !rejecting && escalationStep == 0
    {
      this.monitor, this.kvCache, rejecting, escalationStep := monitor, kvCache, false, 0;
    }

    /** Re-checks the watermark, runs the callback of a newly entered level, and reports admission. */
    method ShouldAdmit(utilization: real) returns (admit: bool)
      requires kvCache != null ==> kvCache.Valid()
      modifies this, monitor, kvCache
      ensures View() ==
        Observe(old(View()), Classify(utilization, monitor.highRatio, monitor.criticalRatio), kvCache != null)
      ensures kvCache != null ==> kvCache.Valid()
      ensures kvCache != null ==>
        kvCache.View() ==
        CacheAfter(old(View()), Classify(utilization, monitor.highRatio, monitor.criticalRatio), old(kvCache.View()))
      ensures admit == !rejecting
    {
      var fires := monitor.Check(utilization);
      if fires {
        match monitor.currentLevel {
          case HIGH => OnHigh();
          case CRITICAL => OnCritical();
          case NORMAL => OnNormal();
        }
      }
      admit := !rejecting;
    }

    method OnHigh()
      requires kvCache != null ==> kvCache.Valid()
      modifies this, kvCache
      ensures rejecting == old(rejecting) && escalationStep == old(escalationStep) + if kvCache != null then 1 else 0
      ensures kvCache != null ==> kvCache.Valid()
      ensures kvCache != null ==>
        kvCache.View() ==
        EvictSpec(old(kvCache.View()), Share(old(kvCache.currentMemoryBytes), old(escalationStep)))
    {
      if kvCache == null {
        return;
      }
      var ratios := [0.10, 0.25, 0.50];
      var ratio := ratios[if escalationStep < |ratios| - 1 then escalationStep else |ratios| - 1];
      assert ratio == Ratio(escalationStep);
      var evictBytes := (kvCache.currentMemoryBytes as real * ratio).Floor;
      assert evictBytes == Share(kvCache.currentMemoryBytes, escalationStep);
      if evictBytes > 0 {
        kvCache.EvictLru(evictBytes);
      }
      escalationStep := escalationStep + 1;
    }

    method OnCritical()
      requires kvCache != null ==> kvCache.Valid()
      modifies this, kvCache
      ensures rejecting && escalationStep == old(escalationStep)
      ensures kvCache != null ==> kvCache.Valid() && kvCache.View() == ClearSpec(old(kvCache.View()))
    {
      rejecting := true;
      if kvCache != null {
        kvCache.Clear();
      }
    }

    method OnNormal()
      modifies this
      ensures !rejecting && escalationStep == 0
    {
      rejecting, escalationStep := false, 0;
    }
  }

  lemma EvictFrees<K, V>(b: Budget, c: Cache<K, V>, needed: int)
    requires Sound(b, c) && needed <= c.memory
    ensures Sound(b, EvictSpec(c, needed)) && EvictSpec(c, needed).memory <= c.memory - needed
  {
    ShedFreesEnough(c.entries, needed);
    EvictSound(b, c, needed);
  }

  lemma ShareIsPart(bytes: nat, escalation: nat)
    ensures 0 <= Share(bytes, escalation) <= bytes
  {
    assert bytes as real * Ratio(escalation) <= bytes as real;
  }

  /** The part of the cache that goes: a tenth on the first entry since NORMAL, then a quarter, then a half. */
  function Divisor(entry: nat): (d: nat)
    ensures d > 0
  {
    match entry case 0 => 10 case 1 => 4 case _ => 2
  }

  lemma ShareIsQuotient(bytes: nat, escalation: nat)
    ensures Share(bytes, escalation) == bytes / Divisor(escalation)
  {
    var d, s := Divisor(escalation), Share(bytes, escalation);
    assert d * s <= bytes < d * s + d;
  }

  /** What the other levels do to the cache: entering CRITICAL leaves nothing to find, NORMAL changes nothing. */
  lemma OtherEntries<K, V>(s: Pressure, c: Cache<K, V>, k: K)
    ensures s.level != CRITICAL ==>
      CacheAfter(s, CRITICAL, c).memory == 0 && GetSpec(CacheAfter(s, CRITICAL, c), k).1 == Options.None
    ensures CacheAfter(s, NORMAL, c) == c && CacheAfter(s, s.level, c) == c
  {
    ClearForgets(c, k);
  }

  /** Entering HIGH frees at least the escalated share of the cached bytes. */
  lemma HighEntryFrees<K, V>(b: Budget, s: Pressure, c: Cache<K, V>, needed: int)
    requires Sound(b, c) && s.level != HIGH && needed == Share(c.memory, s.escalation)
    ensures Sound(b, CacheAfter(s, HIGH, c)) && CacheAfter(s, HIGH, c).memory <= c.memory - needed
  {
    ShareIsPart(c.memory, s.escalation);
    EvictFrees(b, c, needed);
  }

  // ---------------------------------------------------------------- runs

  function After(levels: seq<Level>, hasCache: bool): Pressure {
    if levels == [] then Pressure(NORMAL, false, 0)
    else Observe(After(levels[..|levels| - 1], hasCache), levels[|levels| - 1], hasCache)
  }

  /** Some CRITICAL observation with no NORMAL one after it. */
  ghost predicate CriticalSinceNormal(levels: seq<Level>) {
    exists i | 0 <= i < |levels| :: levels[i] == CRITICAL && forall j | i < j < |levels| :: levels[j] != NORMAL
  }

  /** Observations of HIGH right after another level, since the last NORMAL. */
  function HighEntries(levels: seq<Level>): nat {
    if levels == [] || levels[|levels| - 1] == NORMAL then 0 else
      var front := levels[..|levels| - 1];
      HighEntries(front) +
      if levels[|levels| - 1] == HIGH && (front == [] || front[|front| - 1] != HIGH) then 1 else 0
  }

  lemma CriticalStep(levels: seq<Level>, level: Level)
    ensures CriticalSinceNormal(levels + [level]) <==>
      level == CRITICAL || (level == HIGH && CriticalSinceNormal(levels))
  {
    var all := levels + [level];
    if level == CRITICAL { assert all[|levels|] == CRITICAL; }
    if level == HIGH && CriticalSinceNormal(levels) {
      var i :| 0 <= i < |levels| && levels[i] == CRITICAL && forall j | i < j < |levels| :: levels[j] != NORMAL;
      assert all[i] == CRITICAL;
    }
    if CriticalSinceNormal(all) && level != CRITICAL {
      var i :| 0 <= i < |all| && all[i] == CRITICAL && forall j | i < j < |all| :: all[j] != NORMAL;
      assert i < |levels| && all[|levels|] == level;
      assert levels[i] == CRITICAL && forall j | i < j < |levels| :: levels[j] == all[j];
    }
  }

  lemma {:induction false} LevelOverRuns(levels: seq<Level>, hasCache: bool)
    ensures var s := After(levels, hasCache);
      && s.level == (if levels == [] then NORMAL else levels[|levels| - 1])
      && (s.level == CRITICAL ==> s.rejecting) && (s.level == NORMAL ==> !s.rejecting && s.escalation == 0)
  {
    if levels != [] { LevelOverRuns(levels[..|levels| - 1], hasCache); }
  }

  /**
   On every run of observations: requests are rejected exactly when CRITICAL was seen and NORMAL has not been seen
   since, so HIGH does not lift the latch, and the escalation step counts the entries into HIGH since the last NORMAL.
   */
  lemma {:induction false} PressureOverRuns(levels: seq<Level>, hasCache: bool)
    ensures var s := After(levels, hasCache);
      && (s.rejecting <==> CriticalSinceNormal(levels))
      && s.escalation == if hasCache then HighEntries(levels) else 0
  {
    if levels != [] {
      var front, level := levels[..|levels| - 1], levels[|levels| - 1];
      assert levels == front + [level];
      PressureOverRuns(front, hasCache);
      LevelOverRuns(front, hasCache);
      LevelOverRuns(levels, hasCache);
      CriticalStep(front, level);
    }
  }

  /**
   After any run of observations, an entry into HIGH frees at least a tenth, a quarter or a half of the cached bytes,
   rounded down, by how often HIGH has been entered since the last NORMAL, from the front and with no entry to spare.
   */
  lemma HighEntryOverRuns<K, V>(b: Budget, levels: seq<Level>, c: Cache<K, V>)
    requires Sound(b, c) && (levels == [] || levels[|levels| - 1] != HIGH)
    ensures var after := CacheAfter(After(levels, true), HIGH, c);
      && Sound(b, after) && after.memory <= c.memory - c.memory / Divisor(HighEntries(levels))
      && Suffix(after.entries, c.entries)
      && forall d | 0 <= d < |c.entries| - |after.entries| ::
        c.memory - Bytes(c.entries[d..]) < c.memory / Divisor(HighEntries(levels))
  {
    ShedFreesEnough(c.entries, Share(c.memory, After(levels, true).escalation));
    var s := After(levels, true);
    LevelOverRuns(levels, true);
    PressureOverRuns(levels, true);
    ShareIsQuotient(c.memory, s.escalation);
    HighEntryFrees(b, s, c, Share(c.memory, s.escalation));
  }
}
