/** Daily token counters, held in memory and saved to the store now and then (internal/auth/quota.go). */
module Quota {
  import opened Prelude
  import opened QuotaKeys

  datatype Bucket = Bucket(day: nat, used: nat)

  /** All there is about one bucket on one day: the counter in memory, whether it was preloaded, the stored counter. */
  datatype Cell = Cell(mem: Option<Bucket>, gate: bool, disk: nat)

  function Max(a: nat, b: nat): nat {
    if a < b then b else a
  }

  /** The counter as a call finds it: a missing or older one starts the day at 0. */
  function Current(c: Cell, today: nat): Bucket {
    if c.mem.Some? && c.mem.value.day == today then c.mem.value else Bucket(today, 0)
  }

  predicate Grants(c: Cell, today: nat, tpd: int, n: int) {
    tpd <= 0 || n <= 0 || Current(c, today).used + n <= tpd
  }

  /** A refused charge fills the counter up to the limit. */
  function Charged(c: Cell, today: nat, tpd: int, n: int): Cell {
    if tpd <= 0 || n <= 0 then c else
      var b := Current(c, today);
      c.(mem := Some(Bucket(today, if b.used + n > tpd then Max(b.used, tpd) else b.used + n)))
  }

  function Peeked(c: Cell, today: nat, tpd: int): Cell {
    if tpd <= 0 then c else c.(mem := Some(Current(c, today)))
  }

  /** The first touch of the day adopts the stored counter, if it is read and the bucket in memory is of the day. */
  function Preloaded(c: Cell, today: nat, readable: bool): Cell {
    if c.gate then c
    else if !readable || c.disk == 0 then c.(gate := true)
    else
      var b := if c.mem.Some? then c.mem.value else Bucket(today, 0);
      Cell(Some(if b.day == today then b.(used := Max(b.used, c.disk)) else b), true, c.disk)
  }

  function Flushed(c: Cell, today: nat, writable: bool): Cell {
    if writable && c.mem.Some? && c.mem.value.day == today then c.(disk := c.mem.value.used) else c
  }

  /** Memory gone: a reset after its flush, or a crash. */
  function Cleared(c: Cell): Cell {
    Cell(None, false, c.disk)
  }

  function Swept(c: Cell, today: nat): Cell {
    if c.mem.Some? && c.mem.value.day != today then c.(mem := None) else c
  }

  /** At midnight the new day has neither gate nor stored counter; the bucket in memory stays until it is touched. */
  function NextDay(c: Cell): Cell {
    Cell(c.mem, false, 0)
  }

  class BadgerLimiter {
    var dailyBuckets: map<string, Bucket>
    var initOnce: set<string>
    var store: map<string, nat>

    constructor ()
      ensures dailyBuckets == map[] && initOnce == {} && store == map[]
    {
      dailyBuckets, initOnce, store := map[], {}, map[];
    }

    function At(k: string, today: nat): Cell
      reads this
    {
      Cell(if k in dailyBuckets then Some(dailyBuckets[k]) else None, GateKey(k, today) in initOnce,
           if StoredKey(k, today) in store then store[StoredKey(k, today)] else 0)
    }

    /** What the bucket has used today, as memory has it. */
    function UsedToday(k: string, today: nat): nat
      reads this
    {
      if k in dailyBuckets && dailyBuckets[k].day == today then dailyBuckets[k].used else 0
    }

    /** The first touch of the day finds something stored, and no counter of another day in its way. */
    predicate Adopts(k: string, today: nat, readable: bool)
      reads this
    {
      && GateKey(k, today) !in initOnce && readable
      && StoredKey(k, today) in store && store[StoredKey(k, today)] > 0
      && (k in dailyBuckets ==> dailyBuckets[k].day == today)
    }

    /** Nothing in memory or in the store belongs to a day to come. */
    ghost predicate Valid(today: nat)
      reads this
    {
      && (forall k :: k in dailyBuckets ==> dailyBuckets[k].day <= today)
      && (forall k, d :: d > today ==> GateKey(k, d) !in initOnce && StoredKey(k, d) !in store)
    }

    method EnsurePreloaded(k: string, today: nat, readable: bool)
      requires Valid(today)
      modifies `dailyBuckets, `initOnce
      ensures Valid(today)
      ensures forall j :: At(j, today) ==
                if j == k then Preloaded(old(At(j, today)), today, readable) else old(At(j, today))
      ensures GateKey(k, today) in initOnce
      ensures old(Adopts(k, today, readable)) ==>
                && k in dailyBuckets && dailyBuckets[k].day == today
                && dailyBuckets[k].used >= store[StoredKey(k, today)]
                && dailyBuckets[k].used >= old(UsedToday(k, today))
                && (dailyBuckets[k].used == store[StoredKey(k, today)]
                    || dailyBuckets[k].used == old(UsedToday(k, today)))
      ensures old(!Adopts(k, today, readable)) ==> dailyBuckets == old(dailyBuckets)
    {
      if GateKey(k, today) in initOnce { return; }
      forall j, d | GateKey(j, d) == GateKey(k, today) ensures j == k && d == today {
        GateKeyInjective(j, d, k, today);
      }
      initOnce := initOnce + {GateKey(k, today)};
      var stored := if StoredKey(k, today) in store then store[StoredKey(k, today)] else 0;
      if !readable || stored == 0 { return; }
      if k !in dailyBuckets { dailyBuckets := dailyBuckets[k := Bucket(today, 0)]; }
      if dailyBuckets[k].day == today {
        dailyBuckets := dailyBuckets[k := Bucket(today, Max(dailyBuckets[k].used, stored))];
      }
    }

    method AllowTokens(k: string, today: nat, tpd: int, n: int) returns (allowed: bool, remaining: int)
      requires Valid(today)
      modifies `dailyBuckets
      ensures Valid(today)
      ensures allowed == Grants(old(At(k, today)), today, tpd, n)
      ensures allowed && tpd > 0 && n > 0 ==> remaining == tpd - Current(At(k, today), today).used >= 0
      ensures allowed <==> tpd <= 0 || n <= 0 || old(UsedToday(k, today)) + n <= tpd
      ensures tpd > 0 && n > 0 ==>
                k in dailyBuckets && dailyBuckets[k].day == today
                && dailyBuckets[k].used == if allowed then old(UsedToday(k, today)) + n
                                           else if old(UsedToday(k, today)) < tpd then tpd else old(UsedToday(k, today))
      ensures tpd <= 0 || n <= 0 ==> dailyBuckets == old(dailyBuckets)
      ensures forall j :: At(j, today) ==
                if j == k then Charged(old(At(j, today)), today, tpd, n) else old(At(j, today))
    {
      if tpd <= 0 || n <= 0 { return true, -1; }
      if k !in dailyBuckets { dailyBuckets := dailyBuckets[k := Bucket(today, 0)]; }
      if dailyBuckets[k].day != today { dailyBuckets := dailyBuckets[k := Bucket(today, 0)]; }
      var b := dailyBuckets[k];
      if b.used + n > tpd {
        if b.used < tpd { dailyBuckets := dailyBuckets[k := b.(used := tpd)]; }
        return false, 0;
      }
      dailyBuckets := dailyBuckets[k := b.(used := b.used + n)];
      return true, tpd - (b.used + n);
    }

    method RemainingTokens(k: string, today: nat, tpd: int) returns (remaining: int)
      requires Valid(today)
      modifies `dailyBuckets
      ensures Valid(today)
      ensures tpd > 0 ==> remaining >= 0 && forall n :: n > 0 ==>
                (Grants(At(k, today), today, tpd, n) <==> n <= remaining)
      ensures tpd <= 0 ==> remaining == -1
      ensures tpd > 0 ==> remaining == if old(UsedToday(k, today)) < tpd then tpd - old(UsedToday(k, today)) else 0
      ensures forall j :: At(j, today) == if j == k then Peeked(old(At(j, today)), today, tpd) else old(At(j, today))
    {
      if tpd <= 0 { return -1; }
      if k !in dailyBuckets { dailyBuckets := dailyBuckets[k := Bucket(today, 0)]; }
      if dailyBuckets[k].day != today { dailyBuckets := dailyBuckets[k := Bucket(today, 0)]; }
      var rem := tpd - dailyBuckets[k].used;
      return if rem < 0 then 0 else rem;
    }

    method SaveOne(k: string, today: nat)
      requires Valid(today) && k in dailyBuckets && dailyBuckets[k].day == today
      modifies `store
      ensures Valid(today)
      ensures forall j :: At(j, today) == if j == k then Flushed(old(At(j, today)), today, true) else old(At(j, today))
      ensures store == old(store)[StoredKey(k, today) := dailyBuckets[k].used]
      ensures forall j, d: nat :: StoredKey(j, d) == StoredKey(k, today) ==> j == k && d == today
    {
      forall j, d | StoredKey(j, d) == StoredKey(k, today) ensures j == k && d == today {
        assert StoredKey(j, d)[9..] == GateKey(j, d) && StoredKey(k, today)[9..] == GateKey(k, today);
        GateKeyInjective(j, d, k, today);
      }
      store := store[StoredKey(k, today) := dailyBuckets[k].used];
    }

    /** Saves the day's counters in any order; a write may fail on its own. */
    method Flush(today: nat, failing: set<string>)
      requires Valid(today)
      modifies `store
      ensures Valid(today)
      ensures forall k :: At(k, today) == Flushed(old(At(k, today)), today, k !in failing)
      ensures forall k :: k in dailyBuckets && dailyBuckets[k].day == today && k !in failing ==>
                StoredKey(k, today) in store && store[StoredKey(k, today)] == dailyBuckets[k].used
    {
      var left := dailyBuckets.Keys;
      while left != {}
        invariant Valid(today) && left <= dailyBuckets.Keys
        invariant forall k :: At(k, today) ==
                    if k in left then old(At(k, today)) else Flushed(old(At(k, today)), today, k !in failing)
        invariant forall k :: k in dailyBuckets && k !in left && dailyBuckets[k].day == today && k !in failing ==>
                    StoredKey(k, today) in store && store[StoredKey(k, today)] == dailyBuckets[k].used
        decreases left
      {
        var k :| k in left;
        if dailyBuckets[k].day == today && k !in failing { SaveOne(k, today); }
        left := left - {k};
      }
    }

    /** Flush, then forget everything in memory so that the next call preloads again. */
    method Reset(today: nat, failing: set<string>)
      requires Valid(today)
      modifies this
      ensures Valid(today)
      ensures forall k :: At(k, today) == Cleared(Flushed(old(At(k, today)), today, k !in failing))
      ensures dailyBuckets == map[] && initOnce == {}
      ensures forall k :: k in old(dailyBuckets) && old(dailyBuckets)[k].day == today && k !in failing ==>
                StoredKey(k, today) in store && store[StoredKey(k, today)] == old(dailyBuckets)[k].used
    {
      Flush(today, failing);
      dailyBuckets := map[];
      initOnce := {};
    }

    /** Drops the counters and gates of other days and nothing of today. */
    method SweepIdle(today: nat)
      requires Valid(today)
      modifies `dailyBuckets, `initOnce
      ensures Valid(today)
      ensures forall k :: At(k, today) == Swept(old(At(k, today)), today)
      ensures forall k, d :: GateKey(k, d) in initOnce <==> d == today && GateKey(k, d) in old(initOnce)
    {
      SweepBuckets(today);
      SweepGates(today);
    }

    method SweepGates(today: nat)
      modifies `initOnce
      ensures initOnce <= old(initOnce)
      ensures forall k, d :: GateKey(k, d) in initOnce <==> d == today && GateKey(k, d) in old(initOnce)
    {
      var suffix := ":" + Decimal(today);
      var left := initOnce;
      while left != {}
        invariant left <= initOnce <= old(initOnce)
        invariant forall g :: g in old(initOnce) && HasSuffix(g, suffix) ==> g in initOnce
        invariant forall g :: g in initOnce && g !in left ==> HasSuffix(g, suffix)
        decreases left
      {
        var g :| g in left;
        if !HasSuffix(g, suffix) { initOnce := initOnce - {g}; }
        left := left - {g};
      }
      forall k, d ensures GateKey(k, d) in initOnce <==> d == today && GateKey(k, d) in old(initOnce) {
        SuffixPicksTheDay(k, d, today);
      }
    }

    method SweepBuckets(today: nat)
      modifies `dailyBuckets
      ensures dailyBuckets.Keys <= old(dailyBuckets.Keys)
      ensures forall k :: k in dailyBuckets ==> dailyBuckets[k] == old(dailyBuckets)[k]
      ensures forall k :: k in old(dailyBuckets) ==> (k in dailyBuckets <==> old(dailyBuckets)[k].day == today)
    {
      var left := dailyBuckets.Keys;
      while left != {}
        invariant left <= dailyBuckets.Keys <= old(dailyBuckets.Keys)
        invariant forall k :: k in dailyBuckets ==> dailyBuckets[k] == old(dailyBuckets)[k]
        invariant forall k :: k in old(dailyBuckets) && k !in left ==>
                    (k in dailyBuckets <==> old(dailyBuckets)[k].day == today)
        decreases left
      {
        var k :| k in left;
        if dailyBuckets[k].day != today { dailyBuckets := dailyBuckets - {k}; }
        left := left - {k};
      }
    }
  }

  /** When the day turns, every bucket starts from its next-day cell. */
  lemma Midnight(l: BadgerLimiter, today: nat, k: string)
    requires l.Valid(today)
    ensures l.Valid(today + 1) && l.At(k, today + 1) == NextDay(l.At(k, today))
  {
  }
}
