/**
 * One bucket of the persistent limiter under every interleaving (internal/auth/quota.go).
 *
 * Each event is one atomic action of one goroutine: an access to a concurrent map, a locked section of a counter, an
 * access to the store, or a reading of the clock. Counter objects and once-gates removed from the maps live on for
 * those who hold them. A grant counts for the day on which the counter is locked.
 */
module QuotaSteps {
  import opened Prelude
  import opened Quota

  /** How far the function behind a once-gate is: it reads the store, gets the counter and raises it. */
  datatype Phase = Reading | Fetching(r: nat) | Adopting(r: nat, o: nat) | Done

  datatype Once = Once(day: nat, phase: Phase)

  /** A call: the day it began on, its once-gate, its counter, its second reading of the clock. */
  datatype Pc = Begun | Waiting(g: nat) | Holding(o: nat) | Dated(o: nat, day: nat) | Finished

  /** `n` is the charge; 0 for a call that only looks at what remains. */
  datatype Call = Call(n: nat, day: nat, pc: Pc)

  datatype FlushPc = FlushBegun | FlushPicked(o: nat) | FlushEnded

  datatype Flush = Flush(day: nat, pc: FlushPc)

  datatype ResetPc = NoReset | ResetBegun(day: nat) | ResetPicked(day: nat, o: nat) | Saved | CounterDropped

  datatype SweepPc = NoSweep | SweepBegun(day: nat) | SweepChecked(stale: bool) | SweepSwept | SweepDated(day: nat)

  /**
   * `cur` and `gate` are what the two maps hold for the bucket today, `disk` its stored counter for today; `granted`
   * is what today's calls were granted, `since` what of it since the last save or loss of memory, `lost` what the
   * limiter has stopped counting.
   */
  datatype Sys = Sys(
    today: nat, objs: seq<Bucket>, cur: Option<nat>, onces: seq<Once>, gate: Option<nat>, disk: nat,
    calls: seq<Call>, flushes: seq<Flush>, reset: ResetPc, sweep: SweepPc, granted: nat, since: nat, lost: nat)

  datatype Event =
    | Begin(n: nat)
    | Join(k: nat)
    | Read(g: nat, readable: bool, past: nat)
    | FetchStored(g: nat, day: nat)
    | Adopt(g: nat)
    | Fetch(k: nat, day: nat)
    | Date(k: nat)
    | Spend(k: nat)
    | FlushBegin
    | FlushPick(j: nat)
    | FlushWrite(j: nat, writable: bool)
    | ResetBegin
    | ResetPick
    | ResetWrite(writable: bool)
    | DropCounter
    | DropGate
    | SweepBegin
    | SweepCheck
    | SweepDelete
    | SweepDate
    | SweepGate
    | Midnight
    | Crash

  function Start(today: nat): Sys {
    Sys(today, [], None, [], None, 0, [], [], NoReset, NoSweep, 0, 0, 0)
  }

  predicate Enabled(x: Sys, e: Event) {
    match e
    case Begin(_) => true
    case Join(k) => k < |x.calls| && x.calls[k].pc.Begun?
    case Read(g, _, _) => g < |x.onces| && x.onces[g].phase.Reading?
    case FetchStored(g, day) => g < |x.onces| && x.onces[g].phase.Fetching? && x.onces[g].day <= day <= x.today
    case Adopt(g) => g < |x.onces| && x.onces[g].phase.Adopting? && x.onces[g].phase.o < |x.objs|
    case Fetch(k, day) =>
      && k < |x.calls| && x.calls[k].pc.Waiting? && x.calls[k].day <= day <= x.today
      && x.calls[k].pc.g < |x.onces| && x.onces[x.calls[k].pc.g].phase.Done?
    case Date(k) => k < |x.calls| && x.calls[k].pc.Holding?
    case Spend(k) => k < |x.calls| && x.calls[k].pc.Dated? && x.calls[k].pc.o < |x.objs|
    case FlushBegin => true
    case FlushPick(j) => j < |x.flushes| && x.flushes[j].pc.FlushBegun?
    case FlushWrite(j, _) => j < |x.flushes| && x.flushes[j].pc.FlushPicked? && x.flushes[j].pc.o < |x.objs|
    case ResetBegin => x.reset.NoReset?
    case ResetPick => x.reset.ResetBegun?
    case ResetWrite(_) => x.reset.ResetPicked? && x.reset.o < |x.objs|
    case DropCounter => x.reset.Saved?
    case DropGate => x.reset.CounterDropped?
    case SweepBegin => x.sweep.NoSweep?
    case SweepCheck => x.sweep.SweepBegun? && (x.cur.Some? ==> x.cur.value < |x.objs|)
    case SweepDelete => x.sweep.SweepChecked?
    case SweepDate => x.sweep.SweepSwept?
    case SweepGate => x.sweep.SweepDated?
    case Midnight => true
    case Crash => true
  }

  function SetCall(x: Sys, k: nat, pc: Pc): Sys
    requires k < |x.calls|
  {
    x.(calls := x.calls[k := x.calls[k].(pc := pc)])
  }

  function SetOnce(x: Sys, g: nat, phase: Phase): Sys
    requires g < |x.onces|
  {
    x.(onces := x.onces[g := x.onces[g].(phase := phase)])
  }

  function SetObj(x: Sys, o: nat, b: Bucket): Sys
    requires o < |x.objs|
  {
    x.(objs := x.objs[o := b])
  }

  /** The counter in the map, or a new one dated by the caller's clock. */
  function Found(x: Sys): nat {
    if x.cur.Some? then x.cur.value else |x.objs|
  }

  function Stored(x: Sys, day: nat): Sys {
    if x.cur.Some? then x else x.(objs := x.objs + [Bucket(day, 0)], cur := Some(|x.objs|))
  }

  /** A locked charge: roll the counter over to the caller's day, then grant or fill up to the limit. */
  function UsedOn(b: Bucket, day: nat): nat {
    if b.day == day then b.used else 0
  }

  function Got(b: Bucket, day: nat, tpd: nat, n: nat): nat {
    if UsedOn(b, day) + n <= tpd then n else 0
  }

  function Spent(b: Bucket, day: nat, tpd: nat, n: nat): Bucket {
    Bucket(day, if UsedOn(b, day) + n <= tpd then UsedOn(b, day) + n else Max(UsedOn(b, day), tpd))
  }

  /** What a flush that read the clock as `day` leaves in the store for today. */
  function Written(x: Sys, o: nat, day: nat, writable: bool): nat
    requires o < |x.objs|
  {
    if writable && day == x.today && x.objs[o].day == x.today then x.objs[o].used else x.disk
  }

  // ----- what the limiter counts

  predicate OfToday(x: Sys) {
    x.cur.Some? && x.cur.value < |x.objs| && x.objs[x.cur.value].day == x.today
  }

  function Now(x: Sys): nat {
    if OfToday(x) then x.objs[x.cur.value].used else 0
  }

  /** The value a preload in progress will raise the current counter to. */
  function Pending(x: Sys): nat {
    if x.gate.None? || x.gate.value >= |x.onces| then 0
    else match x.onces[x.gate.value].phase
      case Fetching(r) => if x.cur.None? || OfToday(x) then r else 0
      case Adopting(r, o) => if x.cur == Some(o) && OfToday(x) then r else 0
      case _ => 0
  }

  /** The stored counter will not be looked at again: the gate is used up and no reset is about to drop it. */
  predicate Gated(x: Sys) {
    && x.gate.Some? && x.gate.value < |x.onces| && x.onces[x.gate.value].phase.Done?
    && !x.reset.CounterDropped?
  }

  function Level(x: Sys): nat {
    if Gated(x) then Now(x) else Max(Now(x), Max(x.disk, Pending(x)))
  }

  function Over(a: nat, b: nat): nat {
    if a > b then a - b else 0
  }

  /** Today's grants that neither the store nor `lost` accounts for. */
  function Unsaved(x: Sys): nat {
    Over(x.granted, x.lost + x.disk)
  }

  /** The events of calls and their preloads. */
  predicate OfACall(e: Event) {
    e.Begin? || e.Join? || e.Read? || e.FetchStored? || e.Adopt? || e.Fetch? || e.Date? || e.Spend?
  }

  /** The events of flushes and resets. */
  predicate OfASave(e: Event) {
    || e.FlushBegin? || e.FlushPick? || e.FlushWrite?
    || e.ResetBegin? || e.ResetPick? || e.ResetWrite? || e.DropCounter? || e.DropGate?
  }

  /** What an event makes the limiter stop counting at most, by the guards that let it. */
  function Cost(tpd: nat, x: Sys, e: Event): nat
    requires Enabled(x, e)
  {
    match e
    case Read(g, readable, _) => if x.gate == Some(g) && !readable then Over(x.disk, Now(x)) else 0
    case FetchStored(_, day) => if x.cur.None? && day < x.today then Pending(x) else 0
    case Fetch(_, day) => if x.cur.None? && day < x.today then Pending(x) else 0
    case Adopt(g) =>
      var Adopting(r, o) := x.onces[g].phase;
      var hits := x.cur == Some(o) && x.objs[o].day == x.onces[g].day;
      if x.gate == Some(g) then Over(x.disk, if hits then Max(Now(x), r) else Now(x)) else 0
    case Spend(k) =>
      var Dated(o, day) := x.calls[k].pc;
      var got := Got(x.objs[o], day, tpd, x.calls[k].n);
      if x.cur != Some(o) then got
      else if day != x.today then got + (if OfToday(x) then Level(x) else 0)
      else if Gated(x) || Now(x) >= Max(x.disk, Pending(x)) then 0
      else got
    case FlushWrite(j, writable) =>
      var o := x.flushes[j].pc.o;
      Overwritten(x, o, x.flushes[j].day, writable)
    case ResetWrite(writable) => Overwritten(x, x.reset.o, x.reset.day, writable)
    case DropCounter => Unsaved(x)
    case DropGate => Over(Pending(x), Max(Now(x), x.disk))
    case SweepDelete =>
      if x.sweep.stale && OfToday(x) then Over(x.granted, x.lost + if Gated(x) then 0 else x.disk) else 0
    case SweepGate => if x.sweep.day != x.today then Over(Pending(x), Max(Now(x), x.disk)) else 0
    case Crash => Unsaved(x)
    case _ => 0
  }

  /** A write of a smaller counter over the stored one, where the stored one still counts. */
  function Overwritten(x: Sys, o: nat, day: nat, writable: bool): nat
    requires o < |x.objs|
  {
    if Gated(x) then 0 else Over(x.disk, Max(Written(x, o, day, writable), Max(Now(x), Pending(x))))
  }

  // ----- the steps

  function Next(tpd: nat, x: Sys, e: Event): Sys
    requires Enabled(x, e)
  {
    match e
    case Begin(n) => x.(calls := x.calls + [Call(n, x.today, Begun)])
    case Join(k) =>
      if x.calls[k].day == x.today && x.gate.Some? then SetCall(x, k, Waiting(x.gate.value))
      else
        SetCall(x, k, Waiting(|x.onces|)).(
          onces := x.onces + [Once(x.calls[k].day, Reading)],
          gate := if x.calls[k].day == x.today then Some(|x.onces|) else x.gate)
    case Read(g, readable, past) =>
      var r := if !readable then 0 else if x.onces[g].day == x.today then x.disk else past;
      SetOnce(x, g, if r == 0 then Done else Fetching(r))
    case FetchStored(g, day) => SetOnce(Stored(x, day), g, Adopting(x.onces[g].phase.r, Found(x)))
    case Adopt(g) =>
      var Adopting(r, o) := x.onces[g].phase;
      var b := x.objs[o];
      SetOnce(SetObj(x, o, if b.day == x.onces[g].day then b.(used := Max(b.used, r)) else b), g, Done)
    case Fetch(k, day) => SetCall(Stored(x, day), k, Holding(Found(x)))
    case Date(k) => SetCall(x, k, Dated(x.calls[k].pc.o, x.today))
    case Spend(k) =>
      var Dated(o, day) := x.calls[k].pc;
      var n := x.calls[k].n;
      SetCall(SetObj(x, o, Spent(x.objs[o], day, tpd, n)), k, Finished).(
        granted := x.granted + Got(x.objs[o], day, tpd, n))
    case FlushBegin => x.(flushes := x.flushes + [Flush(x.today, FlushBegun)])
    case FlushPick(j) =>
      x.(flushes := x.flushes[j := x.flushes[j].(pc := if x.cur.Some? then FlushPicked(x.cur.value) else FlushEnded)])
    case FlushWrite(j, writable) =>
      x.(flushes := x.flushes[j := x.flushes[j].(pc := FlushEnded)],
         disk := Written(x, x.flushes[j].pc.o, x.flushes[j].day, writable))
    case ResetBegin => x.(reset := ResetBegun(x.today))
    case ResetPick => x.(reset := if x.cur.Some? then ResetPicked(x.reset.day, x.cur.value) else Saved)
    case ResetWrite(writable) => x.(reset := Saved, disk := Written(x, x.reset.o, x.reset.day, writable))
    case DropCounter => x.(reset := CounterDropped, cur := None)
    case DropGate => x.(reset := NoReset, gate := None)
    case SweepBegin => x.(sweep := SweepBegun(x.today))
    case SweepCheck => x.(sweep := SweepChecked(x.cur.Some? && x.objs[x.cur.value].day != x.sweep.day))
    case SweepDelete => x.(sweep := SweepSwept, cur := if x.sweep.stale then None else x.cur)
    case SweepDate => x.(sweep := SweepDated(x.today))
    case SweepGate => x.(sweep := NoSweep, gate := if x.sweep.day != x.today then None else x.gate)
    case Midnight => x.(today := x.today + 1, gate := None, disk := 0, granted := 0, lost := 0)
    case Crash =>
      x.(cur := None, gate := None, onces := [], objs := [], calls := [], flushes := [],
         reset := NoReset, sweep := NoSweep)
  }

  /** A write that puts a counter of today into the store. */
  predicate Saves(x: Sys, e: Event)
    requires Enabled(x, e)
  {
    match e
    case FlushWrite(j, writable) => writable && x.flushes[j].day == x.today && x.objs[x.flushes[j].pc.o].day == x.today
    case ResetWrite(writable) => writable && x.reset.day == x.today && x.objs[x.reset.o].day == x.today
    case _ => false
  }

  function SinceAfter(tpd: nat, x: Sys, e: Event): nat
    requires Enabled(x, e)
  {
    match e
    case Spend(k) => x.since + Got(x.objs[x.calls[k].pc.o], x.calls[k].pc.day, tpd, x.calls[k].n)
    case Midnight => 0
    case Crash => 0
    case _ => if Saves(x, e) then 0 else x.since
  }

  function Step(tpd: nat, x: Sys, e: Event): Sys
    requires Enabled(x, e)
  {
    var y := Next(tpd, x, e).(since := SinceAfter(tpd, x, e));
    if e.Midnight? then y else y.(lost := x.lost + Cost(tpd, x, e))
  }

  // ----- runs

  /** The events can happen one after the other. */
  predicate Possible(tpd: nat, x: Sys, es: seq<Event>)
    decreases |es|
  {
    es == [] || (Enabled(x, es[0]) && Possible(tpd, Step(tpd, x, es[0]), es[1..]))
  }

  function Run(tpd: nat, x: Sys, es: seq<Event>): Sys
    requires Possible(tpd, x, es)
    decreases |es|
  {
    if es == [] then x else Run(tpd, Step(tpd, x, es[0]), es[1..])
  }
}
