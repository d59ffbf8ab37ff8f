/**
 * The single steps that break the daily limit, each at the branch that fails, and the invariant of the runs without
 * them: the limiter loses nothing but what a crash finds unsaved.
 */
module QuotaQuiet {
  import opened Prelude
  import opened Quota
  import opened QuotaSteps
  import opened QuotaBound

  /**
   * SaveFails:         a reset's write fails and leaves the store behind the counter or behind a preload
   * SaveMisses:        it succeeds and leaves the store behind all the same: another day, another counter, no raise yet
   * SaveUndone:        after the save and before the drop, a flush lowers the store
   * ChargesAfterSave:  after the save and before the drop, a call is granted something
   * DropMeetsCall:     the counter is dropped while a call is past its gate or still of yesterday, or a preload runs
   * DropMeetsFlush:    the counter is dropped while a flush of today has picked it and not yet written it
   * JoinsBetweenDrops: a call passes its gate between the drop of the counter and the drop of the gate
   * SweepsToday:       the janitor deletes a counter of today
   * SweepsHeld:        the janitor deletes a counter of another day that a call holds
   * SweepsGate:        the janitor deletes a gate of today whose preload is in progress
   * FlushInPreload:    outside that part of a reset, a flush writes a counter that a preload has not yet raised
   * ReadFails:         a preload cannot read a stored counter that is ahead of the one in memory
   * LateCharge:        a call that dated itself before midnight rolls today's counter back or is granted something
   * CrashUnsaved:      a crash, with the counter or a preload ahead of the store
   */
  datatype Fault =
    | SaveFails | SaveMisses | SaveUndone | ChargesAfterSave | DropMeetsCall | DropMeetsFlush | JoinsBetweenDrops
    | SweepsToday | SweepsHeld | SweepsGate | FlushInPreload | ReadFails | LateCharge | CrashUnsaved

  // ----- the branches that fail

  /** What a preload of today has read and not yet raised the counter to. */
  function Carried(o: Once, today: nat): nat {
    if o.day != today then 0
    else match o.phase
      case Fetching(r) => r
      case Adopting(r, _) => r
      case _ => 0
  }

  predicate Ahead(x: Sys, n: nat) {
    exists g :: 0 <= g < |x.onces| && Carried(x.onces[g], x.today) > n
  }

  /** A store that holds `n` is behind the counter or behind a preload. */
  predicate Behind(x: Sys, n: nat) {
    n < Now(x) || Ahead(x, n)
  }

  predicate Unjoined(x: Sys, c: Call) {
    c.pc.Finished? || (c.pc.Begun? && c.day == x.today)
  }

  predicate NoPreload(x: Sys) {
    forall g :: 0 <= g < |x.onces| ==> x.onces[g].phase.Done?
  }

  predicate CallsOut(x: Sys) {
    NoPreload(x) && forall k :: 0 <= k < |x.calls| ==> Unjoined(x, x.calls[k])
  }

  predicate InFlush(x: Sys) {
    exists j :: 0 <= j < |x.flushes| && x.flushes[j].day == x.today && x.flushes[j].pc.FlushPicked?
                && x.cur == Some(x.flushes[j].pc.o)
  }

  predicate Held(x: Sys) {
    exists k :: 0 <= k < |x.calls| && (x.calls[k].pc.Holding? || x.calls[k].pc.Dated?)
                && x.cur == Some(x.calls[k].pc.o)
  }

  /** A flush writes the counter in use over a larger stored one, or short of a preload. */
  predicate Lowers(x: Sys, o: nat, day: nat, writable: bool)
    requires o < |x.objs|
  {
    var n := Written(x, o, day, writable);
    x.cur == Some(o) && writable && day == x.today && OfToday(x) && (n < x.disk || Ahead(x, n))
  }

  predicate SpendAllowed(f: set<Fault>, x: Sys, day: nat, got: nat) {
    && (x.reset.Saved? && got > 0 ==> ChargesAfterSave in f)
    && (day != x.today && (OfToday(x) || got > 0) ==> LateCharge in f)
  }

  predicate SaveAllowed(f: set<Fault>, x: Sys, o: nat, day: nat, writable: bool)
    requires o < |x.objs|
  {
    var n := Written(x, o, day, writable);
    n < x.disk || Behind(x, n) ==> (if writable then SaveMisses else SaveFails) in f
  }

  predicate DropAllowed(f: set<Fault>, x: Sys) {
    && (!CallsOut(x) ==> DropMeetsCall in f)
    && (InFlush(x) ==> DropMeetsFlush in f)
  }

  /** The step is possible, and fails in no way that is not in `f`. */
  predicate Allowed(f: set<Fault>, tpd: nat, x: Sys, e: Event) {
    && Enabled(x, e)
    && match e
       case Join(_) => x.reset.CounterDropped? ==> JoinsBetweenDrops in f
       case Read(g, readable, _) => !readable && x.onces[g].day == x.today && x.disk > Now(x) ==> ReadFails in f
       case Spend(k) =>
         var Dated(o, day) := x.calls[k].pc;
         SpendAllowed(f, x, day, Got(x.objs[o], day, tpd, x.calls[k].n))
       case FlushWrite(j, writable) =>
         Lowers(x, x.flushes[j].pc.o, x.flushes[j].day, writable) ==>
           (if x.reset.Saved? then SaveUndone else FlushInPreload) in f
       case ResetWrite(writable) => SaveAllowed(f, x, x.reset.o, x.reset.day, writable)
       case DropCounter => DropAllowed(f, x)
       case SweepDelete =>
         x.sweep.stale ==> (OfToday(x) ==> SweepsToday in f) && (!OfToday(x) && Held(x) ==> SweepsHeld in f)
       case SweepGate =>
         x.sweep.day != x.today && x.gate.Some? && x.gate.value < |x.onces| && !x.onces[x.gate.value].phase.Done? ==>
           SweepsGate in f
       case Crash => Behind(x, x.disk) ==> CrashUnsaved in f
       case _ => true
  }

  /** A run whose events are allowed. */
  predicate Fair(f: set<Fault>, tpd: nat, x: Sys, es: seq<Event>)
    decreases |es|
  {
    es == [] || (Allowed(f, tpd, x, es[0]) && Fair(f, tpd, Step(tpd, x, es[0]), es[1..]))
  }

  lemma {:induction false} FairIsPossible(f: set<Fault>, tpd: nat, x: Sys, es: seq<Event>)
    requires Fair(f, tpd, x, es)
    ensures Possible(tpd, x, es)
    decreases |es|
  {
    if es != [] { FairIsPossible(f, tpd, Step(tpd, x, es[0]), es[1..]); }
  }

  /**
   * Of the faults besides crashes only two are harmless, and not both together: the janitor deletes a gate under its
   * preload, or a flush writes a counter under its preload.
   */
  predicate OnlyCrashes(f: set<Fault>) {
    && SaveFails !in f && SaveMisses !in f && SaveUndone !in f && ChargesAfterSave !in f && DropMeetsCall !in f
    && DropMeetsFlush !in f && JoinsBetweenDrops !in f && SweepsToday !in f && SweepsHeld !in f && ReadFails !in f
    && LateCharge !in f && !(SweepsGate in f && FlushInPreload in f)
  }

  predicate Harmless(f: set<Fault>) {
    OnlyCrashes(f) && CrashUnsaved !in f
  }

  // ----- the invariant

  /** A call past its preload holds the current counter. */
  predicate GoodCall(x: Sys, c: Call) {
    match c.pc
    case Waiting(g) => g < |x.onces| && x.onces[g].day == c.day
    case Holding(o) => x.cur == Some(o)
    case Dated(o, _) => x.cur == Some(o)
    case _ => true
  }

  predicate GoodPreload(x: Sys, g: nat)
    requires g < |x.onces|
  {
    x.onces[g].day == x.today ==>
      match x.onces[g].phase
      case Fetching(r) => r > 0
      case Adopting(r, o) => r > 0 && x.cur == Some(o)
      case _ => true
  }

  /** What a flush or a reset has picked is in use, unless it or its counter is of an earlier day. */
  predicate GoodPick(x: Sys, o: nat, day: nat) {
    o < |x.objs| && (day < x.today || x.cur == Some(o) || x.objs[o].day < x.today)
  }

  predicate GoodFlush(x: Sys, fl: Flush) {
    fl.day <= x.today && (fl.pc.FlushPicked? ==> GoodPick(x, fl.pc.o, fl.day))
  }

  ghost predicate GoodParts(x: Sys) {
    && (forall k :: 0 <= k < |x.calls| ==> GoodCall(x, x.calls[k]))
    && (forall g :: 0 <= g < |x.onces| ==> GoodPreload(x, g))
    && (forall j :: 0 <= j < |x.flushes| ==> GoodFlush(x, x.flushes[j]))
  }

  predicate AtMostBegun(c: Call) {
    c.pc.Finished? || c.pc.Begun?
  }

  ghost predicate GoodReset(x: Sys) {
    && (x.reset.ResetPicked? ==> GoodPick(x, x.reset.o, x.reset.day))
    && (x.reset.Saved? ==> x.granted <= x.disk + x.lost)
    && (x.reset.CounterDropped? ==>
          x.cur.None? && NoPreload(x) && forall k :: 0 <= k < |x.calls| ==> AtMostBegun(x.calls[k]))
  }

  /** The counter in memory is not behind the store nor behind a preload. */
  predicate Covered(x: Sys) {
    Now(x) >= x.disk && !Ahead(x, Now(x))
  }

  /** The call has not passed its gate. */
  predicate Outside(x: Sys, c: Call) {
    || c.pc.Finished?
    || (c.day == x.today
        && (c.pc.Begun? || (c.pc.Waiting? && c.pc.g < |x.onces| && !x.onces[c.pc.g].phase.Done?)))
  }

  /** A preload of today carries what the store held. */
  predicate Restoring(x: Sys, o: Once) {
    || o.phase.Done?
    || (o.day == x.today && (o.phase.Reading? || Carried(o, x.today) >= x.disk))
  }

  /** Memory was lost: until a preload of today is through, nobody gets as far as the counter. */
  ghost predicate Recovering(x: Sys) {
    && (forall k :: 0 <= k < |x.calls| ==> Outside(x, x.calls[k]))
    && (forall g :: 0 <= g < |x.onces| ==> Restoring(x, x.onces[g]))
    && (x.gate.Some? && !x.reset.CounterDropped? ==>
          x.gate.value < |x.onces| && !x.onces[x.gate.value].phase.Done?)
    && (x.cur.Some? ==> OfToday(x)) && Now(x) == 0
  }

  /** The preload in progress is the one behind the gate ... */
  ghost predicate OnePreload(x: Sys) {
    forall g :: 0 <= g < |x.onces| && x.onces[g].day == x.today && !x.onces[g].phase.Done? ==> x.gate == Some(g)
  }

  /** ... and it is about to raise a counter that is not covered. */
  ghost predicate GateAdopts(x: Sys) {
    x.cur.Some? && !Covered(x) ==>
      x.gate.Some? && x.gate.value < |x.onces| && x.onces[x.gate.value].phase.Adopting?
  }

  /** What preloads carry is in the store as well, where no flush may have overwritten it. */
  predicate Backed(f: set<Fault>, x: Sys) {
    FlushInPreload !in f || x.cur.None? ==> !Ahead(x, x.disk)
  }

  ghost predicate Quiet(f: set<Fault>, x: Sys) {
    && GoodParts(x) && GoodReset(x) && (Covered(x) || Recovering(x)) && Backed(f, x)
    && (SweepsGate !in f ==> OnePreload(x) && GateAdopts(x))
  }

  /** The state before a step of a run with no faults but crashes. */
  ghost predicate Steady(f: set<Fault>, tpd: nat, x: Sys) {
    OnlyCrashes(f) && Inv(tpd, x) && Quiet(f, x)
  }

  // ----- nothing is lost

  lemma PendingIsCarried(x: Sys, n: nat)
    requires Shaped(x) && !Ahead(x, n)
    ensures Pending(x) <= n
  {
    if x.gate.Some? { assert Carried(x.onces[x.gate.value], x.today) <= n; }
  }

  /** What the step's own call, preload or flush was known to satisfy. */
  lemma OwnPartIsGood(x: Sys, e: Event)
    requires GoodParts(x) && Enabled(x, e)
    ensures e.Join? || e.Fetch? || e.Date? || e.Spend? ==> GoodCall(x, x.calls[e.k])
    ensures e.Read? || e.FetchStored? || e.Adopt? ==> GoodPreload(x, e.g)
    ensures e.FlushPick? || e.FlushWrite? ==> GoodFlush(x, x.flushes[e.j])
  {
  }

  /** While memory is being recovered no call is past its gate, and every preload is of today. */
  lemma RecoveringBars(x: Sys, e: Event)
    requires Recovering(x) && Enabled(x, e)
    ensures !e.Fetch? && !e.Date? && !e.Spend?
    ensures e.Join? ==> x.calls[e.k].day == x.today
    ensures e.Read? || e.FetchStored? || e.Adopt? ==> x.onces[e.g].day == x.today && Restoring(x, x.onces[e.g])
  {
    if e.Join? || e.Fetch? || e.Date? || e.Spend? { assert Outside(x, x.calls[e.k]); }
  }

  lemma CallCostsNothing(f: set<Fault>, tpd: nat, x: Sys, e: Event)
    requires Steady(f, tpd, x) && Allowed(f, tpd, x, e) && OfACall(e)
    ensures Cost(tpd, x, e) == 0
  {
    OwnPartIsGood(x, e);
    if Covered(x) { PendingIsCarried(x, Now(x)); } else { RecoveringBars(x, e); }
  }

  lemma FlushCostsNothing(f: set<Fault>, tpd: nat, x: Sys, e: Event)
    requires Steady(f, tpd, x) && Allowed(f, tpd, x, e) && e.FlushWrite?
    ensures Cost(tpd, x, e) == 0
  {
    OwnPartIsGood(x, e);
    if !Covered(x) && x.gate.Some? {
      assert Restoring(x, x.onces[x.gate.value]) && GoodPreload(x, x.gate.value);
    }
  }

  lemma ResetCostsNothing(f: set<Fault>, tpd: nat, x: Sys, e: Event)
    requires Steady(f, tpd, x) && Allowed(f, tpd, x, e) && OfASave(e) && !e.FlushWrite?
    ensures Cost(tpd, x, e) == 0
  {
  }

  lemma SweepCostsNothing(f: set<Fault>, tpd: nat, x: Sys, e: Event)
    requires Steady(f, tpd, x) && Allowed(f, tpd, x, e) && !OfACall(e) && !OfASave(e) && !e.Crash?
    ensures Cost(tpd, x, e) == 0
  {
    if e.SweepGate? && FlushInPreload !in f { PendingIsCarried(x, x.disk); }
  }

  lemma QuietCostsNothing(f: set<Fault>, tpd: nat, x: Sys, e: Event)
    requires Steady(f, tpd, x) && Allowed(f, tpd, x, e) && !e.Crash?
    ensures Cost(tpd, x, e) == 0
  {
    if OfACall(e) {
      CallCostsNothing(f, tpd, x, e);
    } else if e.FlushWrite? {
      FlushCostsNothing(f, tpd, x, e);
    } else if OfASave(e) {
      ResetCostsNothing(f, tpd, x, e);
    } else {
      SweepCostsNothing(f, tpd, x, e);
    }
  }

  // ----- every step keeps a run quiet

  /** A step of a call keeps the counter in the map and the days of the preloads. */
  lemma CallKeepsMaps(tpd: nat, x: Sys, e: Event)
    requires Shaped(x) && Enabled(x, e) && OfACall(e)
    ensures var y := Step(tpd, x, e);
            && (x.cur.Some? ==> y.cur == x.cur) && |y.onces| >= |x.onces|
            && forall g :: 0 <= g < |x.onces| ==> y.onces[g].day == x.onces[g].day
  {
  }

  lemma OtherCallStaysGood(x: Sys, y: Sys, c: Call)
    requires GoodCall(x, c) && (x.cur.Some? ==> y.cur == x.cur) && |y.onces| >= |x.onces|
    requires forall g :: 0 <= g < |x.onces| ==> y.onces[g].day == x.onces[g].day
    ensures GoodCall(y, c)
  {
  }

  lemma OwnCallStaysGood(tpd: nat, x: Sys, e: Event)
    requires GoodParts(x) && Shaped(x) && Enabled(x, e) && (e.Join? || e.Fetch? || e.Date? || e.Spend?)
    ensures var y := Step(tpd, x, e); GoodCall(y, y.calls[e.k])
  {
    OwnPartIsGood(x, e);
  }

  lemma CallsStayGood(f: set<Fault>, tpd: nat, x: Sys, e: Event)
    requires Steady(f, tpd, x) && Allowed(f, tpd, x, e) && OfACall(e)
    ensures var y := Step(tpd, x, e); forall k :: 0 <= k < |y.calls| ==> GoodCall(y, y.calls[k])
  {
    var y := Step(tpd, x, e);
    CallKeepsMaps(tpd, x, e);
    if e.Join? || e.Fetch? || e.Date? || e.Spend? { OwnCallStaysGood(tpd, x, e); }
    forall k | 0 <= k < |y.calls| && (k >= |x.calls| || y.calls[k] == x.calls[k]) ensures GoodCall(y, y.calls[k]) {
      if k < |x.calls| { OtherCallStaysGood(x, y, x.calls[k]); }
    }
  }

  lemma PreloadsStayGood(f: set<Fault>, tpd: nat, x: Sys, e: Event)
    requires Steady(f, tpd, x) && Allowed(f, tpd, x, e) && OfACall(e)
    ensures var y := Step(tpd, x, e); forall g :: 0 <= g < |y.onces| ==> GoodPreload(y, g)
  {
    var y := Step(tpd, x, e);
    OwnPartIsGood(x, e);
    forall g | 0 <= g < |y.onces| ensures GoodPreload(y, g) {
      if g < |x.onces| { assert GoodPreload(x, g); }
    }
  }

  lemma FlushesStayGood(f: set<Fault>, tpd: nat, x: Sys, e: Event)
    requires Steady(f, tpd, x) && Allowed(f, tpd, x, e) && OfACall(e)
    ensures var y := Step(tpd, x, e); forall j :: 0 <= j < |y.flushes| ==> GoodFlush(y, y.flushes[j])
  {
    forall j | 0 <= j < |x.flushes| ensures GoodFlush(Step(tpd, x, e), x.flushes[j]) {
      var fl := x.flushes[j];
      if fl.pc.FlushPicked? { CallLeavesPick(f, tpd, x, e, fl.pc.o, fl.day); }
    }
  }

  lemma SavePartsStayGood(f: set<Fault>, tpd: nat, x: Sys, e: Event)
    requires Steady(f, tpd, x) && Allowed(f, tpd, x, e) && OfASave(e)
    ensures GoodParts(Step(tpd, x, e))
  {
    var y := Step(tpd, x, e);
    OwnPartIsGood(x, e);
    forall k | 0 <= k < |y.calls| ensures GoodCall(y, y.calls[k]) {
      assert GoodCall(x, x.calls[k]) && (e.DropCounter? ==> Unjoined(x, x.calls[k]));
    }
    forall g | 0 <= g < |y.onces| ensures GoodPreload(y, g) {
      assert GoodPreload(x, g);
    }
    forall j | 0 <= j < |y.flushes| ensures GoodFlush(y, y.flushes[j]) {
      if j < |x.flushes| { assert GoodFlush(x, x.flushes[j]); }
    }
  }

  /** A counter that is not of today has no preload of today. */
  lemma NothingAdopted(f: set<Fault>, x: Sys, g: nat)
    requires Quiet(f, x) && x.cur.Some? && !OfToday(x) && g < |x.onces| && x.onces[g].day == x.today
    ensures !x.onces[g].phase.Adopting?
  {
    assert GoodPreload(x, g) && Carried(x.onces[g], x.today) <= Now(x);
  }

  lemma RestPartsStayGood(f: set<Fault>, tpd: nat, x: Sys, e: Event)
    requires Steady(f, tpd, x) && Allowed(f, tpd, x, e) && !OfACall(e) && !OfASave(e)
    ensures GoodParts(Step(tpd, x, e))
  {
    var y := Step(tpd, x, e);
    forall k | 0 <= k < |y.calls| ensures GoodCall(y, y.calls[k]) {
      assert GoodCall(x, x.calls[k]);
    }
    forall g | 0 <= g < |y.onces| ensures GoodPreload(y, g) {
      assert GoodPreload(x, g);
      if e.SweepDelete? && x.cur.Some? && !OfToday(x) && x.onces[g].day == x.today { NothingAdopted(f, x, g); }
    }
    forall j | 0 <= j < |y.flushes| ensures GoodFlush(y, y.flushes[j]) {
      assert GoodFlush(x, x.flushes[j]);
    }
  }

  lemma PartsStayGood(f: set<Fault>, tpd: nat, x: Sys, e: Event)
    requires Steady(f, tpd, x) && Allowed(f, tpd, x, e)
    ensures GoodParts(Step(tpd, x, e))
  {
    if OfACall(e) {
      CallsStayGood(f, tpd, x, e);
      PreloadsStayGood(f, tpd, x, e);
      FlushesStayGood(f, tpd, x, e);
    } else if OfASave(e) {
      SavePartsStayGood(f, tpd, x, e);
    } else {
      RestPartsStayGood(f, tpd, x, e);
    }
  }

  lemma QuietCost(f: set<Fault>, tpd: nat, x: Sys, e: Event)
    requires Steady(f, tpd, x) && Allowed(f, tpd, x, e)
    ensures !e.Crash? ==> Cost(tpd, x, e) == 0
  {
    if !e.Crash? { QuietCostsNothing(f, tpd, x, e); }
  }

  /** A save that is behind nothing leaves nothing unsaved; where there is no counter nothing was unsaved before. */
  lemma SavedIsAll(f: set<Fault>, tpd: nat, x: Sys, e: Event)
    requires Steady(f, tpd, x) && Allowed(f, tpd, x, e)
    requires e.ResetWrite? || (e.ResetPick? && x.cur.None?)
    ensures var y := Step(tpd, x, e); y.granted <= y.disk + y.lost
  {
    QuietCost(f, tpd, x, e);
    PendingIsCarried(x, Step(tpd, x, e).disk);
  }

  lemma ResetStaysGood(f: set<Fault>, tpd: nat, x: Sys, e: Event)
    requires Steady(f, tpd, x) && Allowed(f, tpd, x, e) && OfASave(e)
    ensures GoodReset(Step(tpd, x, e))
  {
    OwnPartIsGood(x, e);
    QuietCost(f, tpd, x, e);
    if e.ResetWrite? || (e.ResetPick? && x.cur.None?) { SavedIsAll(f, tpd, x, e); }
    if e.DropCounter? {
      forall k | 0 <= k < |x.calls| ensures AtMostBegun(x.calls[k]) { assert Unjoined(x, x.calls[k]); }
    }
  }

  /** Between the two drops of a reset calls can only begin. */
  lemma DroppedBars(f: set<Fault>, tpd: nat, x: Sys, e: Event)
    requires OnlyCrashes(f) && GoodReset(x) && x.reset.CounterDropped? && Allowed(f, tpd, x, e) && OfACall(e)
    ensures e.Begin?
  {
  }

  /** Only the counter in use is ever charged, and no preload makes a counter of an earlier day today's. */
  lemma CallLeavesPick(f: set<Fault>, tpd: nat, x: Sys, e: Event, o: nat, day: nat)
    requires Steady(f, tpd, x) && Allowed(f, tpd, x, e) && OfACall(e) && GoodPick(x, o, day)
    ensures GoodPick(Step(tpd, x, e), o, day)
  {
    OwnPartIsGood(x, e);
  }

  lemma CallLeavesSaved(f: set<Fault>, tpd: nat, x: Sys, e: Event)
    requires Steady(f, tpd, x) && Allowed(f, tpd, x, e) && OfACall(e) && x.reset.Saved?
    ensures var y := Step(tpd, x, e); y.granted <= y.disk + y.lost
  {
    CallCostsNothing(f, tpd, x, e);
  }

  lemma BeginLeavesReset(tpd: nat, x: Sys, e: Event)
    requires GoodReset(x) && x.reset.CounterDropped? && e.Begin?
    ensures GoodReset(Step(tpd, x, e))
  {
  }

  lemma CallKeepsReset(tpd: nat, x: Sys, e: Event)
    requires Enabled(x, e) && OfACall(e)
    ensures Step(tpd, x, e).reset == x.reset
  {
  }

  lemma CallLeavesReset(f: set<Fault>, tpd: nat, x: Sys, e: Event)
    requires Steady(f, tpd, x) && Allowed(f, tpd, x, e) && OfACall(e)
    ensures GoodReset(Step(tpd, x, e))
  {
    CallKeepsReset(tpd, x, e);
    match x.reset
    case ResetPicked(day, o) => CallLeavesPick(f, tpd, x, e, o, day);
    case Saved => CallLeavesSaved(f, tpd, x, e);
    case CounterDropped =>
      DroppedBars(f, tpd, x, e);
      BeginLeavesReset(tpd, x, e);
    case _ =>
  }

  lemma RestLeavesReset(f: set<Fault>, tpd: nat, x: Sys, e: Event)
    requires Steady(f, tpd, x) && Allowed(f, tpd, x, e) && !OfACall(e) && !OfASave(e)
    ensures GoodReset(Step(tpd, x, e))
  {
    QuietCost(f, tpd, x, e);
  }

  // ----- the counter stays covered, or is being recovered

  lemma NoneAhead(x: Sys, n: nat, g: nat)
    requires !Ahead(x, n) && g < |x.onces|
    ensures Carried(x.onces[g], x.today) <= n
  {
  }

  /** A step of a call that leaves the store alone and whose preloads carry no more than the new counter. */
  lemma CoveredStays(f: set<Fault>, tpd: nat, x: Sys, e: Event)
    requires Steady(f, tpd, x) && Allowed(f, tpd, x, e) && OfACall(e) && Covered(x)
    ensures Covered(Step(tpd, x, e))
  {
    var y := Step(tpd, x, e);
    OwnPartIsGood(x, e);
    if e.FetchStored? || e.Fetch? { StoreKeepsLevel(x, e.day); }
    assert Now(y) >= Now(x);
    forall g | 0 <= g < |y.onces| ensures Carried(y.onces[g], y.today) <= Now(y) {
      if g < |x.onces| { NoneAhead(x, Now(x), g); }
    }
  }

  lemma JoinRecovers(f: set<Fault>, tpd: nat, x: Sys, e: Event)
    requires Steady(f, tpd, x) && Allowed(f, tpd, x, e) && Recovering(x) && (e.Begin? || e.Join?)
    ensures Recovering(Step(tpd, x, e))
  {
    var y := Step(tpd, x, e);
    RecoveringBars(x, e);
    if x.reset.CounterDropped? { DroppedBars(f, tpd, x, e); }
    forall k | 0 <= k < |y.calls| ensures Outside(y, y.calls[k]) {
      if k < |x.calls| { assert Outside(x, x.calls[k]); }
    }
    forall g | 0 <= g < |y.onces| ensures Restoring(y, y.onces[g]) {
      if g < |x.onces| { assert Restoring(x, x.onces[g]); }
    }
  }

  /** A preload that ends leaves the counter covered: the others carry no more than the store holds. */
  lemma LastPreloadCovers(f: set<Fault>, x: Sys, y: Sys, g: nat)
    requires Quiet(f, x) && OnlyCrashes(f) && Recovering(x) && g < |x.onces| && x.onces[g].day == x.today
    requires !x.onces[g].phase.Done? && y.onces == x.onces[g := x.onces[g].(phase := Done)]
    requires y.today == x.today && y.disk == x.disk && y.gate == x.gate && Now(y) >= x.disk
    ensures Covered(y)
  {
    forall h | 0 <= h < |y.onces| ensures Carried(y.onces[h], y.today) <= Now(y) {
      if h != g && FlushInPreload !in f { NoneAhead(x, x.disk, h); }
    }
  }

  lemma ReadRecovers(f: set<Fault>, tpd: nat, x: Sys, e: Event)
    requires Steady(f, tpd, x) && Allowed(f, tpd, x, e) && Recovering(x) && e.Read?
    ensures var y := Step(tpd, x, e); Covered(y) || Recovering(y)
  {
    var y := Step(tpd, x, e);
    RecoveringBars(x, e);
    if x.reset.CounterDropped? { DroppedBars(f, tpd, x, e); }
    if y.onces[e.g].phase.Done? {
      LastPreloadCovers(f, x, y, e.g);
    } else {
      PhaseRecovers(x, y, e.g);
    }
  }

  /** A preload that goes on with what the store held. */
  lemma PhaseRecovers(x: Sys, y: Sys, g: nat)
    requires Recovering(x) && g < |x.onces| && |y.onces| == |x.onces| && Restoring(y, y.onces[g])
    requires !y.onces[g].phase.Done? && !x.onces[g].phase.Done?
    requires forall h :: 0 <= h < |x.onces| && h != g ==> y.onces[h] == x.onces[h]
    requires y.calls == x.calls && y.today == x.today && y.disk == x.disk && y.gate == x.gate && y.reset == x.reset
    requires (y.cur.Some? ==> OfToday(y)) && Now(y) == 0
    ensures Recovering(y)
  {
    forall k | 0 <= k < |y.calls| ensures Outside(y, y.calls[k]) { assert Outside(x, x.calls[k]); }
    forall h | 0 <= h < |y.onces| ensures Restoring(y, y.onces[h]) { assert Restoring(x, x.onces[h]); }
  }

  lemma FetchRecovers(f: set<Fault>, tpd: nat, x: Sys, e: Event)
    requires Steady(f, tpd, x) && Allowed(f, tpd, x, e) && Recovering(x) && e.FetchStored?
    ensures Recovering(Step(tpd, x, e))
  {
    RecoveringBars(x, e);
    StoreKeepsLevel(x, e.day);
    PhaseRecovers(x, Step(tpd, x, e), e.g);
  }

  lemma AdoptRecovers(f: set<Fault>, tpd: nat, x: Sys, e: Event)
    requires Steady(f, tpd, x) && Allowed(f, tpd, x, e) && Recovering(x) && e.Adopt?
    ensures Covered(Step(tpd, x, e))
  {
    RecoveringBars(x, e);
    OwnPartIsGood(x, e);
    LastPreloadCovers(f, x, Step(tpd, x, e), e.g);
  }

  lemma RecoveringStays(f: set<Fault>, tpd: nat, x: Sys, e: Event)
    requires Steady(f, tpd, x) && Allowed(f, tpd, x, e) && OfACall(e) && Recovering(x)
    ensures var y := Step(tpd, x, e); Covered(y) || Recovering(y)
  {
    RecoveringBars(x, e);
    match e
    case Read(_, _, _) => ReadRecovers(f, tpd, x, e);
    case FetchStored(_, _) => FetchRecovers(f, tpd, x, e);
    case Adopt(_) => AdoptRecovers(f, tpd, x, e);
    case Begin(_) => JoinRecovers(f, tpd, x, e);
    case Join(_) => JoinRecovers(f, tpd, x, e);
    case _ =>
  }

  /** Nothing else changes what the preloads carry, except midnight and a crash, which leave none of today. */
  lemma SameAhead(tpd: nat, x: Sys, e: Event, n: nat)
    requires Shaped(x) && Enabled(x, e) && !OfACall(e) && !Ahead(x, n)
    ensures !Ahead(Step(tpd, x, e), n)
  {
    var y := Step(tpd, x, e);
    forall g | 0 <= g < |y.onces| ensures Carried(y.onces[g], y.today) <= n { NoneAhead(x, n, g); }
  }

  lemma SaveCovers(f: set<Fault>, tpd: nat, x: Sys, e: Event)
    requires Steady(f, tpd, x) && Allowed(f, tpd, x, e) && OfASave(e) && !e.DropCounter? && Covered(x)
    ensures Covered(Step(tpd, x, e))
  {
    OwnPartIsGood(x, e);
    SameAhead(tpd, x, e, Now(x));
  }

  lemma SaveRecovers(f: set<Fault>, tpd: nat, x: Sys, e: Event)
    requires Steady(f, tpd, x) && Allowed(f, tpd, x, e) && OfASave(e) && !e.DropCounter? && Recovering(x)
    ensures Recovering(Step(tpd, x, e))
  {
    var y := Step(tpd, x, e);
    OwnPartIsGood(x, e);
    assert y.disk <= x.disk;
    forall k | 0 <= k < |y.calls| ensures Outside(y, y.calls[k]) { assert Outside(x, x.calls[k]); }
    forall g | 0 <= g < |y.onces| ensures Restoring(y, y.onces[g]) { assert Restoring(x, x.onces[g]); }
  }

  lemma DropRecovers(f: set<Fault>, tpd: nat, x: Sys, e: Event)
    requires Steady(f, tpd, x) && Allowed(f, tpd, x, e) && e.DropCounter?
    ensures Recovering(Step(tpd, x, e))
  {
    var y := Step(tpd, x, e);
    forall k | 0 <= k < |y.calls| ensures Outside(y, y.calls[k]) { assert Unjoined(x, x.calls[k]); }
  }

  lemma RestCovers(f: set<Fault>, tpd: nat, x: Sys, e: Event)
    requires Steady(f, tpd, x) && Allowed(f, tpd, x, e) && !OfACall(e) && !OfASave(e)
    requires e.Midnight? || (Covered(x) && !e.Crash?)
    ensures Covered(Step(tpd, x, e))
  {
    var y := Step(tpd, x, e);
    if e.Midnight? {
      assert !OfToday(y);
      forall g | 0 <= g < |y.onces| ensures Carried(y.onces[g], y.today) <= 0 { assert x.onces[g].day <= x.today; }
    } else {
      SameAhead(tpd, x, e, Now(x));
    }
  }

  lemma RestRecovers(f: set<Fault>, tpd: nat, x: Sys, e: Event)
    requires Steady(f, tpd, x) && Allowed(f, tpd, x, e) && !OfACall(e) && !OfASave(e) && !e.Midnight?
    requires e.Crash? || Recovering(x)
    ensures Recovering(Step(tpd, x, e))
  {
    var y := Step(tpd, x, e);
    if !e.Crash? {
      forall k | 0 <= k < |y.calls| ensures Outside(y, y.calls[k]) { assert Outside(x, x.calls[k]); }
      forall g | 0 <= g < |y.onces| ensures Restoring(y, y.onces[g]) { assert Restoring(x, x.onces[g]); }
    }
  }

  lemma CoverStays(f: set<Fault>, tpd: nat, x: Sys, e: Event)
    requires Steady(f, tpd, x) && Allowed(f, tpd, x, e)
    ensures var y := Step(tpd, x, e); Covered(y) || Recovering(y)
  {
    if OfACall(e) {
      if Covered(x) { CoveredStays(f, tpd, x, e); } else { RecoveringStays(f, tpd, x, e); }
    } else if e.DropCounter? {
      DropRecovers(f, tpd, x, e);
    } else if OfASave(e) {
      if Covered(x) { SaveCovers(f, tpd, x, e); } else { SaveRecovers(f, tpd, x, e); }
    } else if e.Midnight? || (Covered(x) && !e.Crash?) {
      RestCovers(f, tpd, x, e);
    } else {
      RestRecovers(f, tpd, x, e);
    }
  }

  // ----- the store backs the preloads, and there is one

  lemma CallKeepsBacked(f: set<Fault>, tpd: nat, x: Sys, e: Event)
    requires Steady(f, tpd, x) && Allowed(f, tpd, x, e) && OfACall(e) && !Ahead(x, x.disk)
    ensures !Ahead(Step(tpd, x, e), x.disk)
  {
    var y := Step(tpd, x, e);
    forall g | 0 <= g < |y.onces| ensures Carried(y.onces[g], y.today) <= x.disk {
      if g < |x.onces| { NoneAhead(x, x.disk, g); }
    }
  }

  lemma SaveKeepsBacked(f: set<Fault>, tpd: nat, x: Sys, e: Event)
    requires Steady(f, tpd, x) && Allowed(f, tpd, x, e) && OfASave(e)
    ensures Backed(f, Step(tpd, x, e))
  {
    var y := Step(tpd, x, e);
    OwnPartIsGood(x, e);
    if !Ahead(x, y.disk) { SameAhead(tpd, x, e, y.disk); }
  }

  lemma RestKeepsBacked(f: set<Fault>, tpd: nat, x: Sys, e: Event)
    requires Steady(f, tpd, x) && Allowed(f, tpd, x, e) && !OfACall(e) && !OfASave(e)
    ensures Backed(f, Step(tpd, x, e))
  {
    var y := Step(tpd, x, e);
    if e.Midnight? {
      RestCovers(f, tpd, x, e);
    } else if !Ahead(x, x.disk) {
      SameAhead(tpd, x, e, x.disk);
    }
  }

  lemma BackedStays(f: set<Fault>, tpd: nat, x: Sys, e: Event)
    requires Steady(f, tpd, x) && Allowed(f, tpd, x, e)
    ensures Backed(f, Step(tpd, x, e))
  {
    if OfACall(e) {
      if !Ahead(x, x.disk) { CallKeepsBacked(f, tpd, x, e); }
    } else if OfASave(e) {
      SaveKeepsBacked(f, tpd, x, e);
    } else {
      RestKeepsBacked(f, tpd, x, e);
    }
  }

  lemma CallKeepsOnePreload(f: set<Fault>, tpd: nat, x: Sys, e: Event)
    requires Steady(f, tpd, x) && Allowed(f, tpd, x, e) && OfACall(e) && SweepsGate !in f
    ensures OnePreload(Step(tpd, x, e))
  {
  }

  lemma RestKeepsOnePreload(f: set<Fault>, tpd: nat, x: Sys, e: Event)
    requires Steady(f, tpd, x) && Allowed(f, tpd, x, e) && !OfACall(e) && SweepsGate !in f
    ensures OnePreload(Step(tpd, x, e))
  {
  }

  /** While memory is being recovered and there is a counter, only its own preload can move on. */
  lemma CallKeepsGateAdopts(f: set<Fault>, tpd: nat, x: Sys, e: Event)
    requires Steady(f, tpd, x) && Allowed(f, tpd, x, e) && OfACall(e) && SweepsGate !in f
    ensures GateAdopts(Step(tpd, x, e))
  {
    if Covered(x) {
      CoveredStays(f, tpd, x, e);
    } else if e.Adopt? {
      AdoptRecovers(f, tpd, x, e);
    } else {
      RecoveringBars(x, e);
    }
  }

  lemma RestKeepsGateAdopts(f: set<Fault>, tpd: nat, x: Sys, e: Event)
    requires Steady(f, tpd, x) && Allowed(f, tpd, x, e) && !OfACall(e) && SweepsGate !in f
    ensures GateAdopts(Step(tpd, x, e))
  {
    if OfASave(e) {
      if Covered(x) && !e.DropCounter? { SaveCovers(f, tpd, x, e); }
    } else if e.Midnight? || (Covered(x) && !e.Crash?) {
      RestCovers(f, tpd, x, e);
    }
  }

  lemma StaysQuiet(f: set<Fault>, tpd: nat, x: Sys, e: Event)
    requires Steady(f, tpd, x) && Allowed(f, tpd, x, e)
    ensures Quiet(f, Step(tpd, x, e))
  {
    PartsStayGood(f, tpd, x, e);
    if OfASave(e) {
      ResetStaysGood(f, tpd, x, e);
    } else if OfACall(e) {
      CallLeavesReset(f, tpd, x, e);
    } else {
      RestLeavesReset(f, tpd, x, e);
    }
    CoverStays(f, tpd, x, e);
    BackedStays(f, tpd, x, e);
    if SweepsGate !in f {
      if OfACall(e) {
        CallKeepsOnePreload(f, tpd, x, e);
        CallKeepsGateAdopts(f, tpd, x, e);
      } else {
        RestKeepsOnePreload(f, tpd, x, e);
        RestKeepsGateAdopts(f, tpd, x, e);
      }
    }
  }
}
