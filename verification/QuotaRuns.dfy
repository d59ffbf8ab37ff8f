/** Runs of the limiter: whole operations as sequences of steps, and a run for each fault that breaks the limit. */
module QuotaRuns {
  import opened Prelude
  import opened Quota
  import opened QuotaSteps
  import opened QuotaQuiet

  // ----- building runs

  lemma {:induction false} Append(f: set<Fault>, tpd: nat, x: Sys, es: seq<Event>, e: Event)
    requires Fair(f, tpd, x, es) && Possible(tpd, x, es) && Allowed(f, tpd, Run(tpd, x, es), e)
    ensures Fair(f, tpd, x, es + [e]) && Possible(tpd, x, es + [e])
    ensures Run(tpd, x, es + [e]) == Step(tpd, Run(tpd, x, es), e)
    decreases |es|
  {
    if es == [] {
      assert [e][1..] == [] && [] + [e] == [e];
    } else {
      Append(f, tpd, Step(tpd, x, es[0]), es[1..], e);
      assert (es + [e])[1..] == es[1..] + [e];
    }
  }

  /** The run leads from the start of day 0 to the state. */
  ghost predicate Reached(f: set<Fault>, tpd: nat, es: seq<Event>, y: Sys) {
    Fair(f, tpd, Start(0), es) && Possible(tpd, Start(0), es) && Run(tpd, Start(0), es) == y
  }

  ghost predicate Reachable(f: set<Fault>, tpd: nat, y: Sys) {
    exists es :: Reached(f, tpd, es, y)
  }

  lemma Go(f: set<Fault>, tpd: nat, x: Sys, e: Event)
    requires Reachable(f, tpd, x) && Allowed(f, tpd, x, e)
    ensures Reachable(f, tpd, Step(tpd, x, e))
  {
    var es :| Reached(f, tpd, es, x);
    Append(f, tpd, Start(0), es, e);
    assert Reached(f, tpd, es + [e], Step(tpd, x, e));
  }

  lemma StartIsReachable(f: set<Fault>, tpd: nat)
    ensures Reachable(f, tpd, Start(0))
  {
    assert Reached(f, tpd, [], Start(0));
  }

  // ----- a call, in two halves

  /** Where a reset is, a call may pass its gate and charge. */
  predicate CallFits(f: set<Fault>, x: Sys) {
    && (x.reset.CounterDropped? ==> JoinsBetweenDrops in f)
    && (x.reset.Saved? ==> ChargesAfterSave in f)
  }

  predicate GateUsed(x: Sys) {
    x.gate.Some? && x.gate.value < |x.onces| && x.onces[x.gate.value].phase.Done?
  }

  lemma GoBegin(f: set<Fault>, tpd: nat, x: Sys, n: nat) returns (y: Sys)
    requires Reachable(f, tpd, x)
    ensures Reachable(f, tpd, y) && y == x.(calls := x.calls + [Call(n, x.today, Begun)])
  {
    Go(f, tpd, x, Begin(n));
    y := Step(tpd, x, Begin(n));
  }

  /** A call that finds its gate used up. */
  lemma EnterGated(f: set<Fault>, tpd: nat, x: Sys, n: nat) returns (y: Sys)
    requires Reachable(f, tpd, x) && GateUsed(x) && CallFits(f, x)
    ensures Reachable(f, tpd, y) && y == x.(calls := x.calls + [Call(n, x.today, Waiting(x.gate.value))])
  {
    var k := |x.calls|;
    y := GoBegin(f, tpd, x, n);
    Go(f, tpd, y, Join(k));
    y := Step(tpd, y, Join(k));
  }

  lemma OpenGate(f: set<Fault>, tpd: nat, x: Sys, n: nat) returns (y: Sys)
    requires Reachable(f, tpd, x) && x.gate.None? && (x.reset.CounterDropped? ==> JoinsBetweenDrops in f)
    ensures Reachable(f, tpd, y)
    ensures y == x.(calls := x.calls + [Call(n, x.today, Waiting(|x.onces|))],
                    onces := x.onces + [Once(x.today, Reading)], gate := Some(|x.onces|))
  {
    var k := |x.calls|;
    y := GoBegin(f, tpd, x, n);
    Go(f, tpd, y, Join(k));
    y := Step(tpd, y, Join(k));
  }

  /** A call that finds no gate and, in the store, nothing it can read. */
  lemma EnterFresh(f: set<Fault>, tpd: nat, x: Sys, n: nat, readable: bool) returns (y: Sys)
    requires Reachable(f, tpd, x) && x.gate.None? && CallFits(f, x)
    requires if readable then x.disk == 0 else ReadFails in f
    ensures Reachable(f, tpd, y)
    ensures y == x.(calls := x.calls + [Call(n, x.today, Waiting(|x.onces|))],
                    onces := x.onces + [Once(x.today, Done)], gate := Some(|x.onces|), lost := y.lost)
    ensures readable ==> y.lost == x.lost
  {
    var g := |x.onces|;
    y := OpenGate(f, tpd, x, n);
    Go(f, tpd, y, Read(g, readable, 0));
    y := Step(tpd, y, Read(g, readable, 0));
    assert y.onces == x.onces + [Once(x.today, Done)];
  }

  /** A call gets its counter and reads the clock. */
  lemma GetCounter(f: set<Fault>, tpd: nat, x: Sys, k: nat) returns (y: Sys)
    requires Reachable(f, tpd, x) && Enabled(x, Fetch(k, x.today))
    ensures Reachable(f, tpd, y)
    ensures y == Stored(x, x.today).(calls := x.calls[k := x.calls[k].(pc := Dated(Found(x), x.today))])
  {
    Go(f, tpd, x, Fetch(k, x.today));
    y := Step(tpd, x, Fetch(k, x.today));
    Go(f, tpd, y, Date(k));
    y := Step(tpd, y, Date(k));
  }

  /** ... and locks it. */
  lemma Lock(f: set<Fault>, tpd: nat, x: Sys, k: nat) returns (y: Sys)
    requires Reachable(f, tpd, x) && Allowed(f, tpd, x, Spend(k))
    ensures var Dated(o, day) := x.calls[k].pc;
            && Reachable(f, tpd, y)
            && y == SetObj(x, o, Spent(x.objs[o], day, tpd, x.calls[k].n)).(
                      granted := x.granted + Got(x.objs[o], day, tpd, x.calls[k].n),
                      calls := x.calls[k := x.calls[k].(pc := Finished)], since := y.since, lost := y.lost)
            && (x.cur == Some(o) && day == x.today && Gated(x) ==> y.lost == x.lost)
  {
    Go(f, tpd, x, Spend(k));
    y := Step(tpd, x, Spend(k));
  }

  /** The second half at once, on a counter that has nothing for today. */
  lemma SpendAll(f: set<Fault>, tpd: nat, x: Sys, k: nat) returns (y: Sys)
    requires Reachable(f, tpd, x) && Enabled(x, Fetch(k, x.today)) && x.calls[k].n == tpd && CallFits(f, x)
    requires Now(x) == 0 && (x.cur.Some? ==> x.cur.value < |x.objs|)
    ensures Reachable(f, tpd, y)
    ensures y == x.(objs := Stored(x, x.today).objs[Found(x) := Bucket(x.today, tpd)], cur := Some(Found(x)),
                    granted := x.granted + tpd, calls := x.calls[k := x.calls[k].(pc := Finished)],
                    since := y.since, lost := y.lost)
    ensures Gated(x) ==> y.lost == x.lost
  {
    var z := GetCounter(f, tpd, x, k);
    var b := z.objs[Found(x)];
    assert UsedOn(b, x.today) == 0;
    assert Spent(b, x.today, tpd, tpd) == Bucket(x.today, tpd) && Got(b, x.today, tpd, tpd) == tpd;
    y := Lock(f, tpd, z, k);
    assert z.calls[k := z.calls[k].(pc := Finished)] == x.calls[k := x.calls[k].(pc := Finished)];
  }

  // ----- resets and flushes

  lemma ResetPicks(f: set<Fault>, tpd: nat, x: Sys) returns (y: Sys)
    requires Reachable(f, tpd, x) && x.reset.NoReset?
    ensures Reachable(f, tpd, y)
    ensures y == x.(reset := if x.cur.Some? then ResetPicked(x.today, x.cur.value) else Saved)
  {
    Go(f, tpd, x, ResetBegin);
    y := Step(tpd, x, ResetBegin);
    Go(f, tpd, y, ResetPick);
    y := Step(tpd, y, ResetPick);
  }

  lemma ResetSaves(f: set<Fault>, tpd: nat, x: Sys, writable: bool) returns (y: Sys)
    requires Reachable(f, tpd, x) && x.reset.NoReset? && x.cur.Some? && x.cur.value < |x.objs|
    requires SaveAllowed(f, x, x.cur.value, x.today, writable)
    ensures Reachable(f, tpd, y)
    ensures y == x.(disk := Written(x, x.cur.value, x.today, writable), reset := Saved,
                    since := y.since, lost := y.lost)
  {
    y := ResetPicks(f, tpd, x);
    Go(f, tpd, y, ResetWrite(writable));
    y := Step(tpd, y, ResetWrite(writable));
  }

  lemma ResetDrops(f: set<Fault>, tpd: nat, x: Sys) returns (y: Sys)
    requires Reachable(f, tpd, x) && x.reset.Saved? && DropAllowed(f, x)
    ensures Reachable(f, tpd, y) && y == x.(reset := NoReset, cur := None, gate := None, lost := y.lost)
  {
    Go(f, tpd, x, DropCounter);
    y := Step(tpd, x, DropCounter);
    Go(f, tpd, y, DropGate);
    y := Step(tpd, y, DropGate);
  }

  /** A whole reset of a bucket that has a counter. */
  lemma WholeReset(f: set<Fault>, tpd: nat, x: Sys, writable: bool) returns (y: Sys)
    requires Reachable(f, tpd, x) && x.reset.NoReset? && x.cur.Some? && x.cur.value < |x.objs|
    requires SaveAllowed(f, x, x.cur.value, x.today, writable) && DropAllowed(f, x)
    ensures Reachable(f, tpd, y)
    ensures y == x.(disk := Written(x, x.cur.value, x.today, writable), cur := None, gate := None,
                    since := y.since, lost := y.lost)
  {
    y := ResetSaves(f, tpd, x, writable);
    y := ResetDrops(f, tpd, y);
  }

  lemma PickForFlush(f: set<Fault>, tpd: nat, x: Sys) returns (y: Sys)
    requires Reachable(f, tpd, x) && x.cur.Some?
    ensures Reachable(f, tpd, y) && y == x.(flushes := x.flushes + [Flush(x.today, FlushPicked(x.cur.value))])
  {
    var j := |x.flushes|;
    Go(f, tpd, x, FlushBegin);
    y := Step(tpd, x, FlushBegin);
    Go(f, tpd, y, FlushPick(j));
    y := Step(tpd, y, FlushPick(j));
  }

  lemma WholeFlush(f: set<Fault>, tpd: nat, x: Sys) returns (y: Sys)
    requires Reachable(f, tpd, x) && OfToday(x)
    requires Lowers(x, x.cur.value, x.today, true) ==> (if x.reset.Saved? then SaveUndone else FlushInPreload) in f
    ensures Reachable(f, tpd, y) && y.since == 0
    ensures y == x.(disk := Now(x), flushes := x.flushes + [Flush(x.today, FlushEnded)], since := 0, lost := y.lost)
    ensures Gated(x) || x.disk <= Max(Now(x), Pending(x)) ==> y.lost == x.lost
  {
    var j := |x.flushes|;
    y := PickForFlush(f, tpd, x);
    Go(f, tpd, y, FlushWrite(j, true));
    y := Step(tpd, y, FlushWrite(j, true));
  }

  // ----- undisturbed, the steps are the limiter's methods

  function CellOf(x: Sys): Cell
    requires x.cur.Some? ==> x.cur.value < |x.objs|
  {
    Cell(if x.cur.Some? then Some(x.objs[x.cur.value]) else None,
         x.gate.Some? && x.gate.value < |x.onces| && x.onces[x.gate.value].phase.Done?, x.disk)
  }

  lemma ReadStored(f: set<Fault>, tpd: nat, x: Sys, n: nat) returns (y: Sys)
    requires Reachable(f, tpd, x) && x.gate.None? && x.disk > 0 && (x.reset.CounterDropped? ==> JoinsBetweenDrops in f)
    ensures Reachable(f, tpd, y)
    ensures y == x.(calls := x.calls + [Call(n, x.today, Waiting(|x.onces|))],
                    onces := x.onces + [Once(x.today, Fetching(x.disk))], gate := Some(|x.onces|))
  {
    var g := |x.onces|;
    y := OpenGate(f, tpd, x, n);
    Go(f, tpd, y, Read(g, true, 0));
    y := Step(tpd, y, Read(g, true, 0));
    assert y.onces == x.onces + [Once(x.today, Fetching(x.disk))];
  }

  /** A preload that has read the store and has its counter. */
  lemma FetchedStored(f: set<Fault>, tpd: nat, x: Sys, n: nat) returns (y: Sys)
    requires Reachable(f, tpd, x) && x.gate.None? && x.disk > 0 && (x.reset.CounterDropped? ==> JoinsBetweenDrops in f)
    requires x.cur.Some? ==> x.cur.value < |x.objs|
    ensures Reachable(f, tpd, y)
    ensures y == Stored(x, x.today).(
                   calls := x.calls + [Call(n, x.today, Waiting(|x.onces|))], gate := Some(|x.onces|),
                   onces := x.onces + [Once(x.today, Adopting(x.disk, Found(x)))])
  {
    var g := |x.onces|;
    y := ReadStored(f, tpd, x, n);
    Go(f, tpd, y, FetchStored(g, x.today));
    y := Step(tpd, y, FetchStored(g, x.today));
    assert y.onces == x.onces + [Once(x.today, Adopting(x.disk, Found(x)))];
  }

  lemma AdoptStored(f: set<Fault>, tpd: nat, x: Sys, n: nat) returns (y: Sys)
    requires Reachable(f, tpd, x) && x.gate.None? && x.disk > 0 && (x.reset.CounterDropped? ==> JoinsBetweenDrops in f)
    requires x.cur.Some? ==> x.cur.value < |x.objs|
    ensures Reachable(f, tpd, y) && y.cur == Some(Found(x)) && Found(x) < |y.objs| && y.gate == Some(|x.onces|)
    ensures y.calls == x.calls + [Call(n, x.today, Waiting(|x.onces|))] && y.today == x.today && y.granted == x.granted
    ensures |y.onces| == |x.onces| + 1 && y.reset == x.reset && CellOf(y) == Preloaded(CellOf(x), x.today, true)
  {
    y := FetchedStored(f, tpd, x, n);
    Go(f, tpd, y, Adopt(|x.onces|));
    y := Step(tpd, y, Adopt(|x.onces|));
  }

  /** A call that nothing disturbs is the limiter's preload followed by its charge. */
  lemma SoloCall(f: set<Fault>, tpd: nat, x: Sys, n: nat, readable: bool) returns (y: Sys)
    requires tpd > 0 && n > 0 && Reachable(f, tpd, x) && CallFits(f, x) && (readable || ReadFails in f)
    requires (x.gate.None? || GateUsed(x)) && (x.cur.Some? ==> x.cur.value < |x.objs|)
    ensures Reachable(f, tpd, y) && y.today == x.today && (y.cur.Some? ==> y.cur.value < |y.objs|)
    ensures var c := Preloaded(CellOf(x), x.today, readable);
            && CellOf(y) == Charged(c, x.today, tpd, n)
            && y.granted == x.granted + if Grants(c, x.today, tpd, n) then n else 0
  {
    if x.gate.Some? {
      y := EnterGated(f, tpd, x, n);
    } else if readable && x.disk > 0 {
      y := AdoptStored(f, tpd, x, n);
    } else {
      y := EnterFresh(f, tpd, x, n, readable);
    }
    assert CellOf(y) == Preloaded(CellOf(x), x.today, readable);
    y := SoloCharge(f, tpd, y, |x.calls|);
  }

  lemma SpentIsCharged(c: Cell, b: Bucket, today: nat, tpd: nat, n: nat)
    requires tpd > 0 && n > 0 && UsedOn(b, today) == Current(c, today).used
    ensures Charged(c, today, tpd, n) == c.(mem := Some(Spent(b, today, tpd, n)))
    ensures Got(b, today, tpd, n) == if Grants(c, today, tpd, n) then n else 0
  {
  }

  lemma CounterInHand(x: Sys, k: nat, y: Sys)
    requires Enabled(x, Fetch(k, x.today)) && (x.cur.Some? ==> x.cur.value < |x.objs|)
    requires y == Stored(x, x.today).(calls := y.calls)
    ensures y.cur == Some(Found(x)) && Found(x) < |y.objs|
    ensures UsedOn(y.objs[Found(x)], x.today) == Current(CellOf(x), x.today).used
    ensures CellOf(y) == CellOf(x).(mem := Some(y.objs[Found(x)]))
  {
  }

  lemma SoloCharge(f: set<Fault>, tpd: nat, x: Sys, k: nat) returns (y: Sys)
    requires tpd > 0 && Reachable(f, tpd, x) && Enabled(x, Fetch(k, x.today)) && x.calls[k].n > 0 && CallFits(f, x)
    requires x.cur.Some? ==> x.cur.value < |x.objs|
    ensures Reachable(f, tpd, y) && y.today == x.today && (y.cur.Some? ==> y.cur.value < |y.objs|)
    ensures CellOf(y) == Charged(CellOf(x), x.today, tpd, x.calls[k].n)
    ensures y.granted == x.granted + if Grants(CellOf(x), x.today, tpd, x.calls[k].n) then x.calls[k].n else 0
  {
    var z := GetCounter(f, tpd, x, k);
    CounterInHand(x, k, z);
    SpentIsCharged(CellOf(x), z.objs[Found(x)], x.today, tpd, x.calls[k].n);
    y := Lock(f, tpd, z, k);
    assert CellOf(y) == CellOf(z).(mem := Some(Spent(z.objs[Found(x)], x.today, tpd, x.calls[k].n)));
  }

  /** A reset that nothing disturbs is the limiter's flush followed by forgetting everything. */
  lemma SoloReset(f: set<Fault>, tpd: nat, x: Sys, writable: bool) returns (y: Sys)
    requires Reachable(f, tpd, x) && x.reset.NoReset? && x.cur.Some? && x.cur.value < |x.objs|
    requires SaveAllowed(f, x, x.cur.value, x.today, writable) && DropAllowed(f, x)
    ensures Reachable(f, tpd, y) && y.cur.None? && CellOf(y) == Cleared(Flushed(CellOf(x), x.today, writable))
  {
    y := WholeReset(f, tpd, x, writable);
  }

  // ----- each fault alone breaks the limit

  /** One call has been granted the whole limit of day 0. */
  function SpentDay(tpd: nat): Sys {
    Start(0).(objs := [Bucket(0, tpd)], cur := Some(0), onces := [Once(0, Done)], gate := Some(0), granted := tpd,
              calls := [Call(tpd, 0, Finished)])
  }

  lemma SpentDayIsReachable(f: set<Fault>, tpd: nat) returns (y: Sys)
    ensures Reachable(f, tpd, y) && y == SpentDay(tpd).(since := y.since)
  {
    StartIsReachable(f, tpd);
    y := EnterFresh(f, tpd, Start(0), tpd, true);
    assert [] + [Once(0, Done)] == [Once(0, Done)] && [] + [Bucket(0, 0)] == [Bucket(0, 0)];
    y := SpendAll(f, tpd, y, 0);
    assert [Bucket(0, 0)][0 := Bucket(0, tpd)] == [Bucket(0, tpd)];
    assert [Call(tpd, 0, Waiting(0))][0 := Call(tpd, 0, Finished)] == [Call(tpd, 0, Finished)];
  }

  /** Some run grants the limit twice in one day. */
  ghost predicate GrantsTwice(f: set<Fault>, tpd: nat) {
    exists y :: Reachable(f, tpd, y) && y.granted == tpd + tpd
  }

  /** From a state in which a call finds neither gate nor counter nor anything readable in the store. */
  lemma StartsOver(f: set<Fault>, tpd: nat, x: Sys, readable: bool)
    requires Reachable(f, tpd, x) && x.granted == tpd && x.gate.None? && x.cur.None? && x.reset.NoReset?
    requires if readable then x.disk == 0 else ReadFails in f
    ensures GrantsTwice(f, tpd)
  {
    var y := EnterFresh(f, tpd, x, tpd, readable);
    y := SpendAll(f, tpd, y, |x.calls|);
  }

  /** From a state in which a call finds its gate used up and nothing counted for today. */
  lemma StartsOverGated(f: set<Fault>, tpd: nat, x: Sys)
    requires Reachable(f, tpd, x) && x.granted == tpd && GateUsed(x) && Now(x) == 0 && CallFits(f, x)
    requires x.cur.Some? ==> x.cur.value < |x.objs|
    ensures GrantsTwice(f, tpd)
  {
    var y := EnterGated(f, tpd, x, tpd);
    y := SpendAll(f, tpd, y, |x.calls|);
  }

  /** All grants of the day are unsaved when the process dies. */
  lemma CrashGrantsTwice(f: set<Fault>, tpd: nat)
    requires CrashUnsaved in f
    ensures GrantsTwice(f, tpd)
  {
    var x := SpentDayIsReachable(f, tpd);
    Go(f, tpd, x, Crash);
    StartsOver(f, tpd, Step(tpd, x, Crash), true);
  }

  /** A reset whose save fails forgets the day. */
  lemma FailedSaveGrantsTwice(f: set<Fault>, tpd: nat)
    requires SaveFails in f
    ensures GrantsTwice(f, tpd)
  {
    var x := SpentDayIsReachable(f, tpd);
    var y := WholeReset(f, tpd, x, false);
    StartsOver(f, tpd, y, true);
  }

  /** A reset begins before midnight; a call makes the counter the new day's; the reset saves the old day only. */
  lemma LateSaveGrantsTwice(f: set<Fault>, tpd: nat)
    requires SaveMisses in f
    ensures GrantsTwice(f, tpd)
  {
    var x := ResetBeforeMidnight(f, tpd);
    x := EnterFresh(f, tpd, x, tpd, true);
    x := SpendAll(f, tpd, x, 0);
    SavedForYesterday(f, tpd, x);
  }

  lemma ResetBeforeMidnight(f: set<Fault>, tpd: nat) returns (x: Sys)
    ensures Reachable(f, tpd, x) && x == Start(1).(reset := ResetBegun(0))
  {
    StartIsReachable(f, tpd);
    x := Start(0);
    Go(f, tpd, x, ResetBegin);
    x := Step(tpd, x, ResetBegin);
    Go(f, tpd, x, Midnight);
    x := Step(tpd, x, Midnight);
  }

  lemma SavedForYesterday(f: set<Fault>, tpd: nat, x: Sys)
    requires SaveMisses in f && Reachable(f, tpd, x) && x.granted == tpd && x.reset.ResetBegun? && x.reset.day < x.today
    requires OfToday(x) && x.disk == 0 && CallsOut(x) && !InFlush(x)
    ensures GrantsTwice(f, tpd)
  {
    Go(f, tpd, x, ResetPick);
    var y := Step(tpd, x, ResetPick);
    Go(f, tpd, y, ResetWrite(true));
    y := Step(tpd, y, ResetWrite(true));
    y := ResetDrops(f, tpd, y);
    StartsOver(f, tpd, y, true);
  }

  /** A charge between a reset's save, which finds no counter, and its drop. */
  lemma ChargeInsideAResetGrantsTwice(f: set<Fault>, tpd: nat)
    requires ChargesAfterSave in f
    ensures GrantsTwice(f, tpd)
  {
    StartIsReachable(f, tpd);
    var x := SavedNothing(f, tpd, Start(0));
    x := EnterFresh(f, tpd, x, tpd, true);
    x := SpendAll(f, tpd, x, 0);
    x := ResetDrops(f, tpd, x);
    StartsOver(f, tpd, x, true);
  }

  lemma SavedNothing(f: set<Fault>, tpd: nat, x: Sys) returns (y: Sys)
    requires Reachable(f, tpd, x) && x.reset.NoReset? && x.cur.None?
    ensures Reachable(f, tpd, y) && y == x.(reset := Saved)
  {
    y := ResetPicks(f, tpd, x);
  }

  /** The day's grants are saved and memory is dropped by a reset. */
  lemma SavedDayIsReachable(f: set<Fault>, tpd: nat) returns (y: Sys)
    ensures Reachable(f, tpd, y)
    ensures y == SpentDay(tpd).(disk := tpd, cur := None, gate := None, since := y.since, lost := y.lost)
  {
    var x := SpentDayIsReachable(f, tpd);
    y := WholeReset(f, tpd, x, true);
  }

  lemma Adopts(f: set<Fault>, tpd: nat, x: Sys, g: nat) returns (y: Sys)
    requires Reachable(f, tpd, x) && OfToday(x) && Now(x) == 0
    requires g < |x.onces| && x.onces[g] == Once(x.today, Adopting(tpd, x.cur.value))
    ensures Reachable(f, tpd, y)
    ensures y == x.(objs := x.objs[x.cur.value := Bucket(x.today, tpd)], onces := x.onces[g := Once(x.today, Done)],
                    lost := y.lost)
  {
    Go(f, tpd, x, Adopt(g));
    y := Step(tpd, x, Adopt(g));
  }

  /** A call that only looks at a full counter changes nothing. */
  lemma Peeks(f: set<Fault>, tpd: nat, x: Sys, k: nat) returns (y: Sys)
    requires Reachable(f, tpd, x) && Enabled(x, Fetch(k, x.today)) && x.calls[k].n == 0
    requires OfToday(x) && x.objs[x.cur.value] == Bucket(x.today, tpd)
    ensures Reachable(f, tpd, y)
    ensures y == x.(calls := x.calls[k := x.calls[k].(pc := Finished)], since := y.since, lost := y.lost)
  {
    var z := GetCounter(f, tpd, x, k);
    assert Spent(z.objs[x.cur.value], x.today, tpd, 0) == Bucket(x.today, tpd);
    y := Lock(f, tpd, z, k);
    assert z.calls[k := z.calls[k].(pc := Finished)] == x.calls[k := x.calls[k].(pc := Finished)];
    assert x.objs[x.cur.value := Bucket(x.today, tpd)] == x.objs;
  }

  /**
   * A reset finds no counter to save; a preload makes one, a flush writes it before the preload raises it; the reset
   * then drops it.
   */
  lemma FlushInsideAResetGrantsTwice(f: set<Fault>, tpd: nat)
    requires SaveUndone in f && tpd > 0
    ensures GrantsTwice(f, tpd)
  {
    var x := SavedDayIsReachable(f, tpd);
    x := SavedNothing(f, tpd, x);
    x := FetchedStored(f, tpd, x, 0);
    x := WholeFlush(f, tpd, x);
    x := Adopts(f, tpd, x, 1);
    x := Peeks(f, tpd, x, 1);
    x := ResetDrops(f, tpd, x);
    StartsOver(f, tpd, x, true);
  }

  /** After a saved reset, a preload whose read fails uses up the gate and starts from 0. */
  lemma FailedReadGrantsTwice(f: set<Fault>, tpd: nat)
    requires ReadFails in f
    ensures GrantsTwice(f, tpd)
  {
    var x := SavedDayIsReachable(f, tpd);
    StartsOver(f, tpd, x, false);
  }

  /** A call that passed its gate before a reset gets a new counter after it. */
  lemma ResetInsideACallGrantsTwice(f: set<Fault>, tpd: nat)
    requires DropMeetsCall in f
    ensures GrantsTwice(f, tpd)
  {
    var x := SpentDayIsReachable(f, tpd);
    x := EnterGated(f, tpd, x, tpd);
    var y := WholeReset(f, tpd, x, true);
    y := SpendAll(f, tpd, y, 1);
  }

  /** A call that begins inside a reset, between the loop that drops the counters and the one that drops the gates. */
  lemma CallInsideAResetGrantsTwice(f: set<Fault>, tpd: nat)
    requires JoinsBetweenDrops in f
    ensures GrantsTwice(f, tpd)
  {
    var x := SpentDayIsReachable(f, tpd);
    var y := ResetSaves(f, tpd, x, true);
    Go(f, tpd, y, DropCounter);
    StartsOverGated(f, tpd, Step(tpd, y, DropCounter));
  }

  /** A flush picks a counter that a reset drops, and writes it over what a later reset saves. */
  lemma StaleFlushGrantsTwice(f: set<Fault>, tpd: nat)
    requires DropMeetsFlush in f
    ensures GrantsTwice(f, tpd)
  {
    var x := PickedThenDropped(f, tpd);
    x := EnterFresh(f, tpd, x, tpd, true);
    x := SpendAll(f, tpd, x, 1);
    x := ResetSaves(f, tpd, x, true);
    WrittenOver(f, tpd, x);
  }

  /** One call has looked at an empty day. */
  lemma PeekedDay(f: set<Fault>, tpd: nat) returns (y: Sys)
    ensures Reachable(f, tpd, y)
    ensures y == Start(0).(objs := [Bucket(0, 0)], cur := Some(0), onces := [Once(0, Done)], gate := Some(0),
                           calls := [Call(0, 0, Finished)], since := y.since, lost := y.lost)
  {
    StartIsReachable(f, tpd);
    y := EnterFresh(f, tpd, Start(0), 0, true);
    assert [] + [Once(0, Done)] == [Once(0, Done)];
    y := GetCounter(f, tpd, y, 0);
    assert y.objs == [Bucket(0, 0)];
    y := Lock(f, tpd, y, 0);
    assert y.calls == [Call(0, 0, Finished)] && y.objs == [Bucket(0, 0)];
  }

  lemma PickedThenDropped(f: set<Fault>, tpd: nat) returns (y: Sys)
    requires DropMeetsFlush in f
    ensures Reachable(f, tpd, y)
    ensures y == Start(0).(objs := [Bucket(0, 0)], onces := [Once(0, Done)], calls := [Call(0, 0, Finished)],
                           flushes := [Flush(0, FlushPicked(0))], since := y.since, lost := y.lost)
  {
    var x := PeekedDay(f, tpd);
    x := PickForFlush(f, tpd, x);
    y := WholeReset(f, tpd, x, true);
  }

  lemma WrittenOver(f: set<Fault>, tpd: nat, x: Sys)
    requires Reachable(f, tpd, x) && x.reset.Saved? && x.granted == tpd && CallsOut(x)
    requires x.flushes == [Flush(x.today, FlushPicked(0))] && |x.objs| > 0 && x.objs[0] == Bucket(x.today, 0)
    requires x.cur != Some(0)
    ensures GrantsTwice(f, tpd)
  {
    Go(f, tpd, x, FlushWrite(0, true));
    var y := Step(tpd, x, FlushWrite(0, true));
    y := ResetDrops(f, tpd, y);
    StartsOver(f, tpd, y, true);
  }

  /** The janitor finds yesterday's counter, a call makes it today's, the janitor deletes it. */
  lemma SweepInsideACallGrantsTwice(f: set<Fault>, tpd: nat)
    requires SweepsToday in f
    ensures GrantsTwice(f, tpd)
  {
    var x := FoundStale(f, tpd);
    SweptUnderACall(f, tpd, x);
  }

  /** The janitor has found yesterday's counter and not yet deleted it. */
  lemma FoundStale(f: set<Fault>, tpd: nat) returns (x: Sys)
    ensures Reachable(f, tpd, x) && x.sweep == SweepChecked(true) && x.reset.NoReset? && x.gate.None?
    ensures x.disk == 0 && x.granted == 0 && x.cur.Some? && x.cur.value < |x.objs| && !OfToday(x)
  {
    x := SpentDayIsReachable(f, tpd);
    Go(f, tpd, x, Midnight);
    x := SweepChecks(f, tpd, Step(tpd, x, Midnight));
  }

  lemma SweepChecks(f: set<Fault>, tpd: nat, x: Sys) returns (y: Sys)
    requires Reachable(f, tpd, x) && x.sweep.NoSweep? && (x.cur.Some? ==> x.cur.value < |x.objs|)
    ensures Reachable(f, tpd, y)
    ensures y == x.(sweep := SweepChecked(x.cur.Some? && x.objs[x.cur.value].day != x.today))
  {
    Go(f, tpd, x, SweepBegin);
    y := Step(tpd, x, SweepBegin);
    Go(f, tpd, y, SweepCheck);
    y := Step(tpd, y, SweepCheck);
  }

  lemma SweptUnderACall(f: set<Fault>, tpd: nat, x: Sys)
    requires SweepsToday in f && Reachable(f, tpd, x) && x.sweep == SweepChecked(true) && x.reset.NoReset?
    requires x.gate.None? && x.disk == 0 && x.granted == 0 && x.cur.Some? && x.cur.value < |x.objs| && !OfToday(x)
    ensures GrantsTwice(f, tpd)
  {
    var y := EnterFresh(f, tpd, x, tpd, true);
    y := SpendAll(f, tpd, y, |x.calls|);
    Go(f, tpd, y, SweepDelete);
    StartsOverGated(f, tpd, Step(tpd, y, SweepDelete));
  }

  /** The janitor deletes yesterday's counter while a call holds it; the call is granted on the deleted counter. */
  lemma SweepUnderAHolderGrantsTwice(f: set<Fault>, tpd: nat)
    requires SweepsHeld in f
    ensures GrantsTwice(f, tpd)
  {
    var x := FoundStale(f, tpd);
    var k := |x.calls|;
    var y := EnterFresh(f, tpd, x, tpd, true);
    y := GetCounter(f, tpd, y, k);
    assert Held(y) by { assert y.calls[k].pc.Dated?; }
    Go(f, tpd, y, SweepDelete);
    ChargedOnDeleted(f, tpd, Step(tpd, y, SweepDelete), k);
  }

  lemma ChargedOnDeleted(f: set<Fault>, tpd: nat, x: Sys, k: nat)
    requires Reachable(f, tpd, x) && x.reset.NoReset? && x.granted == 0 && GateUsed(x) && x.cur.None?
    requires k < |x.calls| && x.calls[k].n == tpd && x.calls[k].pc.Dated? && x.calls[k].pc.day == x.today
    requires x.calls[k].pc.o < |x.objs| && x.objs[x.calls[k].pc.o].day != x.today
    ensures GrantsTwice(f, tpd)
  {
    var y := Lock(f, tpd, x, k);
    StartsOverGated(f, tpd, y);
  }

  /**
   * The janitor's gate pass began before midnight. A preload has made its counter when a flush writes it and the
   * janitor deletes the gate; the next call opens another and finds nothing in the store.
   */
  lemma SweptGateGrantsTwice(f: set<Fault>, tpd: nat)
    requires SweepsGate in f && FlushInPreload in f && tpd > 0
    ensures GrantsTwice(f, tpd)
  {
    var x := GatePassBegun(f, tpd);
    x := EnterFresh(f, tpd, x, tpd, true);
    x := SpendAll(f, tpd, x, 0);
    x := WholeReset(f, tpd, x, true);
    x := FetchedStored(f, tpd, x, 0);
    x := WholeFlush(f, tpd, x);
    GateDeleted(f, tpd, x);
  }

  lemma GateDeleted(f: set<Fault>, tpd: nat, x: Sys)
    requires SweepsGate in f && Reachable(f, tpd, x) && x.sweep.SweepDated? && x.sweep.day != x.today
    requires x.granted == tpd && x.disk == 0 && OfToday(x) && Now(x) == 0 && x.reset.NoReset?
    ensures GrantsTwice(f, tpd)
  {
    Go(f, tpd, x, SweepGate);
    var y := EnterFresh(f, tpd, Step(tpd, x, SweepGate), tpd, true);
    y := SpendAll(f, tpd, y, |x.calls|);
  }

  lemma GatePassBegun(f: set<Fault>, tpd: nat) returns (x: Sys)
    ensures Reachable(f, tpd, x) && x == Start(1).(sweep := SweepDated(0))
  {
    StartIsReachable(f, tpd);
    x := CountersSwept(f, tpd, Start(0));
    Go(f, tpd, x, SweepDate);
    x := Step(tpd, x, SweepDate);
    Go(f, tpd, x, Midnight);
    x := Step(tpd, x, Midnight);
  }

  /** The first half of a janitor's pass, over the counters, where there are none. */
  lemma CountersSwept(f: set<Fault>, tpd: nat, x: Sys) returns (y: Sys)
    requires Reachable(f, tpd, x) && x.sweep.NoSweep? && x.cur.None?
    ensures Reachable(f, tpd, y) && y == x.(sweep := SweepSwept)
  {
    y := SweepChecks(f, tpd, x);
    Go(f, tpd, y, SweepDelete);
    y := Step(tpd, y, SweepDelete);
  }

  /** A call that read the clock before midnight rolls today's counter back when it gets the lock. */
  lemma LateCallGrantsTwice(f: set<Fault>, tpd: nat)
    requires LateCharge in f
    ensures GrantsTwice(f, tpd)
  {
    var x := SpentDayIsReachable(f, tpd);
    x := EnterGated(f, tpd, x, 0);
    x := GetCounter(f, tpd, x, 1);
    Go(f, tpd, x, Midnight);
    x := Step(tpd, x, Midnight);
    RolledBack(f, tpd, x, 1);
  }

  lemma RolledBack(f: set<Fault>, tpd: nat, x: Sys, k: nat)
    requires LateCharge in f && Reachable(f, tpd, x) && x.reset.NoReset?
    requires x.gate.None? && x.disk == 0 && x.granted == 0
    requires k < |x.calls| && x.cur.Some? && x.cur.value < |x.objs| && !OfToday(x)
    requires x.calls[k].n == 0 && x.calls[k].pc.Dated? && x.calls[k].pc.o == x.cur.value && x.calls[k].pc.day < x.today
    ensures GrantsTwice(f, tpd)
  {
    var y := EnterFresh(f, tpd, x, tpd, true);
    y := SpendAll(f, tpd, y, |x.calls|);
    y := Lock(f, tpd, y, k);
    StartsOverGated(f, tpd, y);
  }
}
