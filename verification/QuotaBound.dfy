/** In every interleaving a day grants at most the limit and what the steps are shown to lose. */
module QuotaBound {
  import opened Prelude
  import opened Quota
  import opened QuotaSteps

  // ----- the invariant

  /** Nothing is dated after today, and the maps hold what exists. */
  ghost predicate Shaped(x: Sys) {
    && (x.cur.Some? ==> x.cur.value < |x.objs|)
    && (x.gate.Some? ==> x.gate.value < |x.onces| && x.onces[x.gate.value].day == x.today)
    && (forall o :: 0 <= o < |x.objs| ==> x.objs[o].day <= x.today)
    && (forall g :: 0 <= g < |x.onces| ==> x.onces[g].day <= x.today)
    && (forall k :: 0 <= k < |x.calls| ==> x.calls[k].day <= x.today && (x.calls[k].pc.Dated? ==>
          x.calls[k].pc.day <= x.today))
  }

  ghost predicate GoodOnce(tpd: nat, o: Once, today: nat) {
    o.day == today && (o.phase.Fetching? || o.phase.Adopting?) ==> o.phase.r <= tpd
  }

  /** No counter of today, stored, held or being adopted, is above the limit. */
  ghost predicate Bounded(tpd: nat, x: Sys) {
    && x.disk <= tpd
    && (forall o :: 0 <= o < |x.objs| && x.objs[o].day == x.today ==> x.objs[o].used <= tpd)
    && (forall g :: 0 <= g < |x.onces| ==> GoodOnce(tpd, x.onces[g], x.today))
  }

  ghost predicate Inv(tpd: nat, x: Sys) {
    Shaped(x) && Bounded(tpd, x) && x.granted <= Level(x) + x.lost
  }

  lemma LevelWithinLimit(tpd: nat, x: Sys)
    requires Shaped(x) && Bounded(tpd, x)
    ensures Level(x) <= tpd
  {
    if x.gate.Some? { assert GoodOnce(tpd, x.onces[x.gate.value], x.today); }
  }

  // ----- shape and bounds

  lemma PreloadKeepsShape(tpd: nat, x: Sys, e: Event)
    requires Shaped(x) && Enabled(x, e) && (e.Read? || e.FetchStored? || e.Adopt?)
    ensures Shaped(Step(tpd, x, e))
  {
  }

  lemma CallKeepsShape(tpd: nat, x: Sys, e: Event)
    requires Shaped(x) && Enabled(x, e) && (e.Begin? || e.Join? || e.Fetch? || e.Date? || e.Spend?)
    ensures Shaped(Step(tpd, x, e))
  {
  }

  lemma SaveKeepsShape(tpd: nat, x: Sys, e: Event)
    requires Shaped(x) && Enabled(x, e) && OfASave(e)
    ensures Shaped(Step(tpd, x, e))
  {
  }

  lemma RestKeepsShape(tpd: nat, x: Sys, e: Event)
    requires Shaped(x) && Enabled(x, e) && !OfACall(e) && !OfASave(e)
    ensures Shaped(Step(tpd, x, e))
  {
  }

  lemma StepKeepsShape(tpd: nat, x: Sys, e: Event)
    requires Shaped(x) && Enabled(x, e)
    ensures Shaped(Step(tpd, x, e))
  {
    if e.Read? || e.FetchStored? || e.Adopt? {
      PreloadKeepsShape(tpd, x, e);
    } else if OfACall(e) {
      CallKeepsShape(tpd, x, e);
    } else if OfASave(e) {
      SaveKeepsShape(tpd, x, e);
    } else {
      RestKeepsShape(tpd, x, e);
    }
  }

  lemma CallKeepsBounds(tpd: nat, x: Sys, e: Event)
    requires Shaped(x) && Bounded(tpd, x) && Enabled(x, e) && OfACall(e)
    ensures Bounded(tpd, Step(tpd, x, e))
  {
    var y := Step(tpd, x, e);
    forall g | 0 <= g < |y.onces| ensures GoodOnce(tpd, y.onces[g], y.today) {
      if g < |x.onces| { assert GoodOnce(tpd, x.onces[g], x.today); }
    }
  }

  lemma SaveKeepsBounds(tpd: nat, x: Sys, e: Event)
    requires Shaped(x) && Bounded(tpd, x) && Enabled(x, e) && OfASave(e)
    ensures Bounded(tpd, Step(tpd, x, e))
  {
    var y := Step(tpd, x, e);
    forall g | 0 <= g < |y.onces| ensures GoodOnce(tpd, y.onces[g], y.today) {
      if g < |x.onces| { assert GoodOnce(tpd, x.onces[g], x.today); }
    }
  }

  lemma RestKeepsBounds(tpd: nat, x: Sys, e: Event)
    requires Shaped(x) && Bounded(tpd, x) && Enabled(x, e) && !OfACall(e) && !OfASave(e)
    ensures Bounded(tpd, Step(tpd, x, e))
  {
    var y := Step(tpd, x, e);
    forall g | 0 <= g < |y.onces| ensures GoodOnce(tpd, y.onces[g], y.today) {
      if g < |x.onces| { assert GoodOnce(tpd, x.onces[g], x.today); }
    }
  }

  lemma StepKeepsBounds(tpd: nat, x: Sys, e: Event)
    requires Shaped(x) && Bounded(tpd, x) && Enabled(x, e)
    ensures Bounded(tpd, Step(tpd, x, e))
  {
    if OfACall(e) {
      CallKeepsBounds(tpd, x, e);
    } else if OfASave(e) {
      SaveKeepsBounds(tpd, x, e);
    } else {
      RestKeepsBounds(tpd, x, e);
    }
  }

  // ----- the level falls by no more than the cost

  lemma StoreKeepsLevel(x: Sys, day: nat)
    requires Shaped(x) && day <= x.today
    ensures var y := Stored(x, day);
            && Now(y) == Now(x) && y.gate == x.gate && Gated(y) == Gated(x) && y.disk == x.disk
            && y.cur == Some(Found(x))
            && (day == x.today || x.cur.Some? ==> OfToday(y) == (OfToday(x) || x.cur.None?))
  {
  }

  lemma JoinKeepsLevel(tpd: nat, x: Sys, e: Event)
    requires Inv(tpd, x) && Enabled(x, e) && e.Join?
    ensures Level(x) <= Level(Step(tpd, x, e))
  {
  }

  lemma ReadKeepsLevel(tpd: nat, x: Sys, e: Event)
    requires Inv(tpd, x) && Enabled(x, e) && e.Read?
    ensures Level(x) <= Level(Step(tpd, x, e)) + Cost(tpd, x, e)
  {
    var y := Step(tpd, x, e);
    assert Now(y) == Now(x);
  }

  lemma FetchStoredKeepsLevel(tpd: nat, x: Sys, e: Event)
    requires Inv(tpd, x) && Enabled(x, e) && e.FetchStored?
    ensures Level(x) <= Level(Step(tpd, x, e)) + Cost(tpd, x, e)
  {
    StoreKeepsLevel(x, e.day);
  }

  lemma FetchKeepsLevel(tpd: nat, x: Sys, e: Event)
    requires Inv(tpd, x) && Enabled(x, e) && e.Fetch?
    ensures Level(x) <= Level(Step(tpd, x, e)) + Cost(tpd, x, e)
  {
    StoreKeepsLevel(x, e.day);
  }

  lemma AdoptKeepsLevel(tpd: nat, x: Sys, e: Event)
    requires Inv(tpd, x) && Enabled(x, e) && e.Adopt?
    ensures Level(x) <= Level(Step(tpd, x, e)) + Cost(tpd, x, e)
  {
  }

  lemma SpendKeepsLevel(tpd: nat, x: Sys, e: Event)
    requires Inv(tpd, x) && Enabled(x, e) && e.Spend?
    ensures var got := Got(x.objs[x.calls[e.k].pc.o], x.calls[e.k].pc.day, tpd, x.calls[e.k].n);
            Level(x) + got <= Level(Step(tpd, x, e)) + Cost(tpd, x, e)
  {
  }

  lemma WriteKeepsLevel(tpd: nat, x: Sys, e: Event)
    requires Inv(tpd, x) && Enabled(x, e) && (e.FlushWrite? || e.ResetWrite?)
    ensures Level(x) <= Level(Step(tpd, x, e)) + Cost(tpd, x, e)
  {
  }

  lemma SweepKeepsLevel(tpd: nat, x: Sys, e: Event)
    requires Inv(tpd, x) && Enabled(x, e) && (e.SweepCheck? || e.SweepGate? || e.SweepBegin? || e.SweepDate?)
    ensures Level(x) <= Level(Step(tpd, x, e)) + Cost(tpd, x, e)
  {
  }

  lemma OtherKeepsLevel(tpd: nat, x: Sys, e: Event)
    requires Inv(tpd, x) && Enabled(x, e)
    requires e.Begin? || e.Date? || e.FlushBegin? || e.FlushPick? || e.ResetBegin? || e.ResetPick? || e.DropGate?
    ensures Level(x) <= Level(Step(tpd, x, e)) + Cost(tpd, x, e)
  {
  }

  /** Where memory goes, everything not on disk is written off. */
  lemma ForgettingIsCounted(tpd: nat, x: Sys, e: Event)
    requires Inv(tpd, x) && Enabled(x, e) && (e.DropCounter? || e.SweepDelete? || e.Crash? || e.Midnight?)
    ensures var y := Step(tpd, x, e); y.granted <= Level(y) + y.lost
  {
  }

  /** A step that grants nothing. */
  lemma LevelIsEnough(tpd: nat, x: Sys, e: Event)
    requires Inv(tpd, x) && Enabled(x, e) && !e.Spend? && !e.Midnight?
    requires Level(x) <= Level(Step(tpd, x, e)) + Cost(tpd, x, e)
    ensures var y := Step(tpd, x, e); y.granted <= Level(y) + y.lost
  {
  }

  lemma CallKeepsAccount(tpd: nat, x: Sys, e: Event)
    requires Inv(tpd, x) && Enabled(x, e) && OfACall(e)
    ensures var y := Step(tpd, x, e); y.granted <= Level(y) + y.lost
  {
    match e
    case Join(_) => JoinKeepsLevel(tpd, x, e);
    case Read(_, _, _) => ReadKeepsLevel(tpd, x, e);
    case FetchStored(_, _) => FetchStoredKeepsLevel(tpd, x, e);
    case Fetch(_, _) => FetchKeepsLevel(tpd, x, e);
    case Adopt(_) => AdoptKeepsLevel(tpd, x, e);
    case Spend(_) => SpendKeepsLevel(tpd, x, e);
    case _ => OtherKeepsLevel(tpd, x, e);
    if !e.Spend? { LevelIsEnough(tpd, x, e); }
  }

  lemma RestKeepsAccount(tpd: nat, x: Sys, e: Event)
    requires Inv(tpd, x) && Enabled(x, e) && !OfACall(e)
    ensures var y := Step(tpd, x, e); y.granted <= Level(y) + y.lost
  {
    if e.DropCounter? || e.SweepDelete? || e.Crash? || e.Midnight? {
      ForgettingIsCounted(tpd, x, e);
    } else {
      if e.FlushWrite? || e.ResetWrite? {
        WriteKeepsLevel(tpd, x, e);
      } else if e.SweepBegin? || e.SweepCheck? || e.SweepDate? || e.SweepGate? {
        SweepKeepsLevel(tpd, x, e);
      } else {
        OtherKeepsLevel(tpd, x, e);
      }
      LevelIsEnough(tpd, x, e);
    }
  }

  lemma StepKeepsInv(tpd: nat, x: Sys, e: Event)
    requires Inv(tpd, x) && Enabled(x, e)
    ensures Inv(tpd, Step(tpd, x, e))
  {
    StepKeepsShape(tpd, x, e);
    StepKeepsBounds(tpd, x, e);
    if OfACall(e) { CallKeepsAccount(tpd, x, e); } else { RestKeepsAccount(tpd, x, e); }
  }

  lemma {:induction false} InvAlongRun(tpd: nat, x: Sys, es: seq<Event>)
    requires Inv(tpd, x) && Possible(tpd, x, es)
    ensures Inv(tpd, Run(tpd, x, es))
    decreases |es|
  {
    if es != [] {
      StepKeepsInv(tpd, x, es[0]);
      InvAlongRun(tpd, Step(tpd, x, es[0]), es[1..]);
    }
  }

  /**
   * At every moment of every interleaving of calls, flushes, resets, sweeps, crashes and midnights, failed reads and
   * writes included, what the day granted exceeds the limit by at most what the guards of the steps let go.
   */
  lemma GrantsWithinLimitAndLoss(tpd: nat, today: nat, es: seq<Event>)
    requires Possible(tpd, Start(today), es)
    ensures var x := Run(tpd, Start(today), es); x.granted <= tpd + x.lost
  {
    InvAlongRun(tpd, Start(today), es);
    LevelWithinLimit(tpd, Run(tpd, Start(today), es));
  }
}
