/** When the daily limit holds: exactly when no step fails in a harmful way. */
module QuotaLimit {
  import opened Prelude
  import opened Quota
  import opened QuotaSteps
  import opened QuotaBound
  import opened QuotaQuiet
  import opened QuotaRuns

  // ----- quiet runs

  /** What the crashes of the current day found unsaved, given what they found so far. */
  function LossAfter(x: Sys, e: Event, sofar: nat): nat {
    if e.Midnight? then 0 else if e.Crash? then sofar + Unsaved(x) else sofar
  }

  function CrashLoss(tpd: nat, x: Sys, es: seq<Event>, sofar: nat): nat
    requires Possible(tpd, x, es)
    decreases |es|
  {
    if es == [] then sofar else CrashLoss(tpd, Step(tpd, x, es[0]), es[1..], LossAfter(x, es[0], sofar))
  }

  lemma QuietStep(f: set<Fault>, tpd: nat, x: Sys, e: Event)
    requires Steady(f, tpd, x) && Allowed(f, tpd, x, e)
    ensures Steady(f, tpd, Step(tpd, x, e))
  {
    StepKeepsInv(tpd, x, e);
    StaysQuiet(f, tpd, x, e);
  }

  lemma QuietLoss(f: set<Fault>, tpd: nat, x: Sys, e: Event)
    requires Steady(f, tpd, x) && Allowed(f, tpd, x, e)
    ensures Step(tpd, x, e).lost == LossAfter(x, e, x.lost)
  {
    QuietCost(f, tpd, x, e);
  }

  lemma StartIsSteady(f: set<Fault>, tpd: nat, today: nat)
    requires OnlyCrashes(f)
    ensures Steady(f, tpd, Start(today))
  {
  }

  lemma {:induction false} OnlyCrashesCost(f: set<Fault>, tpd: nat, x: Sys, es: seq<Event>)
    requires Steady(f, tpd, x) && Fair(f, tpd, x, es)
    ensures Possible(tpd, x, es) && Run(tpd, x, es).lost == CrashLoss(tpd, x, es, x.lost)
    decreases |es|
  {
    FairIsPossible(f, tpd, x, es);
    if es != [] {
      QuietLoss(f, tpd, x, es[0]);
      QuietStep(f, tpd, x, es[0]);
      OnlyCrashesCost(f, tpd, Step(tpd, x, es[0]), es[1..]);
    }
  }

  /**
   * When crashes are all that can go wrong, a day grants at most the limit and what each crash of that day found in
   * neither the store nor an earlier loss, over every interleaving of the rest.
   */
  lemma CrashesCostOnlyTheUnsaved(f: set<Fault>, tpd: nat, today: nat, es: seq<Event>)
    requires OnlyCrashes(f) && Fair(f, tpd, Start(today), es)
    ensures Possible(tpd, Start(today), es)
    ensures Run(tpd, Start(today), es).granted <= tpd + CrashLoss(tpd, Start(today), es, 0)
  {
    StartIsSteady(f, tpd, today);
    OnlyCrashesCost(f, tpd, Start(today), es);
    GrantsWithinLimitAndLoss(tpd, today, es);
  }

  /** A crash that finds nothing ahead of the store costs nothing. */
  lemma SavedCrashIsFree(tpd: nat, x: Sys)
    requires Inv(tpd, x) && !Behind(x, x.disk)
    ensures Unsaved(x) == 0
  {
    PendingIsCarried(x, x.disk);
  }

  lemma {:induction false} HarmlessNoLoss(f: set<Fault>, tpd: nat, x: Sys, es: seq<Event>)
    requires Harmless(f) && Steady(f, tpd, x) && Fair(f, tpd, x, es)
    ensures Possible(tpd, x, es) && CrashLoss(tpd, x, es, 0) == 0
    decreases |es|
  {
    FairIsPossible(f, tpd, x, es);
    if es != [] {
      if es[0].Crash? { SavedCrashIsFree(tpd, x); }
      QuietStep(f, tpd, x, es[0]);
      HarmlessNoLoss(f, tpd, Step(tpd, x, es[0]), es[1..]);
    }
  }

  /** Where no harmful step happens the day's grants stay within the limit, whatever the interleaving. */
  lemma DailyLimitHolds(f: set<Fault>, tpd: nat, today: nat, es: seq<Event>)
    requires Harmless(f) && Fair(f, tpd, Start(today), es)
    ensures Possible(tpd, Start(today), es) && Run(tpd, Start(today), es).granted <= tpd
  {
    StartIsSteady(f, tpd, today);
    HarmlessNoLoss(f, tpd, Start(today), es);
    CrashesCostOnlyTheUnsaved(f, tpd, today, es);
  }

  // ----- the limit

  lemma HarmfulResetGrantsTwice(f: set<Fault>, tpd: nat)
    requires tpd > 0
    requires || SaveFails in f || SaveMisses in f || SaveUndone in f || ChargesAfterSave in f
             || DropMeetsCall in f || DropMeetsFlush in f || JoinsBetweenDrops in f
    ensures GrantsTwice(f, tpd)
  {
    if SaveFails in f { FailedSaveGrantsTwice(f, tpd); }
    if SaveMisses in f { LateSaveGrantsTwice(f, tpd); }
    if SaveUndone in f { FlushInsideAResetGrantsTwice(f, tpd); }
    if ChargesAfterSave in f { ChargeInsideAResetGrantsTwice(f, tpd); }
    if DropMeetsCall in f { ResetInsideACallGrantsTwice(f, tpd); }
    if DropMeetsFlush in f { StaleFlushGrantsTwice(f, tpd); }
    if JoinsBetweenDrops in f { CallInsideAResetGrantsTwice(f, tpd); }
  }

  lemma HarmfulGrantsTwice(f: set<Fault>, tpd: nat)
    requires tpd > 0 && !Harmless(f)
    ensures GrantsTwice(f, tpd)
  {
    if SweepsToday in f {
      SweepInsideACallGrantsTwice(f, tpd);
    } else if SweepsHeld in f {
      SweepUnderAHolderGrantsTwice(f, tpd);
    } else if SweepsGate in f && FlushInPreload in f {
      SweptGateGrantsTwice(f, tpd);
    } else if ReadFails in f {
      FailedReadGrantsTwice(f, tpd);
    } else if LateCharge in f {
      LateCallGrantsTwice(f, tpd);
    } else if CrashUnsaved in f {
      CrashGrantsTwice(f, tpd);
    } else {
      HarmfulResetGrantsTwice(f, tpd);
    }
  }

  /**
   * The daily limit holds in every run if and only if no step fails but in one of two ways: the janitor deletes a gate
   * under its preload, or a flush writes a counter under its preload. Those two together, and each of the others
   * alone, let a day grant the whole limit twice.
   */
  lemma LimitHoldsIffHarmless(f: set<Fault>, tpd: nat)
    requires tpd > 0
    ensures Harmless(f) <==> forall y :: Reachable(f, tpd, y) ==> y.granted <= tpd
  {
    if Harmless(f) {
      forall y | Reachable(f, tpd, y) ensures y.granted <= tpd {
        var es :| Reached(f, tpd, es, y);
        DailyLimitHolds(f, tpd, 0, es);
      }
    } else {
      HarmfulGrantsTwice(f, tpd);
    }
  }

  // ----- what a crash finds unsaved

  /** A save of a covered counter leaves nothing unsaved. */
  lemma SaveLeavesNothing(f: set<Fault>, tpd: nat, x: Sys, e: Event)
    requires Steady(f, tpd, x) && FlushInPreload !in f && Allowed(f, tpd, x, e) && Saves(x, e)
    ensures Unsaved(Step(tpd, x, e)) == 0
  {
    QuietCost(f, tpd, x, e);
    OwnPartIsGood(x, e);
    PendingIsCarried(x, Step(tpd, x, e).disk);
  }

  lemma SinceCoversUnsaved(tpd: nat, x: Sys, e: Event)
    requires Enabled(x, e) && !Saves(x, e) && Unsaved(x) <= x.since
    requires Step(tpd, x, e).lost == LossAfter(x, e, x.lost)
    ensures var y := Step(tpd, x, e); Unsaved(y) <= y.since
  {
  }

  lemma StepSavesOrAdds(f: set<Fault>, tpd: nat, x: Sys, e: Event)
    requires Steady(f, tpd, x) && FlushInPreload !in f && Allowed(f, tpd, x, e) && Unsaved(x) <= x.since
    ensures var y := Step(tpd, x, e); Unsaved(y) <= y.since
  {
    if Saves(x, e) {
      SaveLeavesNothing(f, tpd, x, e);
    } else {
      QuietLoss(f, tpd, x, e);
      SinceCoversUnsaved(tpd, x, e);
    }
  }

  lemma {:induction false} UnsavedIsRecent(f: set<Fault>, tpd: nat, x: Sys, es: seq<Event>)
    requires Steady(f, tpd, x) && FlushInPreload !in f && Fair(f, tpd, x, es) && Unsaved(x) <= x.since
    ensures Possible(tpd, x, es) && Unsaved(Run(tpd, x, es)) <= Run(tpd, x, es).since
    decreases |es|
  {
    FairIsPossible(f, tpd, x, es);
    if es != [] {
      StepSavesOrAdds(f, tpd, x, es[0]);
      QuietStep(f, tpd, x, es[0]);
      UnsavedIsRecent(f, tpd, Step(tpd, x, es[0]), es[1..]);
    }
  }

  /**
   * The limit is granted and saved; after a crash the next preload has made its counter when a flush writes it over
   * the stored one. Nothing was granted since the last save, yet nothing is saved.
   */
  lemma FlushInsideAPreload(f: set<Fault>, tpd: nat)
    requires FlushInPreload in f && tpd > 0
    ensures exists y :: Reachable(f, tpd, y) && Unsaved(y) > y.since
  {
    var x := SavedThenLost(f, tpd);
    x := FetchedStored(f, tpd, x, 0);
    x := WholeFlush(f, tpd, x);
    assert Unsaved(x) > x.since;
  }

  lemma SavedThenLost(f: set<Fault>, tpd: nat) returns (y: Sys)
    ensures Reachable(f, tpd, y) && y == Start(0).(disk := tpd, granted := tpd)
  {
    var x := SpentDayIsReachable(f, tpd);
    x := WholeFlush(f, tpd, x);
    Go(f, tpd, x, Crash);
    y := Step(tpd, x, Crash);
  }

  /**
   * When crashes are all that can go wrong, what a crash finds unsaved is at most what was granted since the last
   * save, if and only if no flush writes a counter that a preload has made and not yet raised.
   */
  lemma CrashCostsTheRecentIff(f: set<Fault>, tpd: nat)
    requires tpd > 0 && OnlyCrashes(f)
    ensures FlushInPreload !in f <==> forall y :: Reachable(f, tpd, y) ==> Unsaved(y) <= y.since
  {
    if FlushInPreload in f {
      FlushInsideAPreload(f, tpd);
    } else {
      StartIsSteady(f, tpd, 0);
      forall y | Reachable(f, tpd, y) ensures Unsaved(y) <= y.since {
        var es :| Reached(f, tpd, es, y);
        UnsavedIsRecent(f, tpd, Start(0), es);
      }
    }
  }
}
