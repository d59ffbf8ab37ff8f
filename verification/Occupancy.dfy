/**
 * Every interleaving of admissions, growth, corrections and releases on one model state.
 *
 * Each event is one lock-protected section of one goroutine. A reservation's own lock is held from the
 * start to the end of Grow and Adjust, and is dropped by Release before the shared state is updated. A
 * replaced channel is closed by a later event, after the state lock is released.
 */
module Occupancy {
  import opened Admission

  /** Deltas already in the reservation's weight but not yet in the shared sum are pending. */
  datatype Phase = Idle | Growing(delta: int) | Adjusting(delta: int) | Releasing | Returned

  datatype Held = Held(grows: bool, weight: int, phase: Phase)

  /** Where an AdmitWithin call is: before its first try, in the loop, holding a channel, or blocked on it. */
  datatype Pc = First | Looping | Grabbed(ch: nat) | Parked(ch: nat) | Admitted | Refused

  datatype Call = Call(weight: nat, grows: bool, budget: int, maxInflight: int, parks: bool, pc: Pc)

  /** `closing`: replaced but not yet closed. The last three fields remember the last admission. */
  datatype Cell = Cell(
    c: Counters,
    closing: set<nat>,
    closed: set<nat>,
    held: seq<Held>,
    calls: seq<Call>,
    admitBudget: int,
    admitMax: int,
    growth: int)

  const FRESH := Cell(Counters(0, 0, 0), {}, {}, [], [], 0, 0, 0)

  datatype Event =
    | Start(weight: nat, grows: bool, budget: int, maxInflight: int, parks: bool)
    | Try(k: nat)
    | Grab(k: nat)
    | Wake(k: nat)
    | GiveUp(k: nat)
    | GrowStart(r: nat, tokens: int)
    | GrowEnd(r: nat)
    | AdjustStart(r: nat, delta: int)
    | AdjustEnd(r: nat)
    | ReleaseStart(r: nat)
    | ReleaseEnd(r: nat)
    | CloseChannel(ch: nat)

  predicate Doomed(call: Call) {
    call.budget > 0 && call.weight > call.budget
  }

  predicate Enabled(x: Cell, ev: Event) {
    match ev
    case Start(_, _, _, _, _) => true
    case Try(k) => k < |x.calls| && (x.calls[k].pc.First? || x.calls[k].pc.Grabbed?)
    case Grab(k) => k < |x.calls| && x.calls[k].pc.Looping?
    case Wake(k) => k < |x.calls| && x.calls[k].pc.Parked? && x.calls[k].pc.ch in x.closed
    case GiveUp(k) => k < |x.calls| && x.calls[k].pc.Parked?
    case GrowStart(r, tokens) => r < |x.held| && x.held[r].phase.Idle?
    case GrowEnd(r) => r < |x.held| && x.held[r].phase.Growing?
    case AdjustStart(r, delta) => r < |x.held| && x.held[r].phase.Idle?
    case AdjustEnd(r) => r < |x.held| && x.held[r].phase.Adjusting?
    case ReleaseStart(r) => r < |x.held| && x.held[r].phase.Idle?
    case ReleaseEnd(r) => r < |x.held| && x.held[r].phase.Releasing?
    case CloseChannel(ch) => ch in x.closing
  }

  function SetPc(x: Cell, k: nat, pc: Pc): Cell
    requires k < |x.calls|
  {
    x.(calls := x.calls[k := x.calls[k].(pc := pc)])
  }

  function SetHeld(x: Cell, r: nat, h: Held): Cell
    requires r < |x.held|
  {
    x.(held := x.held[r := h])
  }

  /** tryReserve and what AdmitWithin does with its answer. */
  function Attempt(x: Cell, k: nat): Cell
    requires k < |x.calls|
  {
    var call := x.calls[k];
    if HasRoom(x.c, call.weight, call.budget, call.maxInflight) then
      SetPc(x, k, Admitted).(
        c := Reserved(x.c, call.weight),
        held := x.held + [Held(call.grows, call.weight, Idle)],
        admitBudget := call.budget, admitMax := call.maxInflight, growth := 0)
    else if call.pc.Grabbed? then SetPc(x, k, Parked(call.pc.ch))
    else SetPc(x, k, if Doomed(call) || !call.parks then Refused else Looping)
  }

  /** The correction actually applied: never more than the reservation holds. */
  function Capped(delta: int, weight: int): int {
    if delta < -weight then -weight else delta
  }

  function Next(x: Cell, ev: Event): Cell
    requires Enabled(x, ev)
  {
    match ev
    case Start(w, grows, budget, maxInflight, parks) =>
      x.(calls := x.calls + [Call(w, grows, budget, maxInflight, parks, First)])
    case Try(k) => Attempt(x, k)
    case Grab(k) => SetPc(x, k, Grabbed(x.c.notify))
    case Wake(k) => SetPc(x, k, Looping)
    case GiveUp(k) => SetPc(x, k, Refused)
    case GrowStart(r, tokens) =>
      var h := x.held[r];
      if tokens <= 0 || !h.grows then x else SetHeld(x, r, h.(weight := h.weight + tokens, phase := Growing(tokens)))
    case GrowEnd(r) =>
      var d := x.held[r].phase.delta;
      SetHeld(x, r, x.held[r].(phase := Idle)).(c := Grown(x.c, d), growth := x.growth + d)
    case AdjustStart(r, delta) =>
      var h := x.held[r];
      var d := Capped(delta, h.weight);
      if d == 0 then x else SetHeld(x, r, h.(weight := h.weight + d, phase := Adjusting(d)))
    case AdjustEnd(r) =>
      var d := x.held[r].phase.delta;
      SetHeld(x, r, x.held[r].(phase := Idle)).(
        c := Adjusted(x.c, d),
        growth := if d > 0 then x.growth + d else x.growth,
        closing := if d < 0 then x.closing + {x.c.notify} else x.closing)
    case ReleaseStart(r) => SetHeld(x, r, x.held[r].(phase := Releasing))
    case ReleaseEnd(r) =>
      SetHeld(x, r, x.held[r].(phase := Returned)).(
        c := HandedBack(x.c, x.held[r].weight),
        closing := x.closing + {x.c.notify})
    case CloseChannel(ch) => x.(closing := x.closing - {ch}, closed := x.closed + {ch})
  }

  /** The request fits beside what is in flight. */
  predicate Roomy(x: Cell, call: Call) {
    && (call.budget <= 0 || x.c.sumW + call.weight <= call.budget)
    && (call.maxInflight <= 0 || x.c.count < call.maxInflight)
  }

  /**
   * An attempt admits exactly when the request fits. Otherwise a call that has looked at the channel parks on it, and
   * one at its first attempt goes on to look unless it may not wait or is larger than its budget.
   */
  lemma AttemptIs(x: Cell, k: nat)
    requires Enabled(x, Try(k))
    ensures var y, call := Next(x, Try(k)), x.calls[k];
            && |y.calls| == |x.calls| && (forall j :: 0 <= j < |x.calls| && j != k ==> y.calls[j] == x.calls[j])
            && (Roomy(x, call) ==>
                  && y.calls[k].pc == Admitted && y.c.sumW == x.c.sumW + call.weight && y.c.count == x.c.count + 1
                  && y.held == x.held + [Held(call.grows, call.weight, Idle)])
            && (!Roomy(x, call) ==> y.c == x.c && y.held == x.held)
            && (!Roomy(x, call) && call.pc.Grabbed? ==> y.calls[k].pc == Parked(call.pc.ch))
            && (!Roomy(x, call) && call.pc.First? ==>
                  y.calls[k].pc == if call.parks && (call.budget <= 0 || call.weight <= call.budget) then Looping
                                   else Refused)
  {
  }

  /** Both halves of a growth: a positive amount is charged to a reservation that grows, and to the sum, or nothing. */
  lemma GrowthIs(x: Cell, r: nat, tokens: int)
    requires Enabled(x, GrowStart(r, tokens))
    ensures var y := Next(x, GrowStart(r, tokens));
            var charged := if tokens > 0 && x.held[r].grows then tokens else 0;
            && y.held[r].weight == x.held[r].weight + charged && y.c == x.c
            && (charged == 0 ==> y == x)
            && (charged > 0 ==>
                  && Enabled(y, GrowEnd(r)) && Next(y, GrowEnd(r)).c == x.c.(sumW := x.c.sumW + charged)
                  && Next(y, GrowEnd(r)).held[r] == x.held[r].(weight := x.held[r].weight + charged))
  {
  }

  /** Both halves of a correction: never more than the reservation holds, the same for the reservation and the sum. */
  lemma CorrectionIs(x: Cell, r: nat, delta: int)
    requires Enabled(x, AdjustStart(r, delta)) && x.held[r].weight >= 0
    ensures var y := Next(x, AdjustStart(r, delta));
            var applied := if x.held[r].weight + delta >= 0 then delta else -x.held[r].weight;
            && y.held[r].weight == x.held[r].weight + applied && y.c == x.c
            && (applied == 0 ==> y == x)
            && (applied != 0 ==>
                  && Enabled(y, AdjustEnd(r))
                  && Next(y, AdjustEnd(r)).held[r] == x.held[r].(weight := x.held[r].weight + applied)
                  && Next(y, AdjustEnd(r)).c.notify == x.c.notify + (if applied < 0 then 1 else 0)
                  && (x.c.sumW + applied >= 0 ==> Next(y, AdjustEnd(r)).c.sumW == x.c.sumW + applied))
  {
  }

  // ----- conservation

  /** What a reservation has charged to the shared sum so far and not handed back. */
  function Charged(h: Held): int {
    match h.phase
    case Idle => h.weight
    case Growing(d) => h.weight - d
    case Adjusting(d) => h.weight - d
    case Releasing => h.weight
    case Returned => 0
  }

  function Live(h: Held): nat {
    if h.phase.Returned? then 0 else 1
  }

  function TotalCharged(hs: seq<Held>): int {
    if hs == [] then 0 else TotalCharged(hs[..|hs| - 1]) + Charged(hs[|hs| - 1])
  }

  function TotalLive(hs: seq<Held>): nat {
    if hs == [] then 0 else TotalLive(hs[..|hs| - 1]) + Live(hs[|hs| - 1])
  }

  ghost predicate GoodHeld(h: Held) {
    && h.weight >= 0 && Charged(h) >= 0
    && (h.phase.Growing? ==> h.phase.delta > 0)
    && (h.phase.Adjusting? ==> h.phase.delta != 0)
  }

  ghost predicate AllGood(hs: seq<Held>) {
    forall i :: 0 <= i < |hs| ==> GoodHeld(hs[i])
  }

  /** The counters are exactly what the reservations not yet handed back account for. */
  ghost predicate Conserved(x: Cell) {
    AllGood(x.held) && x.c.sumW == TotalCharged(x.held) && x.c.count == TotalLive(x.held)
  }

  lemma {:induction false} TotalsAfterUpdate(hs: seq<Held>, i: nat, h: Held)
    requires i < |hs|
    ensures TotalCharged(hs[i := h]) == TotalCharged(hs) - Charged(hs[i]) + Charged(h)
    ensures TotalLive(hs[i := h]) == TotalLive(hs) - Live(hs[i]) + Live(h)
  {
    var n := |hs| - 1;
    if i == n {
      assert hs[i := h][..n] == hs[..n];
    } else {
      TotalsAfterUpdate(hs[..n], i, h);
      assert hs[i := h][..n] == hs[..n][i := h];
    }
  }

  lemma TotalsAfterAppend(hs: seq<Held>, h: Held)
    ensures TotalCharged(hs + [h]) == TotalCharged(hs) + Charged(h) && TotalLive(hs + [h]) == TotalLive(hs) + Live(h)
  {
    assert (hs + [h])[..|hs|] == hs;
  }

  lemma {:induction false} TotalCoversEach(hs: seq<Held>, i: nat)
    requires AllGood(hs) && i < |hs|
    ensures TotalCharged(hs) >= Charged(hs[i]) && TotalLive(hs) >= Live(hs[i])
  {
    var n := |hs| - 1;
    if i < n { TotalCoversEach(hs[..n], i); } else { TotalsNotNegative(hs[..n]); }
  }

  lemma {:induction false} TotalsNotNegative(hs: seq<Held>)
    requires AllGood(hs)
    ensures TotalCharged(hs) >= 0
  {
    if hs != [] { TotalsNotNegative(hs[..|hs| - 1]); }
  }

  /** Changing one reservation and the counters by the same amounts conserves. */
  lemma ChangeConserves(x: Cell, r: nat, h: Held, y: Cell)
    requires Conserved(x) && r < |x.held| && GoodHeld(h) && y.held == x.held[r := h]
    requires y.c.sumW == x.c.sumW - Charged(x.held[r]) + Charged(h)
    requires y.c.count == x.c.count - Live(x.held[r]) + Live(h)
    ensures Conserved(y)
  {
    TotalsAfterUpdate(x.held, r, h);
  }

  lemma TryConserves(x: Cell, k: nat)
    requires Conserved(x) && Enabled(x, Try(k))
    ensures Conserved(Next(x, Try(k)))
  {
    TotalsAfterAppend(x.held, Held(x.calls[k].grows, x.calls[k].weight, Idle));
  }

  lemma GrowConserves(x: Cell, ev: Event)
    requires Conserved(x) && Enabled(x, ev) && (ev.GrowStart? || ev.GrowEnd?)
    ensures Conserved(Next(x, ev))
  {
    var y := Next(x, ev);
    assert GoodHeld(x.held[ev.r]);
    if y != x { ChangeConserves(x, ev.r, y.held[ev.r], y); }
  }

  lemma AdjustConserves(x: Cell, ev: Event)
    requires Conserved(x) && Enabled(x, ev) && (ev.AdjustStart? || ev.AdjustEnd?)
    ensures Conserved(Next(x, ev))
  {
    var y := Next(x, ev);
    assert GoodHeld(x.held[ev.r]);
    ClampsNeverFire(x, ev.r);
    if y != x { ChangeConserves(x, ev.r, y.held[ev.r], y); }
  }

  lemma ReleaseConserves(x: Cell, ev: Event)
    requires Conserved(x) && Enabled(x, ev) && (ev.ReleaseStart? || ev.ReleaseEnd?)
    ensures Conserved(Next(x, ev))
  {
    var y := Next(x, ev);
    assert GoodHeld(x.held[ev.r]);
    ClampsNeverFire(x, ev.r);
    ChangeConserves(x, ev.r, y.held[ev.r], y);
  }

  lemma StepConserves(x: Cell, ev: Event)
    requires Conserved(x) && Enabled(x, ev)
    ensures Conserved(Next(x, ev))
  {
    match ev
    case Try(k) => TryConserves(x, k);
    case GrowStart(_, _) => GrowConserves(x, ev);
    case GrowEnd(_) => GrowConserves(x, ev);
    case AdjustStart(_, _) => AdjustConserves(x, ev);
    case AdjustEnd(_) => AdjustConserves(x, ev);
    case ReleaseStart(_) => ReleaseConserves(x, ev);
    case ReleaseEnd(_) => ReleaseConserves(x, ev);
    case _ =>
  }

  /** In a conserved state no clamp to zero changes anything. */
  lemma ClampsNeverFire(x: Cell, r: nat)
    requires Conserved(x) && r < |x.held|
    ensures x.held[r].phase.Releasing? ==> x.c.sumW - x.held[r].weight >= 0 && x.c.count - 1 >= 0
    ensures x.held[r].phase.Adjusting? ==> x.c.sumW + x.held[r].phase.delta >= 0
  {
    TotalCoversEach(x.held, r);
  }

  // ----- wake-ups

  ghost predicate Blocked(x: Cell, call: Call) {
    call.pc.Parked? && call.pc.ch !in x.closing && call.pc.ch !in x.closed
  }

  ghost predicate GoodCall(x: Cell, call: Call) {
    && (call.pc.Grabbed? || call.pc.Parked? ==> call.pc.ch <= x.c.notify)
    && (call.pc.Looping? || call.pc.Grabbed? || call.pc.Parked? ==> call.parks && !Doomed(call))
    && (call.pc.Parked? && call.pc.ch == x.c.notify ==> !HasRoom(x.c, call.weight, call.budget, call.maxInflight))
  }

  /** Replaced channels are being closed or closed, never both, and the current one is neither. */
  ghost predicate Signalled(x: Cell) {
    && (forall ch: nat :: ch in x.closing || ch in x.closed <==> ch < x.c.notify)
    && x.closing !! x.closed
  }

  ghost predicate Woken(x: Cell) {
    Signalled(x) && forall k :: 0 <= k < |x.calls| ==> GoodCall(x, x.calls[k])
  }

  /** Sums only fall together with a change of channel. */
  lemma FallsOnlyWithNewChannel(x: Cell, ev: Event)
    requires Conserved(x) && Enabled(x, ev)
    ensures var y := Next(x, ev);
            x.c.notify <= y.c.notify
            && (y.c.notify == x.c.notify ==> y.c.sumW >= x.c.sumW && y.c.count >= x.c.count)
  {
    if ev.GrowEnd? { assert GoodHeld(x.held[ev.r]); }
  }

  lemma StepKeepsSignals(x: Cell, ev: Event)
    requires Signalled(x) && Enabled(x, ev)
    ensures Signalled(Next(x, ev))
  {
  }

  lemma StepKeepsWakeUps(x: Cell, ev: Event)
    requires Conserved(x) && Woken(x) && Enabled(x, ev)
    ensures Woken(Next(x, ev))
  {
    var y := Next(x, ev);
    StepKeepsSignals(x, ev);
    FallsOnlyWithNewChannel(x, ev);
    forall k | 0 <= k < |y.calls| ensures GoodCall(y, y.calls[k]) {
      if k < |x.calls| { assert GoodCall(x, x.calls[k]); }
    }
  }

  // ----- the budget

  ghost predicate WithinBudget(x: Cell) {
    && (x.admitBudget > 0 ==> x.c.sumW <= x.admitBudget + x.growth)
    && (x.admitMax > 0 ==> x.c.count <= x.admitMax)
  }

  lemma StepKeepsBudget(x: Cell, ev: Event)
    requires Conserved(x) && WithinBudget(x) && Enabled(x, ev)
    ensures WithinBudget(Next(x, ev))
  {
    match ev
    case GrowEnd(r) => assert GoodHeld(x.held[r]);
    case AdjustEnd(r) => ClampsNeverFire(x, r);
    case ReleaseEnd(r) => ClampsNeverFire(x, r); assert GoodHeld(x.held[r]);
    case _ =>
  }

  // ----- every interleaving

  ghost predicate Run(xs: seq<Cell>, evs: seq<Event>) {
    && |xs| == |evs| + 1 && xs[0] == FRESH
    && forall i :: 0 <= i < |evs| ==> Enabled(xs[i], evs[i]) && xs[i + 1] == Next(xs[i], evs[i])
  }

  ghost predicate Inv(x: Cell) {
    Conserved(x) && Woken(x) && WithinBudget(x)
  }

  lemma StepKeepsInv(x: Cell, ev: Event)
    requires Inv(x) && Enabled(x, ev)
    ensures Inv(Next(x, ev))
  {
    StepConserves(x, ev);
    StepKeepsWakeUps(x, ev);
    StepKeepsBudget(x, ev);
  }

  lemma {:induction false} InvAlongRun(xs: seq<Cell>, evs: seq<Event>, i: nat)
    requires Run(xs, evs) && i < |xs|
    ensures Inv(xs[i])
  {
    if i > 0 {
      InvAlongRun(xs, evs, i - 1);
      StepKeepsInv(xs[i - 1], evs[i - 1]);
    }
  }

  /**
   * At every point of every interleaving the sum and the count are those of the reservations not yet
   * handed back, so no clamp to zero ever takes effect, and an empty state has no reservation at all.
   */
  lemma OccupancyIsConserved(xs: seq<Cell>, evs: seq<Event>, i: nat)
    requires Run(xs, evs) && i < |xs|
    ensures xs[i].c.sumW == TotalCharged(xs[i].held) >= 0 && xs[i].c.count == TotalLive(xs[i].held)
    ensures i < |evs| && evs[i].ReleaseEnd? ==>
              xs[i + 1].c.sumW == xs[i].c.sumW - xs[i].held[evs[i].r].weight && xs[i + 1].c.count == xs[i].c.count - 1
    ensures i < |evs| && evs[i].AdjustEnd? ==> xs[i + 1].c.sumW == xs[i].c.sumW + xs[i].held[evs[i].r].phase.delta
    ensures xs[i].c.count == 0 ==> forall r :: 0 <= r < |xs[i].held| ==> xs[i].held[r].phase.Returned?
  {
    InvAlongRun(xs, evs, i);
    TotalsNotNegative(xs[i].held);
    if i < |evs| && (evs[i].ReleaseEnd? || evs[i].AdjustEnd?) {
      ClampsNeverFire(xs[i], evs[i].r);
    }
    forall r | 0 <= r < |xs[i].held| ensures xs[i].c.count == 0 ==> xs[i].held[r].phase.Returned? {
      TotalCoversEach(xs[i].held, r);
    }
  }

  /**
   * No wake-up is lost: a call blocked on a channel that is neither closed nor about to be closed holds
   * the current channel, and its request still does not fit; and a state some call is so blocked on is
   * never empty. No channel is closed twice.
   */
  lemma NoLostWakeUp(xs: seq<Cell>, evs: seq<Event>, i: nat, k: nat)
    requires Run(xs, evs) && i < |xs| && k < |xs[i].calls|
    ensures var x, call := xs[i], xs[i].calls[k];
            Blocked(x, call) ==>
              && call.pc.ch == x.c.notify
              && !HasRoom(x.c, call.weight, call.budget, call.maxInflight) && !Roomy(x, call)
              && !(x.c.sumW == 0 && x.c.count == 0)
    ensures xs[i].closing !! xs[i].closed
  {
    InvAlongRun(xs, evs, i);
    assert GoodCall(xs[i], xs[i].calls[k]);
  }

  /** The sum exceeds the last admitting call's budget only by what has been charged since. */
  lemma BudgetHolds(xs: seq<Cell>, evs: seq<Event>, i: nat)
    requires Run(xs, evs) && i < |xs|
    ensures xs[i].admitBudget > 0 ==> xs[i].c.sumW <= xs[i].admitBudget + xs[i].growth
    ensures xs[i].admitMax > 0 ==> xs[i].c.count <= xs[i].admitMax
  {
    InvAlongRun(xs, evs, i);
  }
}
