/** A request's cursor over its policy steps (internal/policy/executor.go, Session). */
module Session {
  import opened Evaluator
  import opened Funnel
  import opened Prelude
  import AgentSlots

  datatype PolicyStep = PolicyStep(filter: MatchFilter, excludeIf: Gates, maxTries: int)

  datatype Reason = AllStepsExhausted | ModelNotFound | NoAgentsAvailable | NoCapacity

  datatype Trigger = NoCandidates | MaxTries

  /** Why a step was left, with the gate trace when it had no candidate. */
  datatype StepDiag = StepDiag(stepNum: nat, trigger: Trigger, gates: seq<GateDiag>)

  /** The mutable part of a session. */
  datatype Cursor = Cursor(
    stepIdx: nat, stepTries: nat, stepFailed: set<AgentId>, lastReason: Reason,
    lastGates: seq<GateDiag>, diags: seq<StepDiag>)

  // ----- why a step without candidates has none

  /** The reason kept after a pass that found no candidate. */
  function ReasonAfter(reason: Reason, views: seq<View>, q: Query): Reason {
    if views == [] then ModelNotFound
    else if Drop(views, q, 2) == |views| then NoAgentsAvailable
    else if Drop(views, q, 3) + Drop(views, q, 4) == 0 && Drop(views, q, 6) > 0
            && Drop(views, q, 2) + Drop(views, q, 6) + Drop(views, q, 5) == |views| then NoCapacity
    else if Drop(views, q, 6) == 0 && Drop(views, q, 7) == 0 && reason == NoCapacity then NoAgentsAvailable
    else reason
  }

  predicate AnyFallsAt(views: seq<View>, q: Query, k: nat) {
    exists v :: v in views && FallsAt(v, q, k)
  }

  /** Waiting can help: some agent is full, or excluded by a metric gate that may clear. */
  predicate WorthWaiting(views: seq<View>, q: Query) {
    AnyFallsAt(views, q, 6) || AnyFallsAt(views, q, 7)
  }

  lemma {:induction false} FallenIsDropped(views: seq<View>, q: Query, k: nat, v: View)
    requires v in views && FallsAt(v, q, k)
    ensures Drop(views, q, k) > 0
  {
    if v != views[|views| - 1] { FallenIsDropped(views[..|views| - 1], q, k, v); }
  }

  lemma DropsAreAgents(views: seq<View>, q: Query, k: nat)
    ensures Drop(views, q, k) > 0 <==> AnyFallsAt(views, q, k)
  {
    if Drop(views, q, k) > 0 { DroppedAgentExists(views, q, k); }
    if AnyFallsAt(views, q, k) {
      var v :| v in views && FallsAt(v, q, k);
      FallenIsDropped(views, q, k, v);
    }
  }

  /**
   * After a pass without candidates the reason is "no capacity" exactly when waiting is worthwhile and either
   * nothing but health, earlier failures and load turned agents away, or an earlier pass already said so.
   */
  lemma NoCapacityIff(reason: Reason, views: seq<View>, q: Query)
    requires Eligible(views, q) == []
    ensures ReasonAfter(reason, views, q) == NoCapacity <==>
            if reason == NoCapacity then WorthWaiting(views, q)
            else
              && AnyFallsAt(views, q, 6)
              && !AnyFallsAt(views, q, 3) && !AnyFallsAt(views, q, 4) && !AnyFallsAt(views, q, 7)
  {
    FunnelIsAPartition(views, q);
    DropsAreAgents(views, q, 3);
    DropsAreAgents(views, q, 4);
    DropsAreAgents(views, q, 6);
    DropsAreAgents(views, q, 7);
  }

  /** The reason after a pass without candidates, from the agents' fates. */
  lemma ReasonIs(reason: Reason, views: seq<View>, q: Query)
    requires Eligible(views, q) == []
    ensures ReasonAfter(reason, views, q) ==
            if views == [] then ModelNotFound
            else if forall v :: v in views ==> !v.healthy || !v.backendHealthy then NoAgentsAvailable
            else if AnyFallsAt(views, q, 6) && !AnyFallsAt(views, q, 3) && !AnyFallsAt(views, q, 4)
                    && !AnyFallsAt(views, q, 7) then NoCapacity
            else if reason == NoCapacity && !WorthWaiting(views, q) then NoAgentsAvailable
            else reason
  {
    FunnelIsAPartition(views, q);
    DropsAreAgents(views, q, 3);
    DropsAreAgents(views, q, 4);
    DropsAreAgents(views, q, 6);
    DropsAreAgents(views, q, 7);
    AllUnhealthyIff(views, q);
  }

  lemma {:induction false} AllUnhealthyIff(views: seq<View>, q: Query)
    ensures Drop(views, q, 2) <= |views|
    ensures Drop(views, q, 2) == |views| <==> forall v :: v in views ==> !v.healthy || !v.backendHealthy
  {
    if views != [] {
      var n := |views| - 1;
      AllUnhealthyIff(views[..n], q);
      OneFate(views[n], q, 2);
      FateIs(views[n], q);
      assert forall v :: v in views <==> v in views[..n] || v == views[n];
    }
  }

  // ----- the budget

  /** A step whose budget is not set takes the router's default. */
  function Resolve(step: PolicyStep, globalMaxTries: int): PolicyStep {
    step.(maxTries := if step.maxTries <= 0 then globalMaxTries else step.maxTries)
  }

  /** Failures a step can take before it is left: at least one, whatever its budget. */
  function Budget(step: PolicyStep): nat {
    if step.maxTries > 1 then step.maxTries else 1
  }

  function TotalBudget(steps: seq<PolicyStep>): nat {
    if steps == [] then 0 else TotalBudget(steps[..|steps| - 1]) + Budget(steps[|steps| - 1])
  }

  lemma BudgetNext(steps: seq<PolicyStep>, i: nat)
    requires i < |steps|
    ensures TotalBudget(steps[..i + 1]) == TotalBudget(steps[..i]) + Budget(steps[i])
  {
    assert steps[..i + 1][..i] == steps[..i];
  }

  lemma {:induction false} BudgetGrows(steps: seq<PolicyStep>, i: nat, j: nat)
    requires i <= j <= |steps|
    ensures TotalBudget(steps[..i]) <= TotalBudget(steps[..j])
  {
    if i < j {
      BudgetGrows(steps, i, j - 1);
      BudgetNext(steps, j - 1);
    }
  }

  function Advance(c: Cursor, trigger: Trigger): Cursor {
    Cursor(c.stepIdx + 1, 0, {}, c.lastReason, if trigger.NoCandidates? then [] else c.lastGates,
           c.diags + [StepDiag(c.stepIdx + 1, trigger, if trigger.NoCandidates? then c.lastGates else [])])
  }

  function AfterFailure(steps: seq<PolicyStep>, c: Cursor, id: AgentId): Cursor
    requires c.stepIdx < |steps|
  {
    var d := c.(stepFailed := c.stepFailed + {id}, stepTries := c.stepTries + 1);
    if d.stepTries >= steps[c.stepIdx].maxTries then Advance(d, MaxTries) else d
  }

  /** A failure charged to an agent in a step. */
  datatype Failure = Failure(step: nat, agent: AgentId)

  predicate EmptyAtEnd(gates: seq<GateDiag>) {
    gates != [] && gates[|gates| - 1].poolOut == 0
  }

  /** One diagnosis per step left, in order, and a trace down to an empty pool wherever there was no candidate. */
  predicate Diagnosed(c: Cursor) {
    && |c.diags| == c.stepIdx
    && forall i :: 0 <= i < |c.diags| ==>
      c.diags[i].stepNum == i + 1 && (c.diags[i].trigger.NoCandidates? ==> EmptyAtEnd(c.diags[i].gates))
  }

  predicate Distinct(fs: seq<Failure>) {
    forall i, j :: 0 <= i < j < |fs| ==> fs[i] != fs[j]
  }

  /** How many of the failures were charged in the step. */
  function CountIn(fs: seq<Failure>, step: nat): nat {
    if fs == [] then 0 else CountIn(fs[..|fs| - 1], step) + if fs[|fs| - 1].step == step then 1 else 0
  }

  lemma CountNext(fs: seq<Failure>, f: Failure, step: nat)
    ensures CountIn(fs + [f], step) == CountIn(fs, step) + if f.step == step then 1 else 0
  {
    assert (fs + [f])[..|fs|] == fs;
  }

  lemma {:induction false} NoneLater(fs: seq<Failure>, step: nat)
    requires forall i :: 0 <= i < |fs| ==> fs[i].step < step
    ensures CountIn(fs, step) == 0
  {
    if fs != [] { NoneLater(fs[..|fs| - 1], step); }
  }

  /** A step left for its tries took exactly its budget of failures, one left for want of candidates fewer. */
  predicate Spent(steps: seq<PolicyStep>, c: Cursor, fs: seq<Failure>)
    requires c.stepIdx <= |steps| && |c.diags| == c.stepIdx
  {
    && CountIn(fs, c.stepIdx) == c.stepTries
    && forall i :: 0 <= i < c.stepIdx ==>
         if c.diags[i].trigger.MaxTries? then CountIn(fs, i) == Budget(steps[i]) else CountIn(fs, i) < Budget(steps[i])
  }

  /** What every session keeps: failures charged so far, each agent at most once a step, within the budgets used up. */
  predicate Inv(steps: seq<PolicyStep>, c: Cursor, fs: seq<Failure>) {
    && c.stepIdx <= |steps| && Diagnosed(c)
    && (if c.stepIdx < |steps| then c.stepTries < Budget(steps[c.stepIdx]) else c.stepTries == 0)
    && Spent(steps, c, fs)
    && |fs| <= TotalBudget(steps[..c.stepIdx]) + c.stepTries
    && Distinct(fs)
    && forall i :: 0 <= i < |fs| ==> fs[i].step <= c.stepIdx && (fs[i].step == c.stepIdx ==>
      fs[i].agent in c.stepFailed)
  }

  /** New diagnoses come after the old ones, and each is for want of candidates. */
  predicate Diagnoses(c: Cursor, d: Cursor) {
    && |c.diags| <= |d.diags| && d.diags[..|c.diags|] == c.diags
    && forall i :: |c.diags| <= i < |d.diags| ==> d.diags[i].trigger.NoCandidates?
  }

  /** How Select moves a cursor: only forward, and never touching the failures of the step it stays in. */
  predicate Moved(steps: seq<PolicyStep>, c: Cursor, d: Cursor) {
    && c.stepIdx <= d.stepIdx <= |steps|
    && (if c.stepIdx == d.stepIdx then d.stepTries == c.stepTries && d.stepFailed == c.stepFailed
        else d.stepTries == 0 && d.stepFailed == {})
    && (Diagnosed(c) ==> Diagnosed(d)) && Diagnoses(c, d)
  }

  lemma AdvanceMoves(steps: seq<PolicyStep>, c: Cursor, d: Cursor)
    requires c.stepIdx < |steps| && EmptyAtEnd(d.lastGates)
    requires d == c.(lastReason := d.lastReason, lastGates := d.lastGates)
    ensures Moved(steps, c, Advance(d, NoCandidates))
  {
  }

  lemma MovesCompose(steps: seq<PolicyStep>, c: Cursor, d: Cursor, e: Cursor)
    requires Moved(steps, c, d) && Moved(steps, d, e)
    ensures Moved(steps, c, e)
  {
    assert e.diags[..|c.diags|] == e.diags[..|d.diags|][..|c.diags|];
    forall i | |c.diags| <= i < |e.diags| ensures e.diags[i].trigger.NoCandidates? {
      if i < |d.diags| { assert e.diags[i] == e.diags[..|d.diags|][i]; }
    }
  }

  lemma MoveKeepsSpent(steps: seq<PolicyStep>, c: Cursor, d: Cursor, fs: seq<Failure>)
    requires Inv(steps, c, fs) && Moved(steps, c, d)
    ensures Spent(steps, d, fs)
  {
    if c.stepIdx < d.stepIdx { NoneLater(fs, d.stepIdx); }
    forall i | 0 <= i < d.stepIdx
      ensures if d.diags[i].trigger.MaxTries? then CountIn(fs, i) == Budget(steps[i])
              else CountIn(fs, i) < Budget(steps[i])
    {
      if i < c.stepIdx {
        assert d.diags[i] == d.diags[..|c.diags|][i];
      } else if i > c.stepIdx {
        NoneLater(fs, i);
      }
    }
  }

  lemma MoveKeepsInv(steps: seq<PolicyStep>, c: Cursor, d: Cursor, fs: seq<Failure>)
    requires Inv(steps, c, fs) && Moved(steps, c, d)
    ensures Inv(steps, d, fs)
  {
    MoveKeepsSpent(steps, c, d, fs);
    if c.stepIdx < d.stepIdx {
      BudgetNext(steps, c.stepIdx);
      BudgetGrows(steps, c.stepIdx + 1, d.stepIdx);
    }
  }

  lemma FailureKeepsInv(steps: seq<PolicyStep>, c: Cursor, id: AgentId, fs: seq<Failure>)
    requires Inv(steps, c, fs) && c.stepIdx < |steps| && id !in c.stepFailed
    ensures Inv(steps, AfterFailure(steps, c, id), fs + [Failure(c.stepIdx, id)])
  {
    BudgetNext(steps, c.stepIdx);
    FailureKeepsSpent(steps, c, id, fs);
  }

  lemma FailureKeepsSpent(steps: seq<PolicyStep>, c: Cursor, id: AgentId, fs: seq<Failure>)
    requires Inv(steps, c, fs) && c.stepIdx < |steps|
    ensures Spent(steps, AfterFailure(steps, c, id), fs + [Failure(c.stepIdx, id)])
  {
    var d, f := AfterFailure(steps, c, id), Failure(c.stepIdx, id);
    CountNext(fs, f, d.stepIdx);
    if d.stepIdx > c.stepIdx { NoneLater(fs, d.stepIdx); }
    forall i | 0 <= i < d.stepIdx
      ensures if d.diags[i].trigger.MaxTries? then CountIn(fs + [f], i) == Budget(steps[i])
              else CountIn(fs + [f], i) < Budget(steps[i])
    {
      CountNext(fs, f, i);
      if i < c.stepIdx { assert d.diags[i] == c.diags[i]; }
    }
  }

  /** The session's failures never exceed the sum of its steps' budgets, and reach it only when no step is left. */
  lemma FailuresWithinBudget(steps: seq<PolicyStep>, c: Cursor, fs: seq<Failure>)
    requires Inv(steps, c, fs)
    ensures |fs| <= TotalBudget(steps)
    ensures |fs| == TotalBudget(steps) ==> c.stepIdx == |steps|
  {
    assert steps[..|steps|] == steps;
    if c.stepIdx < |steps| {
      BudgetNext(steps, c.stepIdx);
      BudgetGrows(steps, c.stepIdx + 1, |steps|);
    }
  }

  /** How many of the failures were charged before the step. */
  function CountBelow(fs: seq<Failure>, step: nat): nat {
    if fs == [] then 0 else CountBelow(fs[..|fs| - 1], step) + if fs[|fs| - 1].step < step then 1 else 0
  }

  lemma {:induction false} CountBelowNext(fs: seq<Failure>, step: nat)
    ensures CountBelow(fs, step + 1) == CountBelow(fs, step) + CountIn(fs, step) && CountBelow(fs, 0) == 0
  {
    if fs != [] { CountBelowNext(fs[..|fs| - 1], step); }
  }

  lemma {:induction false} AllBelow(fs: seq<Failure>, step: nat)
    requires forall i :: 0 <= i < |fs| ==> fs[i].step < step
    ensures CountBelow(fs, step) == |fs|
  {
    if fs != [] { AllBelow(fs[..|fs| - 1], step); }
  }

  lemma {:induction false} SpentUpTo(steps: seq<PolicyStep>, fs: seq<Failure>, k: nat)
    requires k <= |steps| && forall i :: 0 <= i < k ==> CountIn(fs, i) == Budget(steps[i])
    ensures CountBelow(fs, k) == TotalBudget(steps[..k])
  {
    if k == 0 {
      CountBelowNext(fs, 0);
    } else {
      SpentUpTo(steps, fs, k - 1);
      CountBelowNext(fs, k - 1);
      BudgetNext(steps, k - 1);
    }
  }

  /** The bound is reached: a session that left every step for its tries was charged exactly the sum of the budgets. */
  lemma BudgetIsReached(steps: seq<PolicyStep>, c: Cursor, fs: seq<Failure>)
    requires Inv(steps, c, fs) && c.stepIdx == |steps|
    requires forall i :: 0 <= i < |steps| ==> c.diags[i].trigger.MaxTries?
    ensures |fs| == TotalBudget(steps)
  {
    SpentUpTo(steps, fs, |steps|);
    assert steps[..|steps|] == steps;
    NoneAt(fs, |steps|);
    AllBelow(fs, |steps|);
  }

  lemma {:induction false} NoneAt(fs: seq<Failure>, step: nat)
    requires CountIn(fs, step) == 0
    ensures forall i :: 0 <= i < |fs| ==> fs[i].step != step
  {
    if fs != [] { NoneAt(fs[..|fs| - 1], step); }
  }

  // ----- what a selection does

  /**
   * One turn of the selection loop as the rest of the router answers it: the agents as read, whether a wait for
   * capacity ended with a wake-up, which candidate the strategy picks and that agent's load when its slot is tried.
   */
  datatype Round = Round(views: seq<View>, woken: bool, pick: nat, load: AgentSlots.Load)

  predicate SlotFree(round: Round) {
    AgentSlots.Taken(round.load).1
  }

  /** What a session is given when it starts. */
  datatype Config = Config(capability: string, steps: seq<PolicyStep>, queueing: bool)

  function Asks(g: Config, c: Cursor): Query
    requires c.stepIdx < |g.steps|
  {
    Query(g.capability, g.steps[c.stepIdx].filter, g.steps[c.stepIdx].excludeIf, c.stepFailed)
  }

  /** The cursor after a pass without candidates. */
  ghost predicate LookedInVain(g: Config, c: Cursor, views: seq<View>, d: Cursor)
    requires c.stepIdx < |g.steps|
  {
    && d == c.(lastReason := ReasonAfter(c.lastReason, views, Asks(g, c)), lastGates := d.lastGates)
    && TrueChain(d.lastGates, views, Asks(g, c))
  }

  /** What a turn may lead to: an agent, or none and a cursor that waited or moved on. */
  datatype Turn = Turn(chosen: Option<View>, parked: bool, c: Cursor)

  ghost predicate Turned(g: Config, c: Cursor, round: Round, t: Turn) {
    && c.stepIdx < |g.steps|
    && var found := Eligible(round.views, Asks(g, c));
       if found != [] then t == Turn(if SlotFree(round) then Some(found[round.pick % |found|]) else None, false, c)
       else t.chosen.None? && exists d :: WentOn(g, c, round, d, t)
  }

  ghost predicate WentOn(g: Config, c: Cursor, round: Round, d: Cursor, t: Turn)
    requires c.stepIdx < |g.steps|
  {
    && LookedInVain(g, c, round.views, d)
    && t.parked == (g.queueing && d.lastReason == NoCapacity)
    && t.c == if t.parked && round.woken then d else Advance(d, NoCandidates)
  }

  /** A session parks only where waiting is worthwhile, whatever reason an earlier step left behind. */
  lemma ParksOnlyIfWorthWaiting(g: Config, c: Cursor, round: Round, t: Turn)
    requires Turned(g, c, round, t) && t.parked
    ensures g.queueing && WorthWaiting(round.views, Asks(g, c))
  {
    NoCapacityIff(c.lastReason, round.views, Asks(g, c));
  }

  /** Without a candidate a session parks exactly when it may and waiting is worthwhile as the rule says. */
  lemma ParksIff(g: Config, c: Cursor, round: Round, t: Turn)
    requires Turned(g, c, round, t) && Eligible(round.views, Asks(g, c)) == []
    ensures var q := Asks(g, c);
            t.parked <==>
              && g.queueing
              && if c.lastReason == NoCapacity then WorthWaiting(round.views, q)
                 else
                   && AnyFallsAt(round.views, q, 6) && !AnyFallsAt(round.views, q, 3)
                   && !AnyFallsAt(round.views, q, 4) && !AnyFallsAt(round.views, q, 7)
  {
    NoCapacityIff(c.lastReason, round.views, Asks(g, c));
  }

  /** The agent chosen was listed and passed all seven gates, so it had not failed in this step and was not full. */
  lemma ChosenIsEligible(g: Config, c: Cursor, round: Round, t: Turn)
    requires Turned(g, c, round, t) && t.chosen.Some?
    ensures var v, step := t.chosen.value, g.steps[c.stepIdx];
            && t.c == c && SlotFree(round) && v in round.views && Survives(v, Asks(g, c), 7)
            && v.healthy && v.backendHealthy
            && (g.capability == "" || v.meta.capability == g.capability) && Fitting(v.meta, step.filter)
            && v.id !in c.stepFailed && v.load < v.meta.capacity && Calm(v.metrics, step.excludeIf)
  {
    var found := Eligible(round.views, Asks(g, c));
    EligibleAreListed(round.views, Asks(g, c), round.pick % |found|);
    AdmissibleIff(t.chosen.value, Asks(g, c));
  }

  /** A turn ends with an agent exactly when some listed one meets every condition and the pick has a free slot. */
  lemma ChoosesIff(g: Config, c: Cursor, round: Round, t: Turn)
    requires Turned(g, c, round, t)
    ensures t.chosen.Some? <==>
            && round.load.active < round.load.capacity
            && exists v :: v in round.views
                           && Admissible(v, Query(g.capability, g.steps[c.stepIdx].filter,
                                                  g.steps[c.stepIdx].excludeIf, c.stepFailed))
  {
    FoundIff(g, c, round);
  }

  /** There is a choice exactly when some listed agent meets every condition of the step. */
  lemma FoundIff(g: Config, c: Cursor, round: Round)
    requires c.stepIdx < |g.steps|
    ensures Eligible(round.views, Asks(g, c)) != [] <==>
            exists v :: v in round.views
                        && Admissible(v, Query(g.capability, g.steps[c.stepIdx].filter, g.steps[c.stepIdx].excludeIf,
                                               c.stepFailed))
  {
    var q := Asks(g, c);
    var found := Eligible(round.views, q);
    if found != [] {
      EligibleIff(round.views, q, found[0]);
    } else if exists v :: v in round.views && Admissible(v, q) {
      var v :| v in round.views && Admissible(v, q);
      EligibleIff(round.views, q, v);
    }
  }

  /** A wait that ends with a wake-up tries the step again, one that times out leaves it for want of candidates. */
  lemma WaitEnds(g: Config, c: Cursor, round: Round, t: Turn)
    requires Turned(g, c, round, t) && t.chosen.None?
    ensures Eligible(round.views, Asks(g, c)) != [] ==> !SlotFree(round) && t.c == c && !t.parked
    ensures t.parked && round.woken ==>
              t.c.stepIdx == c.stepIdx && t.c.stepTries == c.stepTries && t.c.stepFailed == c.stepFailed
              && t.c.diags == c.diags
    ensures Eligible(round.views, Asks(g, c)) == [] && !(t.parked && round.woken) ==>
              t.c.stepIdx == c.stepIdx + 1 && t.c.stepTries == 0 && t.c.stepFailed == {}
              && |t.c.diags| == |c.diags| + 1 && t.c.diags[|c.diags|].trigger == NoCandidates
  {
    if Eligible(round.views, Asks(g, c)) == [] {
      var d :| WentOn(g, c, round, d, t);
    }
  }

  lemma TurnMoves(g: Config, c: Cursor, round: Round, t: Turn)
    requires Turned(g, c, round, t)
    ensures Moved(g.steps, c, t.c)
  {
    if Eligible(round.views, Asks(g, c)) == [] {
      var d :| WentOn(g, c, round, d, t);
      AdvanceMoves(g.steps, c, d);
    }
  }

  datatype Outcome = Chose(agent: View) | Exhausted(reason: Reason) | StillTrying

  /** The cursors a selection goes through before its last turn. */
  ghost predicate Trail(g: Config, trail: seq<Cursor>, rounds: seq<Round>) {
    && 0 < |trail| <= |rounds| + 1
    && forall i :: 0 <= i < |trail| - 1 ==> Unsettled(g, trail[i], rounds[i], trail[i + 1])
  }

  ghost predicate Unsettled(g: Config, c: Cursor, round: Round, d: Cursor) {
    Turned(g, c, round, Turn(None, false, d)) || Turned(g, c, round, Turn(None, true, d))
  }

  /** A selection: unsettled turns, then an agent, or no step left, or no more turns to take. */
  ghost predicate Selected(g: Config, trail: seq<Cursor>, rounds: seq<Round>, c: Cursor, r: Outcome) {
    && Trail(g, trail, rounds)
    && var last := trail[|trail| - 1];
       match r
       case Chose(v) => |trail| <= |rounds| && Turned(g, last, rounds[|trail| - 1], Turn(Some(v), false, c))
       case Exhausted(reason) => c == last && c.stepIdx >= |g.steps| && reason == c.lastReason
       case StillTrying => c == last && c.stepIdx < |g.steps| && |trail| == |rounds| + 1
  }

  lemma UnsettledMoves(g: Config, c: Cursor, round: Round, d: Cursor)
    requires Unsettled(g, c, round, d)
    ensures Moved(g.steps, c, d)
  {
    var parked :| Turned(g, c, round, Turn(None, parked, d));
    TurnMoves(g, c, round, Turn(None, parked, d));
  }

  lemma {:induction false} TrailMoves(g: Config, trail: seq<Cursor>, rounds: seq<Round>, n: nat)
    requires Trail(g, trail, rounds) && trail[0].stepIdx <= |g.steps| && n < |trail|
    ensures Moved(g.steps, trail[0], trail[n])
  {
    if n > 0 {
      TrailMoves(g, trail, rounds, n - 1);
      UnsettledMoves(g, trail[n - 1], rounds[n - 1], trail[n]);
      MovesCompose(g.steps, trail[0], trail[n - 1], trail[n]);
    }
  }

  /** The turn's agent: the candidate the strategy picks among those eligible in the step, with its slot taken. */
  predicate Picked(g: Config, c: Cursor, round: Round, v: View) {
    && c.stepIdx < |g.steps| && SlotFree(round)
    && var found := Eligible(round.views, Asks(g, c));
       found != [] && v == found[round.pick % |found|]
  }

  /** Over a whole selection the cursor only moves forward, and an agent it returns has not failed in its step. */
  lemma SelectionMoves(g: Config, trail: seq<Cursor>, rounds: seq<Round>, c: Cursor, r: Outcome)
    requires Selected(g, trail, rounds, c, r) && trail[0].stepIdx <= |g.steps|
    ensures Moved(g.steps, trail[0], c)
    ensures r.Chose? ==> |trail| <= |rounds| && Picked(g, c, rounds[|trail| - 1], r.agent)
    ensures r.Chose? ==> c.stepIdx < |g.steps| && r.agent.id !in c.stepFailed
  {
    TrailMoves(g, trail, rounds, |trail| - 1);
    if r.Chose? { ChosenIsEligible(g, trail[|trail| - 1], rounds[|trail| - 1], Turn(Some(r.agent), false, c)); }
  }

  // ----- the code

  class Session {
    const config: Config
    var stepIdx: nat
    var stepTries: nat
    var stepFailed: set<AgentId>
    var lastReason: Reason
    var lastGates: seq<GateDiag>
    var exhaustDiags: seq<StepDiag>

    function State(): Cursor
      reads this
    {
      Cursor(stepIdx, stepTries, stepFailed, lastReason, lastGates, exhaustDiags)
    }

    /** The primary step and the fallback chain, flattened, with their effective budgets. */
    constructor (capability: string, primary: PolicyStep, fallbacks: seq<PolicyStep>, globalMaxTries: int,
                 queueDepth: nat)
      ensures |config.steps| == 1 + |fallbacks| && config.steps[0] == Resolve(primary, globalMaxTries)
      ensures forall i :: 0 <= i < |config.steps| ==>
                var given := if i == 0 then primary else fallbacks[i - 1];
                && config.steps[i].filter == given.filter && config.steps[i].excludeIf == given.excludeIf
                && config.steps[i].maxTries == if given.maxTries > 0 then given.maxTries else globalMaxTries
      ensures forall i :: 0 <= i < |fallbacks| ==> config.steps[i + 1] == Resolve(fallbacks[i], globalMaxTries)
      ensures config.capability == capability && config.queueing == (queueDepth > 0)
      ensures State() == Cursor(0, 0, {}, AllStepsExhausted, [], []) && Inv(config.steps, State(), [])
    {
      var steps := [Resolve(primary, globalMaxTries)];
      for i := 0 to |fallbacks|
        invariant |steps| == i + 1 && steps[0] == Resolve(primary, globalMaxTries)
        invariant forall j :: 0 <= j < i ==> steps[j + 1] == Resolve(fallbacks[j], globalMaxTries)
      {
        steps := steps + [Resolve(fallbacks[i], globalMaxTries)];
      }
      config := Config(capability, steps, queueDepth > 0);
      stepIdx, stepTries, stepFailed, lastReason, lastGates, exhaustDiags := 0, 0, {}, AllStepsExhausted, [], [];
    }

    method BuildCandidates(views: seq<View>) returns (candidates: seq<View>)
      requires stepIdx < |config.steps|
      modifies `lastReason, `lastGates
      ensures candidates == Eligible(views, Asks(config, old(State())))
      ensures candidates != [] ==> State() == old(State())
      ensures candidates == [] ==> LookedInVain(config, old(State()), views, State())
      ensures views == [] ==>
                lastReason == ModelNotFound && lastGates == [GateDiag(1, -1, 0, map[ModelNotRegistered := 1])]
    {
      var q := Asks(config, State());
      if |views| == 0 {
        lastReason := ModelNotFound;
        lastGates := [GateDiag(1, -1, 0, map[ModelNotRegistered := 1])];
        return [];
      }
      var t;
      candidates, t := Sift(views, q);
      if candidates == [] {
        NoMissCounted(t.filterMiss, Drop(views, q, 3), Drop(views, q, 4));
        NothingCounted(t.gateMiss);
        if t.unhealthy == |views| {
          lastReason := NoAgentsAvailable;
        } else if t.filterMiss == map[] && t.atCapacity > 0 && t.unhealthy + t.atCapacity + t.prevFailed == |views| {
          lastReason := NoCapacity;
        } else if t.atCapacity == 0 && t.gateMiss == map[] && lastReason == NoCapacity {
          lastReason := NoAgentsAvailable;
        }
        lastGates := Trace(views, q, t);
      }
    }

    method AdvanceStep(trigger: Trigger)
      modifies this
      ensures State() == Advance(old(State()), trigger)
      ensures stepIdx == old(stepIdx) + 1 && stepTries == 0 && stepFailed == {} && lastReason == old(lastReason)
      ensures lastGates == if trigger == NoCandidates then [] else old(lastGates)
      ensures exhaustDiags == old(exhaustDiags)
                              + [StepDiag(stepIdx, trigger, if trigger == NoCandidates then old(lastGates) else [])]
    {
      var from := stepIdx;
      stepIdx := stepIdx + 1;
      stepTries := 0;
      stepFailed := {};
      if trigger.NoCandidates? {
        exhaustDiags := exhaustDiags + [StepDiag(from + 1, NoCandidates, lastGates)];
        lastGates := [];
      } else {
        exhaustDiags := exhaustDiags + [StepDiag(from + 1, MaxTries, [])];
      }
    }

    method RecordFailure(id: AgentId) returns (advanced: bool)
      requires stepIdx < |config.steps|
      modifies this
      ensures State() == AfterFailure(config.steps, old(State()), id)
      ensures advanced == (stepIdx > old(stepIdx))
      ensures advanced <==> old(stepTries) + 1 >= config.steps[old(stepIdx)].maxTries
      ensures advanced ==> stepIdx == old(stepIdx) + 1 && stepTries == 0 && stepFailed == {}
      ensures !advanced ==>
                stepIdx == old(stepIdx) && stepTries == old(stepTries) + 1 && stepFailed == old(stepFailed) + {id}
    {
      stepFailed := stepFailed + {id};
      stepTries := stepTries + 1;
      if stepTries >= config.steps[stepIdx].maxTries {
        AdvanceStep(MaxTries);
        return true;
      }
      return false;
    }

    /** One pass of the selection loop. */
    method TakeTurn(round: Round) returns (chosen: Option<View>, ghost t: Turn)
      requires stepIdx < |config.steps|
      modifies this
      ensures Turned(config, old(State()), round, t) && t.chosen == chosen && t.c == State()
    {
      ghost var c := State();
      var candidates := BuildCandidates(round.views);
      if candidates == [] {
        ghost var d := State();
        if lastReason == NoCapacity && config.queueing {
          if !round.woken { AdvanceStep(NoCandidates); }
          t := Turn(None, true, State());
        } else {
          AdvanceStep(NoCandidates);
          t := Turn(None, false, State());
        }
        assert WentOn(config, c, round, d, t);
        return None, t;
      }
      var pick := candidates[round.pick % |candidates|];
      chosen := if SlotFree(round) then Some(pick) else None;
      t := Turn(chosen, false, State());
    }

    /** Picks the next agent, moving on through the fallback steps and waiting for capacity as needed. */
    method Select(rounds: seq<Round>) returns (r: Outcome, ghost trail: seq<Cursor>)
      modifies this
      ensures Selected(config, trail, rounds, State(), r) && trail[0] == old(State())
    {
      trail := [State()];
      for i := 0 to |rounds|
        invariant |trail| == i + 1 && Trail(config, trail, rounds)
        invariant trail[0] == old(State()) && trail[i] == State()
      {
        if stepIdx >= |config.steps| { return Exhausted(lastReason), trail; }
        ghost var c := State();
        var chosen, t := TakeTurn(rounds[i]);
        if chosen.Some? { return Chose(chosen.value), trail; }
        assert Unsettled(config, c, rounds[i], State());
        trail := trail + [State()];
      }
      if stepIdx >= |config.steps| { return Exhausted(lastReason), trail; }
      return StillTrying, trail;
    }
  }

  // ----- dispatching a request

  const MAX_RECONNECTS_PER_AGENT := 1

  /** How a forward ended: for good (served, refused, timed out), on a dead connection, or in a failure to retry. */
  datatype Reply = Final | ConnectionLost | Failed

  datatype Attempt = Attempt(rounds: seq<Round>, reply: Reply)

  /** A forward that did not end the request: the cursor it was made at, the agent and how it ended. */
  datatype Try = Try(c: Cursor, agent: View, reply: Reply)

  /** The agents that got their free retry, and the failures charged. */
  function Free(tries: seq<Try>): seq<AgentId> {
    if tries == [] then []
    else
      var front, t := Free(tries[..|tries| - 1]), tries[|tries| - 1];
      if t.reply == ConnectionLost && t.agent.id !in front then front + [t.agent.id] else front
  }

  function Charged(tries: seq<Try>): seq<Failure> {
    if tries == [] then []
    else
      var front, t := tries[..|tries| - 1], tries[|tries| - 1];
      if t.reply == ConnectionLost && t.agent.id !in Free(front) then Charged(front)
      else Charged(front) + [Failure(t.c.stepIdx, t.agent.id)]
  }

  predicate OncePerAgent(free: seq<AgentId>) {
    forall i, j :: 0 <= i < j < |free| ==> free[i] != free[j]
  }

  /** Every try is charged or free, and no agent is free twice. */
  lemma {:induction false} TriesAreAccounted(tries: seq<Try>)
    ensures |Charged(tries)| + |Free(tries)| == |tries| && OncePerAgent(Free(tries))
  {
    if tries != [] { TriesAreAccounted(tries[..|tries| - 1]); }
  }

  predicate IsFree(tries: seq<Try>, i: nat)
    requires i < |tries|
  {
    tries[i].reply == ConnectionLost && tries[i].agent.id !in Free(tries[..i])
  }

  lemma {:induction false} FreeIff(tries: seq<Try>, id: AgentId)
    ensures id in Free(tries) <==>
            exists j :: 0 <= j < |tries| && tries[j].agent.id == id && tries[j].reply == ConnectionLost
  {
    if tries != [] {
      var n := |tries| - 1;
      FreeIff(tries[..n], id);
      if j :| 0 <= j < |tries| && tries[j].agent.id == id && tries[j].reply == ConnectionLost {
        if j < n { assert tries[..n][j] == tries[j]; }
      }
    }
  }

  /** A try is free exactly when it lost the connection and no earlier try of the agent did. */
  lemma IsFreeIff(tries: seq<Try>, i: nat)
    requires i < |tries|
    ensures IsFree(tries, i) <==>
            && tries[i].reply == ConnectionLost
            && forall j :: 0 <= j < i && tries[j].agent.id == tries[i].agent.id ==> tries[j].reply != ConnectionLost
  {
    FreeIff(tries[..i], tries[i].agent.id);
  }

  /** The failures charged are the tries that are not free, in order. */
  lemma {:induction false} ChargedAre(tries: seq<Try>)
    ensures Charged(tries) == ChargedFrom(tries, 0)
  {
    ChargedSplit(tries, |tries|);
    assert tries[..|tries|] == tries;
  }

  function ChargedFrom(tries: seq<Try>, i: nat): seq<Failure>
    requires i <= |tries|
    decreases |tries| - i
  {
    if i == |tries| then []
    else (if IsFree(tries, i) then [] else [Failure(tries[i].c.stepIdx, tries[i].agent.id)])
         + ChargedFrom(tries, i + 1)
  }

  lemma {:induction false} ChargedSplit(tries: seq<Try>, i: nat)
    requires i <= |tries|
    ensures ChargedFrom(tries, 0) == Charged(tries[..i]) + ChargedFrom(tries, i)
  {
    if i > 0 {
      ChargedSplit(tries, i - 1);
      assert tries[..i][..i - 1] == tries[..i - 1];
    }
  }

  lemma NextTry(tries: seq<Try>, t: Try)
    ensures var free := t.reply == ConnectionLost && t.agent.id !in Free(tries);
            && Free(tries + [t]) == Free(tries) + (if free then [t.agent.id] else [])
            && Charged(tries + [t]) == Charged(tries) + (if free then [] else [Failure(t.c.stepIdx, t.agent.id)])
  {
    assert (tries + [t])[..|tries|] == tries;
  }

  // ----- tries as the router's answers make them

  /** A whole selection from the cursor `c` leaves the cursor `d` and ends as `r`. */
  ghost predicate Selects(g: Config, c: Cursor, rounds: seq<Round>, d: Cursor, r: Outcome) {
    exists trail :: Selected(g, trail, rounds, d, r) && trail[0] == c
  }

  /** The try is of the agent that the selection picked, charged to the step it was picked in unless it is free. */
  ghost predicate Tried(g: Config, c: Cursor, attempt: Attempt, t: Try, free: bool, d: Cursor) {
    && t.reply == attempt.reply != Final
    && t.c.stepIdx < |g.steps| && Selects(g, c, attempt.rounds, t.c, Chose(t.agent))
    && d == if free then t.c else AfterFailure(g.steps, t.c, t.agent.id)
  }

  /** Each attempt's try leads from one cursor to the next. */
  ghost predicate Follows(g: Config, cs: seq<Cursor>, tries: seq<Try>, attempts: seq<Attempt>) {
    && |cs| == |tries| + 1 && |tries| <= |attempts|
    && forall i :: 0 <= i < |tries| ==> Tried(g, cs[i], attempts[i], tries[i], IsFree(tries, i), cs[i + 1])
  }

  lemma FollowsNext(g: Config, cs: seq<Cursor>, tries: seq<Try>, attempts: seq<Attempt>, t: Try, d: Cursor)
    requires Follows(g, cs, tries, attempts) && |tries| < |attempts|
    requires Tried(g, cs[|tries|], attempts[|tries|], t, t.reply == ConnectionLost && t.agent.id !in Free(tries), d)
    ensures Follows(g, cs + [d], tries + [t], attempts)
  {
    var ds, ts := cs + [d], tries + [t];
    forall i | 0 <= i < |ts| ensures Tried(g, ds[i], attempts[i], ts[i], IsFree(ts, i), ds[i + 1]) {
      assert ts[..i] == tries[..i];
      assert tries[..|tries|] == tries;
      if i < |tries| { assert Tried(g, cs[i], attempts[i], tries[i], IsFree(tries, i), cs[i + 1]); }
    }
  }

  /** The reconnect counters are at their bound for exactly the agents that used up their free retry. */
  ghost predicate Retried(reconnects: map<AgentId, nat>, tries: seq<Try>) {
    forall id :: id in Free(tries) <==> id in reconnects && reconnects[id] >= MAX_RECONNECTS_PER_AGENT
  }

  /** After a forward that failed: a free retry, or a charge. */
  method Punish(s: Session, reconnects: map<AgentId, nat>, id: AgentId, reply: Reply, ghost tries: seq<Try>,
                ghost t: Try)
    returns (after: map<AgentId, nat>)
    requires s.stepIdx < |s.config.steps| && id !in s.stepFailed && t.agent.id == id && t.reply == reply
    requires Inv(s.config.steps, s.State(), Charged(tries)) && Retried(reconnects, tries) && t.c == s.State()
    modifies s
    ensures Inv(s.config.steps, s.State(), Charged(tries + [t])) && Retried(after, tries + [t])
    ensures s.State() == if reply == ConnectionLost && id !in Free(tries) then t.c
                         else AfterFailure(s.config.steps, t.c, id)
  {
    NextTry(tries, t);
    after := reconnects;
    var retried := if id in reconnects then reconnects[id] else 0;
    if reply == ConnectionLost && retried < MAX_RECONNECTS_PER_AGENT {
      after := reconnects[id := retried + 1];
    } else {
      FailureKeepsInv(s.config.steps, s.State(), id, Charged(tries));
      var _ := s.RecordFailure(id);
    }
  }

  /** Select and forward once: the end of the loop, or one more try. */
  method Attempted(s: Session, attempt: Attempt, reconnects: map<AgentId, nat>, ghost tries: seq<Try>)
    returns (last: Outcome, ended: bool, after: map<AgentId, nat>, ghost more: seq<Try>)
    requires Inv(s.config.steps, s.State(), Charged(tries)) && Retried(reconnects, tries)
    modifies s
    ensures Inv(s.config.steps, s.State(), Charged(tries + more)) && Retried(after, tries + more)
    ensures ended <==> !last.Chose? || attempt.reply == Final
    ensures ended ==> more == [] && Selects(s.config, old(s.State()), attempt.rounds, s.State(), last)
    ensures !ended ==> |more| == 1 && Tried(s.config, old(s.State()), attempt, more[0],
                                            more[0].reply == ConnectionLost && more[0].agent.id !in Free(tries),
                                            s.State())
  {
    ghost var c, trail := s.State(), [];
    last, trail := s.Select(attempt.rounds);
    SelectionMoves(s.config, trail, attempt.rounds, s.State(), last);
    MoveKeepsInv(s.config.steps, c, s.State(), Charged(tries));
    assert Selects(s.config, c, attempt.rounds, s.State(), last);
    ended, after, more := !last.Chose? || attempt.reply == Final, reconnects, [];
    assert tries + more == tries;
    if !ended {
      more := [Try(s.State(), last.agent, attempt.reply)];
      after := Punish(s, reconnects, last.agent.id, attempt.reply, tries, more[0]);
    }
  }

  lemma TriesAreBounded(steps: seq<PolicyStep>, c: Cursor, tries: seq<Try>)
    requires Inv(steps, c, Charged(tries))
    ensures |Charged(tries)| <= TotalBudget(steps) && Distinct(Charged(tries)) && OncePerAgent(Free(tries))
    ensures |tries| <= TotalBudget(steps) + |Free(tries)|
  {
    TriesAreAccounted(tries);
    FailuresWithinBudget(steps, c, Charged(tries));
  }

  lemma NothingTried(g: Config, c: Cursor, attempts: seq<Attempt>)
    ensures Follows(g, [c], [], attempts) && Charged([]) == [] && Retried(map[], [])
  {
  }

  /**
   * A request's dispatch loop: select, forward, and on failure charge the agent unless the connection was lost and
   * the agent still has its free retry. However the router answers, every attempt but a last one that ended the loop
   * is a try of the agent its selection picked, each selection starts from the cursor the try before it left, the
   * failures charged stay within the steps' budgets and no agent is charged twice in a step; so the number of forwards
   * is bounded by the budgets and the agents seen.
   */
  method Dispatch(s: Session, attempts: seq<Attempt>) returns (used: nat, ended: bool, last: Outcome,
                  ghost tries: seq<Try>, ghost cs: seq<Cursor>)
    requires Inv(s.config.steps, s.State(), [])
    modifies s
    ensures used <= |attempts| && (!ended ==> used == |attempts|)
    ensures |tries| == used - (if ended then 1 else 0)
    ensures Follows(s.config, cs, tries, attempts) && cs[0] == old(s.State())
    ensures if ended then Selects(s.config, cs[|tries|], attempts[used - 1].rounds, s.State(), last)
            else s.State() == cs[|tries|]
    ensures Inv(s.config.steps, s.State(), Charged(tries))
    ensures |Charged(tries)| <= TotalBudget(s.config.steps) && Distinct(Charged(tries)) && OncePerAgent(Free(tries))
    ensures used <= TotalBudget(s.config.steps) + |Free(tries)| + 1
    ensures s.stepIdx < |s.config.steps| ==> CountIn(Charged(tries), s.stepIdx) == s.stepTries
    ensures forall i :: 0 <= i < s.stepIdx ==>
              var most := if s.config.steps[i].maxTries > 1 then s.config.steps[i].maxTries else 1;
              if s.exhaustDiags[i].trigger.MaxTries? then CountIn(Charged(tries), i) == most
              else CountIn(Charged(tries), i) < most
    ensures ended ==> !last.Chose? || attempts[used - 1].reply == Final
    ensures last.Exhausted? ==> s.stepIdx == |s.config.steps| == |s.exhaustDiags|
  {
    tries, cs, last, used, ended := [], [s.State()], StillTrying, 0, false;
    var reconnects: map<AgentId, nat> := map[];
    NothingTried(s.config, s.State(), attempts);
    while used < |attempts|
      invariant used <= |attempts| && |tries| == used && !ended && last.StillTrying?
      invariant Follows(s.config, cs, tries, attempts) && cs[0] == old(s.State()) && cs[used] == s.State()
      invariant Inv(s.config.steps, s.State(), Charged(tries)) && Retried(reconnects, tries)
    {
      ghost var more;
      last, ended, reconnects, more := Attempted(s, attempts[used], reconnects, tries);
      used := used + 1;
      if ended {
        assert tries + more == tries;
        break;
      }
      last := StillTrying;
      FollowsNext(s.config, cs, tries, attempts, more[0], s.State());
      assert more == [more[0]];
      tries, cs := tries + more, cs + [s.State()];
    }
    TriesAreBounded(s.config.steps, s.State(), tries);
  }
}
