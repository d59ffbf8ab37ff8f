/**
 * The controller's map of model states and the janitor that evicts idle ones.
 *
 * `patience` bounds the time from a call's state lookup to its last try; `ttl` is the janitor's. The
 * janitor holds the controller lock from its idle check to the delete, so lookups wait, but calls that
 * already hold the state do not.
 */
module OccupancySweep {
  import opened Prelude
  import opened Admission
  import opened Occupancy

  /** One model state ever created; `stamps[k]` is when call `k` looked it up. */
  datatype Site = Site(model: string, cell: Cell, lastActive: int, stamps: seq<int>)

  datatype World = World(now: int, models: map<string, nat>, sites: seq<Site>, sweeping: Option<string>)

  datatype Move =
    | Tick(dt: nat)
    | Lookup(model: string, weight: nat, grows: bool, budget: int, maxInflight: int, parks: bool)
    | At(i: nat, ev: Event)
    | SweepCheck(model: string)
    | SweepDelete

  const START := World(0, map[], [], None)

  ghost predicate Allowed(w: World, mv: Move, patience: nat, ttl: int) {
    match mv
    case Tick(_) => true
    case Lookup(model, _, _, _, _, _) => w.sweeping.None? && (model in w.models ==> w.models[model] < |w.sites|)
    case At(i, ev) =>
      && i < |w.sites| && !ev.Start? && Enabled(w.sites[i].cell, ev)
      && (ev.Try? ==> ev.k < |w.sites[i].stamps| && w.now <= w.sites[i].stamps[ev.k] + patience)
    case SweepCheck(model) =>
      && w.sweeping.None? && model in w.models && w.models[model] < |w.sites|
      && var s := w.sites[w.models[model]];
         s.cell.c.sumW == 0 && s.cell.c.count == 0 && s.lastActive < w.now - ttl
    case SweepDelete => w.sweeping.Some?
  }

  function Joined(s: Site, now: int, weight: nat, grows: bool, budget: int, maxInflight: int, parks: bool): Site {
    Site(s.model, Next(s.cell, Start(weight, grows, budget, maxInflight, parks)), now, s.stamps + [now])
  }

  ghost function Moved(w: World, mv: Move, patience: nat, ttl: int): World
    requires Allowed(w, mv, patience, ttl)
  {
    match mv
    case Tick(dt) => w.(now := w.now + dt)
    case Lookup(model, weight, grows, budget, maxInflight, parks) =>
      if model in w.models then
        var i := w.models[model];
        w.(sites := w.sites[i := Joined(w.sites[i], w.now, weight, grows, budget, maxInflight, parks)])
      else
        w.(models := w.models[model := |w.sites|],
           sites := w.sites + [Joined(Site(model, FRESH, w.now, []), w.now, weight, grows, budget, maxInflight, parks)])
    case At(i, ev) => w.(sites := w.sites[i := w.sites[i].(cell := Next(w.sites[i].cell, ev))])
    case SweepCheck(model) => w.(sweeping := Some(model))
    case SweepDelete => w.(models := w.models - {w.sweeping.value}, sweeping := None)
  }

  /** The site new requests for its model will use. */
  predicate Current(w: World, i: nat)
    requires i < |w.sites|
  {
    w.sites[i].model in w.models && w.models[w.sites[i].model] == i
  }

  ghost predicate Abandoned(w: World, i: nat)
    requires i < |w.sites|
  {
    !Current(w, i) || w.sweeping == Some(w.sites[i].model)
  }

  ghost predicate GoodMap(w: World) {
    && (forall m :: m in w.models ==> w.models[m] < |w.sites| && w.sites[w.models[m]].model == m)
    && (w.sweeping.Some? ==> w.sweeping.value in w.models)
  }

  /** Holds in every run, however long calls keep trying. */
  ghost predicate Sound(w: World) {
    GoodMap(w) && forall i: nat :: i < |w.sites| ==> Inv(w.sites[i].cell)
  }

  /** Calls looked the state up no later than its last activity; abandoned states are old and empty. */
  ghost predicate GoodSite(w: World, i: nat, ttl: int)
    requires i < |w.sites|
  {
    var s := w.sites[i];
    && |s.stamps| == |s.cell.calls|
    && (forall k :: 0 <= k < |s.stamps| ==> s.stamps[k] <= s.lastActive)
    && s.lastActive <= w.now
    && (Abandoned(w, i) ==> s.lastActive + ttl < w.now && s.cell.c.count == 0)
  }

  ghost predicate Good(w: World, ttl: int) {
    Sound(w) && forall i: nat :: i < |w.sites| ==> GoodSite(w, i, ttl)
  }

  /** No reservation is held against a state that new requests for its model no longer see. */
  ghost predicate NoSplit(w: World) {
    forall i: nat, r: nat :: i < |w.sites| && r < |w.sites[i].cell.held| && !w.sites[i].cell.held[r].phase.Returned? ==>
      Current(w, i)
  }

  /** An empty state stays empty unless a call reserves on it. */
  lemma EmptyStaysEmpty(x: Cell, ev: Event)
    requires Inv(x) && x.c.count == 0 && Enabled(x, ev) && !ev.Try?
    ensures Next(x, ev).c.count == 0
  {
    if ev.GrowStart? || ev.GrowEnd? || ev.AdjustStart? || ev.AdjustEnd? || ev.ReleaseStart? || ev.ReleaseEnd? {
      TotalCoversEach(x.held, ev.r);
    }
  }

  lemma MoveKeepsSound(w: World, mv: Move, patience: nat, ttl: int)
    requires Sound(w) && Allowed(w, mv, patience, ttl)
    ensures Sound(Moved(w, mv, patience, ttl))
  {
    var y := Moved(w, mv, patience, ttl);
    forall i: nat | i < |y.sites| ensures Inv(y.sites[i].cell) {
      if mv.Lookup? {
        var ev := Start(mv.weight, mv.grows, mv.budget, mv.maxInflight, mv.parks);
        StepKeepsInv(if i < |w.sites| then w.sites[i].cell else FRESH, ev);
      } else if mv.At? && mv.i == i {
        StepKeepsInv(w.sites[i].cell, mv.ev);
      }
    }
  }

  lemma CellEventKeepsSite(w: World, i: nat, ev: Event, patience: nat, ttl: int)
    requires Good(w, ttl) && patience <= ttl && Allowed(w, At(i, ev), patience, ttl)
    ensures GoodSite(Moved(w, At(i, ev), patience, ttl), i, ttl)
  {
    var s := w.sites[i];
    assert GoodSite(w, i, ttl);
    assert ev.Try? ==> s.stamps[ev.k] <= s.lastActive;
    if Abandoned(w, i) { EmptyStaysEmpty(s.cell, ev); }
  }

  lemma LookupKeepsSite(w: World, mv: Move, patience: nat, ttl: int, i: nat)
    requires Good(w, ttl) && mv.Lookup? && Allowed(w, mv, patience, ttl) && i < |Moved(w, mv, patience, ttl).sites|
    ensures GoodSite(Moved(w, mv, patience, ttl), i, ttl)
  {
    if i < |w.sites| { assert GoodSite(w, i, ttl); }
  }

  lemma TimeOrSweepKeepsSite(w: World, mv: Move, patience: nat, ttl: int, i: nat)
    requires Good(w, ttl) && Allowed(w, mv, patience, ttl) && i < |w.sites|
    requires mv.Tick? || mv.SweepCheck? || mv.SweepDelete?
    ensures GoodSite(Moved(w, mv, patience, ttl), i, ttl)
  {
    assert GoodSite(w, i, ttl);
  }

  lemma MoveKeepsGood(w: World, mv: Move, patience: nat, ttl: int)
    requires Good(w, ttl) && patience <= ttl && Allowed(w, mv, patience, ttl)
    ensures Good(Moved(w, mv, patience, ttl), ttl)
  {
    MoveKeepsSound(w, mv, patience, ttl);
    forall i: nat | i < |Moved(w, mv, patience, ttl).sites| ensures GoodSite(Moved(w, mv, patience, ttl), i, ttl) {
      match mv
      case Lookup(_, _, _, _, _, _) => LookupKeepsSite(w, mv, patience, ttl, i);
      case At(j, ev) =>
        assert GoodSite(w, i, ttl);
        if i == j { CellEventKeepsSite(w, i, ev, patience, ttl); }
      case _ => TimeOrSweepKeepsSite(w, mv, patience, ttl, i);
    }
  }

  ghost predicate Run(ws: seq<World>, mvs: seq<Move>, patience: nat, ttl: int) {
    && |ws| == |mvs| + 1 && ws[0] == START
    && forall i :: 0 <= i < |mvs| ==>
      Allowed(ws[i], mvs[i], patience, ttl) && ws[i + 1] == Moved(ws[i], mvs[i], patience, ttl)
  }

  lemma {:induction false} GoodAlongRun(ws: seq<World>, mvs: seq<Move>, patience: nat, ttl: int, i: nat)
    requires Run(ws, mvs, patience, ttl) && patience <= ttl && i < |ws|
    ensures Good(ws[i], ttl)
  {
    if i > 0 {
      GoodAlongRun(ws, mvs, patience, ttl, i - 1);
      MoveKeepsGood(ws[i - 1], mvs[i - 1], patience, ttl);
    }
  }

  lemma GoodMeansNoSplit(w: World, ttl: int)
    requires Good(w, ttl)
    ensures NoSplit(w)
  {
    forall i: nat, r: nat | i < |w.sites| && r < |w.sites[i].cell.held| && !w.sites[i].cell.held[r].phase.Returned?
      ensures Current(w, i)
    {
      assert GoodSite(w, i, ttl);
      TotalCoversEach(w.sites[i].cell.held, r);
    }
  }

  lemma {:induction false} SoundAlongRun(ws: seq<World>, mvs: seq<Move>, patience: nat, ttl: int, i: nat)
    requires Run(ws, mvs, patience, ttl) && i < |ws|
    ensures Sound(ws[i])
  {
    if i > 0 {
      SoundAlongRun(ws, mvs, patience, ttl, i - 1);
      MoveKeepsSound(ws[i - 1], mvs[i - 1], patience, ttl);
    }
  }

  /**
   * The janitor never evicts a state in use: in every run, at its idle check the state has no
   * reservation that is not handed back and no call blocked on a live channel.
   */
  lemma SweptStateIsUnused(ws: seq<World>, mvs: seq<Move>, patience: nat, ttl: int, i: nat, r: nat, k: nat)
    requires Run(ws, mvs, patience, ttl) && i < |mvs| && mvs[i].SweepCheck?
    ensures var x := ws[i].sites[ws[i].models[mvs[i].model]].cell;
            && (r < |x.held| ==> x.held[r].phase.Returned?)
            && (k < |x.calls| ==> !Blocked(x, x.calls[k]))
  {
    SoundAlongRun(ws, mvs, patience, ttl, i);
    var x := ws[i].sites[ws[i].models[mvs[i].model]].cell;
    if r < |x.held| { TotalCoversEach(x.held, r); }
    if k < |x.calls| { assert GoodCall(x, x.calls[k]); }
  }

  // ----- too patient a call

  const FULL := Held(false, 1, Idle)

  function OneCall(pc: Pc): Cell {
    FRESH.(calls := [Call(1, false, 1, 0, false, pc)])
  }

  const OCCUPIED :=
    OneCall(Admitted).(c := Counters(1, 1, 0), held := [FULL], admitBudget := 1)

  function SplitMoves(dt: nat): seq<Move> {
    [Lookup("m", 1, false, 1, 0, false), Tick(dt), SweepCheck("m"), SweepDelete,
     Lookup("m", 1, false, 1, 0, false), At(1, Try(0)), At(0, Try(0))]
  }

  function SplitWorlds(dt: nat): seq<World> {
    var waiting := Site("m", OneCall(First), 0, [0]);
    var second := Site("m", OneCall(First), dt, [dt]);
    [START,
     World(0, map["m" := 0], [waiting], None),
     World(dt, map["m" := 0], [waiting], None),
     World(dt, map["m" := 0], [waiting], Some("m")),
     World(dt, map[], [waiting], None),
     World(dt, map["m" := 1], [waiting, second], None),
     World(dt, map["m" := 1], [waiting, second.(cell := OCCUPIED)], None),
     World(dt, map["m" := 1], [waiting.(cell := OCCUPIED), second.(cell := OCCUPIED)], None)]
  }

  lemma FirstLookup(now: int)
    ensures Joined(Site("m", FRESH, now, []), now, 1, false, 1, 0, false) == Site("m", OneCall(First), now, [now])
  {
    assert FRESH.calls + [Call(1, false, 1, 0, false, First)] == [Call(1, false, 1, 0, false, First)];
  }

  lemma FirstHalf(dt: nat, patience: nat, ttl: int)
    requires ttl < dt
    ensures var ws, mvs := SplitWorlds(dt), SplitMoves(dt);
            forall i :: 0 <= i < 4 ==>
              Allowed(ws[i], mvs[i], patience, ttl) && ws[i + 1] == Moved(ws[i], mvs[i], patience, ttl)
  {
    var ws, mvs := SplitWorlds(dt), SplitMoves(dt);
    FirstLookup(0);
    assert ws[1].sites == START.sites + ws[1].sites;
    assert ws[1] == Moved(ws[0], mvs[0], patience, ttl);
    assert ws[4] == Moved(ws[3], mvs[3], patience, ttl);
  }

  lemma SecondHalf(dt: nat, patience: nat, ttl: int)
    requires dt <= patience
    ensures var ws, mvs := SplitWorlds(dt), SplitMoves(dt);
            forall i :: 4 <= i < 7 ==>
              Allowed(ws[i], mvs[i], patience, ttl) && ws[i + 1] == Moved(ws[i], mvs[i], patience, ttl)
  {
    var ws, mvs := SplitWorlds(dt), SplitMoves(dt);
    FirstLookup(dt);
    assert ws[5].sites == ws[4].sites + [ws[5].sites[1]];
    assert ws[5] == Moved(ws[4], mvs[4], patience, ttl);
    assert Next(OneCall(First), Try(0)) == OCCUPIED;
    assert ws[6] == Moved(ws[5], mvs[5], patience, ttl);
    assert ws[7] == Moved(ws[6], mvs[6], patience, ttl);
  }

  /** Two requests of weight 1 are in flight for one model under a budget of 1. */
  lemma PatientCallSplitsTheModel(patience: nat, ttl: int)
    requires ttl < patience
    ensures var dt := if ttl < 0 then 0 else ttl + 1; Run(SplitWorlds(dt), SplitMoves(dt), patience, ttl)
    ensures var w := SplitWorlds(if ttl < 0 then 0 else ttl + 1)[7];
            !NoSplit(w) && w.sites[0].cell.c.sumW + w.sites[1].cell.c.sumW == 2
  {
    var dt := if ttl < 0 then 0 else ttl + 1;
    FirstHalf(dt, patience, ttl);
    SecondHalf(dt, patience, ttl);
    var w := SplitWorlds(dt)[7];
    assert !w.sites[0].cell.held[0].phase.Returned? && !Current(w, 0);
  }

  /**
   * Evicting idle states is indistinguishable from keeping them exactly when no call keeps trying for
   * longer than the janitor's time to live: then one state holds all of a model's reservations, in every
   * run; otherwise some run splits them over two states and admits past the budget.
   */
  lemma SweepIsSafeIffCallsArePrompt(patience: nat, ttl: int)
    ensures patience <= ttl <==>
            forall ws, mvs :: Run(ws, mvs, patience, ttl) ==> NoSplit(ws[|mvs|])
  {
    if patience <= ttl {
      forall ws, mvs | Run(ws, mvs, patience, ttl) ensures NoSplit(ws[|mvs|]) {
        GoodAlongRun(ws, mvs, patience, ttl, |mvs|);
        GoodMeansNoSplit(ws[|mvs|], ttl);
      }
    } else {
      PatientCallSplitsTheModel(patience, ttl);
      var dt := if ttl < 0 then 0 else ttl + 1;
      assert Run(SplitWorlds(dt), SplitMoves(dt), patience, ttl) && !NoSplit(SplitWorlds(dt)[|SplitMoves(dt)|]);
    }
  }
}
