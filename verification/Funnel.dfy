/** The seven-gate candidate funnel of one routing step (internal/policy/executor.go, buildCandidates). */
module Funnel {
  import opened Evaluator
  import opened Prelude

  /**
   * What a step asks of an agent: the session's capability, the step's filters and the agents that already failed in
   * it.
   */
  datatype Query = Query(capability: string, filter: MatchFilter, excludeIf: Gates, failed: set<AgentId>)

  // ----- the gates, each on its own; gate 1 is the model filter the agents were listed by

  predicate Passes(v: View, q: Query, k: nat) {
    if k == 2 then v.healthy && v.backendHealthy
    else if k == 3 then q.capability == "" || v.meta.capability == q.capability
    else if k == 4 then Matches(v.meta, q.filter)
    else if k == 5 then v.id !in q.failed
    else if k == 6 then v.load < v.meta.capacity
    else if k == 7 then Broken(v.metrics, q.excludeIf) == {}
    else true
  }

  predicate Survives(v: View, q: Query, k: nat) {
    k <= 1 || (Survives(v, q, k - 1) && Passes(v, q, k))
  }

  predicate FallsAt(v: View, q: Query, k: nat) {
    2 <= k <= 7 && Survives(v, q, k - 1) && !Passes(v, q, k)
  }

  /** How many agents pass gates 1 to k. */
  function Pool(views: seq<View>, q: Query, k: nat): nat {
    if views == [] then 0
    else Pool(views[..|views| - 1], q, k) + if Survives(views[|views| - 1], q, k) then 1 else 0
  }

  /** How many agents fall at gate k and at no earlier one. */
  function Drop(views: seq<View>, q: Query, k: nat): nat {
    if views == [] then 0
    else Drop(views[..|views| - 1], q, k) + if FallsAt(views[|views| - 1], q, k) then 1 else 0
  }

  function Eligible(views: seq<View>, q: Query): seq<View> {
    if views == [] then []
    else Eligible(views[..|views| - 1], q) + if Survives(views[|views| - 1], q, 7) then [views[|views| - 1]] else []
  }

  // ----- the funnel is a partition

  /** The gate an agent falls at; 8 for a candidate. */
  function Fate(v: View, q: Query): nat {
    if !Passes(v, q, 2) then 2
    else if !Passes(v, q, 3) then 3
    else if !Passes(v, q, 4) then 4
    else if !Passes(v, q, 5) then 5
    else if !Passes(v, q, 6) then 6
    else if !Passes(v, q, 7) then 7
    else 8
  }

  lemma {:induction false} SurvivesUntilFate(v: View, q: Query, k: nat)
    requires k <= 7
    ensures Survives(v, q, k) <==> k < Fate(v, q)
  {
    if k > 1 { SurvivesUntilFate(v, q, k - 1); }
  }

  /** Every agent has exactly one fate: it falls at one gate and no other, or survives them all. */
  lemma OneFate(v: View, q: Query, k: nat)
    ensures FallsAt(v, q, k) <==> k == Fate(v, q) <= 7
    ensures Survives(v, q, 7) <==> Fate(v, q) == 8
  {
    SurvivesUntilFate(v, q, 7);
    if 2 <= k <= 7 { SurvivesUntilFate(v, q, k - 1); }
  }

  // ----- the gates in plain terms

  /** A reading inside every bound the rule sets. */
  predicate Tolerates(rule: ThresholdRule, value: real) {
    && !(rule.gt.Some? && value > rule.gt.value) && !(rule.lt.Some? && value < rule.lt.value)
    && !(rule.gte.Some? && value >= rule.gte.value) && !(rule.lte.Some? && value <= rule.lte.value)
  }

  predicate Fitting(m: Metadata, f: MatchFilter) {
    && (f.region == "" || m.region == f.region) && (f.engine == "" || m.engine == f.engine)
    && (f.organization == "" || m.organization == f.organization) && (f.machine == "" || m.machine == f.machine)
    && (f.gpuModel == "" || m.gpuModel == f.gpuModel)
    && forall tag :: tag in f.tags ==> tag in m.tags
  }

  predicate Calm(metrics: map<string, real>, rules: Gates) {
    forall field :: field in rules && field in metrics ==> Tolerates(rules[field], metrics[field])
  }

  /** What a step demands of an agent, condition by condition. */
  predicate Admissible(v: View, q: Query) {
    && v.healthy && v.backendHealthy
    && (q.capability == "" || v.meta.capability == q.capability)
    && Fitting(v.meta, q.filter)
    && v.id !in q.failed
    && v.load < v.meta.capacity
    && Calm(v.metrics, q.excludeIf)
  }

  lemma NothingBrokenIff(metrics: map<string, real>, rules: Gates)
    ensures Broken(metrics, rules) == {} <==> Calm(metrics, rules)
  {
    if Broken(metrics, rules) == {} {
      forall field | field in rules && field in metrics ensures Tolerates(rules[field], metrics[field]) {
        assert field !in Broken(metrics, rules);
      }
    }
  }

  /** An agent falls at the first condition it does not meet, in the order of the gates. */
  lemma FateIs(v: View, q: Query)
    ensures Fate(v, q) ==
            if !v.healthy || !v.backendHealthy then 2
            else if q.capability != "" && v.meta.capability != q.capability then 3
            else if !Fitting(v.meta, q.filter) then 4
            else if v.id in q.failed then 5
            else if v.load >= v.meta.capacity then 6
            else if !Calm(v.metrics, q.excludeIf) then 7
            else 8
  {
    NothingBrokenIff(v.metrics, q.excludeIf);
  }

  lemma AdmissibleIff(v: View, q: Query)
    ensures Survives(v, q, 7) <==> Admissible(v, q)
  {
    OneFate(v, q, 7);
    FateIs(v, q);
  }

  /** An agent is a candidate if and only if it is listed and meets every condition. */
  lemma {:induction false} EligibleIff(views: seq<View>, q: Query, v: View)
    ensures v in Eligible(views, q) <==> v in views && Admissible(v, q)
  {
    if views != [] {
      EligibleIff(views[..|views| - 1], q, v);
      AdmissibleIff(views[|views| - 1], q);
    }
  }

  /** The places of the agents that meet every condition. */
  function Places(views: seq<View>, q: Query): seq<nat> {
    if views == [] then []
    else Places(views[..|views| - 1], q) + if Admissible(views[|views| - 1], q) then [|views| - 1] else []
  }

  lemma {:induction false} PlacesIncrease(views: seq<View>, q: Query)
    ensures forall i :: 0 <= i < |Places(views, q)| ==> Places(views, q)[i] < |views|
    ensures forall i, j :: 0 <= i < j < |Places(views, q)| ==> Places(views, q)[i] < Places(views, q)[j]
  {
    if views != [] { PlacesIncrease(views[..|views| - 1], q); }
  }

  /** The candidates are the agents at those places, in the order they were listed in. */
  lemma {:induction false} EligibleKeepsOrder(views: seq<View>, q: Query)
    ensures |Eligible(views, q)| == |Places(views, q)|
    ensures forall i :: 0 <= i < |Places(views, q)| ==>
              Places(views, q)[i] < |views| && Eligible(views, q)[i] == views[Places(views, q)[i]]
  {
    if views != [] {
      EligibleKeepsOrder(views[..|views| - 1], q);
      AdmissibleIff(views[|views| - 1], q);
    }
  }

  lemma {:induction false} PoolStep(views: seq<View>, q: Query, k: nat)
    requires 2 <= k <= 7
    ensures Pool(views, q, k - 1) == Pool(views, q, k) + Drop(views, q, k)
  {
    if views != [] { PoolStep(views[..|views| - 1], q, k); }
  }

  lemma {:induction false} FirstPool(views: seq<View>, q: Query)
    ensures Pool(views, q, 1) == |views|
  {
    if views != [] { FirstPool(views[..|views| - 1], q); }
  }

  lemma {:induction false} LastPool(views: seq<View>, q: Query)
    ensures |Eligible(views, q)| == Pool(views, q, 7)
  {
    if views != [] { LastPool(views[..|views| - 1], q); }
  }

  /** The six groups that fall and the candidates account for every listed agent. */
  lemma FunnelIsAPartition(views: seq<View>, q: Query)
    ensures Drop(views, q, 2) + Drop(views, q, 3) + Drop(views, q, 4) + Drop(views, q, 5) + Drop(views, q, 6)
            + Drop(views, q, 7) + |Eligible(views, q)| == |views|
  {
    FirstPool(views, q);
    LastPool(views, q);
    PoolStep(views, q, 2);
    PoolStep(views, q, 3);
    PoolStep(views, q, 4);
    PoolStep(views, q, 5);
    PoolStep(views, q, 6);
    PoolStep(views, q, 7);
  }

  lemma {:induction false} EligibleAreListed(views: seq<View>, q: Query, i: nat)
    requires i < |Eligible(views, q)|
    ensures Eligible(views, q)[i] in views && Survives(Eligible(views, q)[i], q, 7)
  {
    var front := views[..|views| - 1];
    if i < |Eligible(front, q)| { EligibleAreListed(front, q, i); }
  }

  lemma {:induction false} DroppedAgentExists(views: seq<View>, q: Query, k: nat)
    requires Drop(views, q, k) > 0
    ensures exists v :: v in views && FallsAt(v, q, k)
  {
    var last := views[|views| - 1];
    if FallsAt(last, q, k) {
      assert last in views;
    } else {
      DroppedAgentExists(views[..|views| - 1], q, k);
    }
  }

  // ----- counting by cause

  datatype Cause =
    | ModelNotRegistered | Unhealthy | Capability | Attribute(miss: Miss)
    | PrevFailed | AtCapacity | Metrics(fields: set<string>)

  type Causes = map<Cause, nat>

  /** The gate a cause belongs to. */
  function GateOf(c: Cause): nat {
    match c
    case ModelNotRegistered => 1
    case Unhealthy => 2
    case Capability => 3
    case Attribute(_) => 4
    case PrevFailed => 5
    case AtCapacity => 6
    case Metrics(_) => 7
  }

  ghost predicate Labeled(m: Causes, lo: nat, hi: nat) {
    forall c :: c in m ==> lo <= GateOf(c) <= hi
  }

  /** The code's counters after a pass over the agents. */
  datatype Tally = Tally(unhealthy: nat, filterMiss: Causes, prevFailed: nat, atCapacity: nat, gateMiss: Causes)

  function CapabilityMisses(t: Tally): nat {
    if Capability in t.filterMiss then t.filterMiss[Capability] else 0
  }

  ghost predicate MissesCounted(filterMiss: Causes, capability: nat, other: nat) {
    && Positive(filterMiss)
    && (if Capability in filterMiss then filterMiss[Capability] else 0) == capability
    && Total(filterMiss - {Capability}) == other
  }

  lemma CountCapability(m: Causes, capability: nat, other: nat)
    requires MissesCounted(m, capability, other)
    ensures MissesCounted(Bump(m, Capability), capability + 1, other)
  {
    assert Bump(m, Capability) - {Capability} == m - {Capability};
  }

  lemma CountAttribute(m: Causes, miss: Miss, capability: nat, other: nat)
    requires MissesCounted(m, capability, other)
    ensures MissesCounted(Bump(m, Attribute(miss)), capability, other + 1)
  {
    assert Bump(m, Attribute(miss)) - {Capability} == Bump(m - {Capability}, Attribute(miss));
    TotalBump(m - {Capability}, Attribute(miss));
  }

  lemma NoMissCounted(m: Causes, capability: nat, other: nat)
    requires MissesCounted(m, capability, other)
    ensures m == map[] <==> capability + other == 0
  {
    if Capability in m { assert m != map[]; } else { assert m - {Capability} == m; }
    NothingCounted(m - {Capability});
  }

  ghost predicate Tallied(t: Tally, views: seq<View>, q: Query) {
    && t.unhealthy == Drop(views, q, 2)
    && MissesCounted(t.filterMiss, Drop(views, q, 3), Drop(views, q, 4))
    && t.prevFailed == Drop(views, q, 5)
    && t.atCapacity == Drop(views, q, 6)
    && Positive(t.gateMiss) && Total(t.gateMiss) == Drop(views, q, 7)
    && Labeled(t.filterMiss, 3, 4) && Labeled(t.gateMiss, 7, 7)
  }

  lemma DropNext(views: seq<View>, q: Query, v: View, k: nat)
    ensures Drop(views + [v], q, k) == Drop(views, q, k) + if k == Fate(v, q) <= 7 then 1 else 0
  {
    assert (views + [v])[..|views|] == views;
    OneFate(v, q, k);
  }

  lemma EligibleNext(views: seq<View>, q: Query, v: View)
    ensures Eligible(views + [v], q) == Eligible(views, q) + if Fate(v, q) == 8 then [v] else []
  {
    assert (views + [v])[..|views|] == views;
    OneFate(v, q, 7);
  }

  /** The counters with one more agent under its fate, and for a match miss a true reason. */
  ghost predicate Noted(t: Tally, t': Tally, v: View, q: Query) {
    var k := Fate(v, q);
    if k == 2 then t' == t.(unhealthy := t.unhealthy + 1)
    else if k == 3 then t' == t.(filterMiss := Bump(t.filterMiss, Capability))
    else if k == 4 then
      exists miss :: TrueMiss(v.meta, q.filter, miss) && t' == t.(filterMiss := Bump(t.filterMiss, Attribute(miss)))
    else if k == 5 then t' == t.(prevFailed := t.prevFailed + 1)
    else if k == 6 then t' == t.(atCapacity := t.atCapacity + 1)
    else if k == 7 then t' == t.(gateMiss := Bump(t.gateMiss, Metrics(Broken(v.metrics, q.excludeIf))))
    else t' == t
  }

  /** Counting one more agent under its fate keeps the tally true. */
  lemma TallyNext(t: Tally, t': Tally, views: seq<View>, q: Query, v: View)
    requires Tallied(t, views, q) && Noted(t, t', v, q)
    ensures Tallied(t', views + [v], q)
  {
    DropNext(views, q, v, 2);
    DropNext(views, q, v, 3);
    DropNext(views, q, v, 4);
    DropNext(views, q, v, 5);
    DropNext(views, q, v, 6);
    DropNext(views, q, v, 7);
    TallyFate(t, t', v, q, Drop(views, q, 3), Drop(views, q, 4));
    TallyLabels(t, t', v, q);
  }

  lemma TallyLabels(t: Tally, t': Tally, v: View, q: Query)
    requires Noted(t, t', v, q) && Labeled(t.filterMiss, 3, 4) && Labeled(t.gateMiss, 7, 7)
    ensures Labeled(t'.filterMiss, 3, 4) && Labeled(t'.gateMiss, 7, 7)
  {
  }

  lemma TallyFate(t: Tally, t': Tally, v: View, q: Query, capability: nat, other: nat)
    requires Noted(t, t', v, q) && MissesCounted(t.filterMiss, capability, other) && Positive(t.gateMiss)
    ensures Fate(v, q) == 3 ==> MissesCounted(t'.filterMiss, capability + 1, other)
    ensures Fate(v, q) == 4 ==> MissesCounted(t'.filterMiss, capability, other + 1)
    ensures Fate(v, q) == 7 ==> Positive(t'.gateMiss) && Total(t'.gateMiss) == Total(t.gateMiss) + 1
  {
    if Fate(v, q) == 3 {
      CountCapability(t.filterMiss, capability, other);
    } else if Fate(v, q) == 4 {
      var miss :| t' == t.(filterMiss := Bump(t.filterMiss, Attribute(miss)));
      CountAttribute(t.filterMiss, miss, capability, other);
    } else if Fate(v, q) == 7 {
      TotalBump(t.gateMiss, Metrics(Broken(v.metrics, q.excludeIf)));
    }
  }

  /** What one agent adds to the counters, and whether it is a candidate. */
  method Judge(v: View, q: Query, t: Tally) returns (t': Tally, candidate: bool)
    ensures candidate == (Fate(v, q) == 8)
    ensures Noted(t, t', v, q)
  {
    t', candidate := t, false;
    if !v.healthy || !v.backendHealthy {
      t' := t.(unhealthy := t.unhealthy + 1);
    } else if q.capability != "" && v.meta.capability != q.capability {
      t' := t.(filterMiss := Bump(t.filterMiss, Capability));
    } else {
      var matches := MatchesFilter(v.meta, q.filter);
      if !matches {
        var miss := FilterMissReason(v.meta, q.filter);
        t' := t.(filterMiss := Bump(t.filterMiss, Attribute(miss)));
      } else if v.id in q.failed {
        t' := t.(prevFailed := t.prevFailed + 1);
      } else if v.load >= v.meta.capacity {
        t' := t.(atCapacity := t.atCapacity + 1);
      } else {
        var ok := PassesGates(v.metrics, q.excludeIf);
        if !ok {
          var fields := GateFailReason(v.metrics, q.excludeIf);
          t' := t.(gateMiss := Bump(t.gateMiss, Metrics(fields)));
        } else {
          candidate := true;
        }
      }
    }
  }

  /** The pass over the listed agents: candidates in order, everyone else counted once. */
  method Sift(views: seq<View>, q: Query) returns (candidates: seq<View>, t: Tally)
    ensures candidates == Eligible(views, q)
    ensures Tallied(t, views, q)
  {
    candidates, t := [], Tally(0, map[], 0, 0, map[]);
    for i := 0 to |views|
      invariant candidates == Eligible(views[..i], q)
      invariant Tallied(t, views[..i], q)
    {
      var t', candidate := Judge(views[i], q, t);
      TallyNext(t, t', views[..i], q, views[i]);
      t := t';
      EligibleNext(views[..i], q, views[i]);
      assert views[..i + 1] == views[..i] + [views[i]];
      if candidate { candidates := candidates + [views[i]]; }
    }
    assert views[..|views|] == views;
  }

  // ----- the trace of an empty result

  /** One gate of the trace: the pool before and after it (-1 before the first gate) and why agents fell. */
  datatype GateDiag = GateDiag(num: nat, poolIn: int, poolOut: int, causes: Causes)

  ghost predicate TrueGate(g: GateDiag, views: seq<View>, q: Query) {
    && 2 <= g.num <= 7 && 0 < g.poolIn
    && g.poolIn == Pool(views, q, g.num - 1) && g.poolOut == Pool(views, q, g.num)
    && Total(g.causes) == g.poolIn - g.poolOut && Positive(g.causes) && Labeled(g.causes, g.num, g.num)
  }

  /** A chain of gates whose pools are the true ones, without a gap. */
  ghost predicate Chained(gates: seq<GateDiag>, views: seq<View>, q: Query) {
    && 1 <= |gates| <= 7
    && gates[0].num == 1 && gates[0].poolIn == -1 && gates[0].poolOut == |views|
    && forall i :: 1 <= i < |gates| ==> gates[i].num == i + 1 && TrueGate(gates[i], views, q)
  }

  /** ... that ends where the pool runs dry. */
  ghost predicate TrueChain(gates: seq<GateDiag>, views: seq<View>, q: Query) {
    Chained(gates, views, q) && gates[|gates| - 1].poolOut == 0
  }

  /** A chain that accounts for the first k gates, or stopped at an empty pool before. */
  ghost predicate ChainedTo(gates: seq<GateDiag>, rem: int, k: nat, views: seq<View>, q: Query) {
    && Chained(gates, views, q) && rem == gates[|gates| - 1].poolOut
    && (rem != 0 ==> |gates| == k && rem == Pool(views, q, k))
  }

  lemma AddGate(gates: seq<GateDiag>, rem: int, k: nat, out: int, causes: Causes, views: seq<View>, q: Query)
    requires 1 <= k <= 6 && ChainedTo(gates, rem, k, views, q) && rem > 0
    requires out == rem - Drop(views, q, k + 1) && Total(causes) == Drop(views, q, k + 1)
    requires Positive(causes) && Labeled(causes, k + 1, k + 1)
    ensures ChainedTo(gates + [GateDiag(k + 1, rem, out, causes)], out, k + 1, views, q)
  {
    PoolStep(views, q, k + 1);
  }

  function Counted(c: Cause, n: nat): Causes {
    if n > 0 then map[c := n] else map[]
  }

  lemma CountedTotal(c: Cause, n: nat)
    ensures Total(Counted(c, n)) == n && Positive(Counted(c, n)) && Labeled(Counted(c, n), GateOf(c), GateOf(c))
  {
    if n > 0 {
      TotalAny(map[c := n], c);
      assert map[c := n] - {c} == map[];
    }
  }

  method AppendGate(gates: seq<GateDiag>, rem: nat, k: nat, misses: nat, causes: Causes,
                    ghost views: seq<View>, ghost q: Query) returns (gates': seq<GateDiag>, rem': nat)
    requires 1 <= k <= 6 && ChainedTo(gates, rem, k, views, q)
    requires misses == Drop(views, q, k + 1) && Total(causes) == misses
    requires Positive(causes) && Labeled(causes, k + 1, k + 1)
    ensures ChainedTo(gates', rem', k + 1, views, q)
  {
    gates', rem' := gates, rem;
    if rem > 0 {
      PoolStep(views, q, k + 1);
      AddGate(gates, rem, k, rem - misses, causes, views, q);
      gates', rem' := gates + [GateDiag(k + 1, rem, rem - misses, causes)], rem - misses;
    }
  }

  /** The match misses: the counts of every cause but the capability, in any order. */
  method MatchMisses(filterMiss: Causes) returns (n: nat, parts: Causes)
    ensures n == Total(parts) && parts == filterMiss - {Capability}
  {
    parts := filterMiss - {Capability};
    n := 0;
    var left := parts;
    while left != map[]
      invariant n + Total(left) == Total(parts)
      decreases |left|
    {
      var k :| k in left;
      TotalAny(left, k);
      n := n + left[k];
      left := left - {k};
    }
  }

  lemma PartsAreMatches(m: Causes)
    requires Positive(m) && Labeled(m, 3, 4)
    ensures Positive(m - {Capability}) && Labeled(m - {Capability}, 4, 4)
  {
  }

  /** Gates 1 to 4. */
  method TraceFront(views: seq<View>, q: Query, t: Tally) returns (gates: seq<GateDiag>, rem: nat)
    requires Tallied(t, views, q)
    ensures ChainedTo(gates, rem, 4, views, q)
  {
    FirstPool(views, q);
    var capMisses := CapabilityMisses(t);
    var matchMisses, matchParts := MatchMisses(t.filterMiss);
    PartsAreMatches(t.filterMiss);
    CountedTotal(Unhealthy, t.unhealthy);
    CountedTotal(Capability, capMisses);
    gates := [GateDiag(1, -1, |views|, map[])];
    rem := |views|;
    gates, rem := AppendGate(gates, rem, 1, t.unhealthy, Counted(Unhealthy, t.unhealthy), views, q);
    gates, rem := AppendGate(gates, rem, 2, capMisses, Counted(Capability, capMisses), views, q);
    gates, rem := AppendGate(gates, rem, 3, matchMisses, matchParts, views, q);
  }

  /** The trace of a step without candidates: true pools at every gate, the last one empty. */
  method Trace(views: seq<View>, q: Query, t: Tally) returns (gates: seq<GateDiag>)
    requires Tallied(t, views, q) && Eligible(views, q) == []
    ensures TrueChain(gates, views, q)
  {
    LastPool(views, q);
    CountedTotal(PrevFailed, t.prevFailed);
    CountedTotal(AtCapacity, t.atCapacity);
    var rem;
    gates, rem := TraceFront(views, q, t);
    gates, rem := AppendGate(gates, rem, 4, t.prevFailed, Counted(PrevFailed, t.prevFailed), views, q);
    gates, rem := AppendGate(gates, rem, 5, t.atCapacity, Counted(AtCapacity, t.atCapacity), views, q);
    if rem > 0 {
      PoolStep(views, q, 7);
      AddGate(gates, rem, 6, 0, t.gateMiss, views, q);
      gates := gates + [GateDiag(7, rem, 0, t.gateMiss)];
    }
  }
}
