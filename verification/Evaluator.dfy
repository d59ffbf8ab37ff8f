/** The filters of one policy step: the static match filter and the metric gates (internal/policy/evaluator.go). */
module Evaluator {
  import opened Prelude

  type AgentId = string

  datatype Metadata = Metadata(
    region: string, engine: string, organization: string, machine: string,
    tags: seq<string>, gpuModel: string, capability: string, capacity: int)

  /** What one pass over the agents reads of one of them: each part is read once, under the agent's lock. */
  datatype View = View(
    id: AgentId, healthy: bool, backendHealthy: bool, meta: Metadata, load: int, metrics: map<string, real>)

  /** An empty string or list constrains nothing. */
  datatype MatchFilter = MatchFilter(
    region: string, engine: string, tags: seq<string>, organization: string, machine: string, gpuModel: string)

  datatype ThresholdRule = ThresholdRule(gt: Option<real>, lt: Option<real>, gte: Option<real>, lte: Option<real>)

  type Gates = map<string, ThresholdRule>

  // ----- what the filters mean

  predicate Wants(want: string, got: string) {
    want == "" || got == want
  }

  predicate Tagged(tags: seq<string>, required: seq<string>) {
    forall t :: t in required ==> t in tags
  }

  predicate Matches(m: Metadata, f: MatchFilter) {
    && Wants(f.region, m.region) && Wants(f.engine, m.engine) && Wants(f.organization, m.organization)
    && Wants(f.machine, m.machine) && Tagged(m.tags, f.tags) && Wants(f.gpuModel, m.gpuModel)
  }

  /** The first attribute that did not match. */
  datatype Miss =
    | Region(got: string, want: string) | Engine(got: string, want: string) | Organization(got: string, want: string)
    | Machine(got: string, want: string) | Tag(missing: string, tags: seq<string>) | GpuModel(got: string, want: string)
    | Unknown

  /** The miss is a true statement about the agent and the filter. */
  predicate TrueMiss(m: Metadata, f: MatchFilter, r: Miss) {
    match r
    case Region(got, want) => got == m.region && want == f.region && !Wants(want, got)
    case Engine(got, want) => got == m.engine && want == f.engine && !Wants(want, got)
    case Organization(got, want) => got == m.organization && want == f.organization && !Wants(want, got)
    case Machine(got, want) => got == m.machine && want == f.machine && !Wants(want, got)
    case Tag(missing, tags) => tags == m.tags && missing in f.tags && missing !in tags
    case GpuModel(got, want) => got == m.gpuModel && want == f.gpuModel && !Wants(want, got)
    case Unknown => false
  }

  /** A reading inside every bound a rule sets; absent bounds allow anything. */
  predicate Within(value: real, rule: ThresholdRule) {
    && (rule.gt.Some? ==> value <= rule.gt.value)
    && (rule.lt.Some? ==> rule.lt.value <= value)
    && (rule.gte.Some? ==> value < rule.gte.value)
    && (rule.lte.Some? ==> rule.lte.value < value)
  }

  predicate Breaks(metrics: map<string, real>, gates: Gates, field: string) {
    field in gates && field in metrics && !Within(metrics[field], gates[field])
  }

  function Broken(metrics: map<string, real>, gates: Gates): set<string> {
    set field | field in gates && Breaks(metrics, gates, field)
  }

  // ----- the code

  method FirstMissingTag(tags: seq<string>, required: seq<string>) returns (missing: Option<string>)
    ensures missing.None? <==> Tagged(tags, required)
    ensures missing.Some? ==> missing.value in required && missing.value !in tags
  {
    for i := 0 to |required|
      invariant Tagged(tags, required[..i])
    {
      var found := false;
      for j := 0 to |tags|
        invariant !found && required[i] !in tags[..j]
      {
        if tags[j] == required[i] { found := true; break; }
      }
      assert tags[..|tags|] == tags;
      if !found { return Some(required[i]); }
    }
    assert required[..|required|] == required;
    return None;
  }

  method MatchesFilter(m: Metadata, f: MatchFilter) returns (r: bool)
    ensures r == Matches(m, f)
  {
    if f.region != "" && m.region != f.region { return false; }
    if f.engine != "" && m.engine != f.engine { return false; }
    if f.organization != "" && m.organization != f.organization { return false; }
    if f.machine != "" && m.machine != f.machine { return false; }
    var missing := FirstMissingTag(m.tags, f.tags);
    if missing.Some? { return false; }
    if f.gpuModel != "" && m.gpuModel != f.gpuModel { return false; }
    return true;
  }

  /** "unknown" is reported exactly for agents that match, so never for one the filter turned away. */
  method FilterMissReason(m: Metadata, f: MatchFilter) returns (r: Miss)
    ensures r.Unknown? <==> Matches(m, f)
    ensures !r.Unknown? ==> TrueMiss(m, f, r)
    ensures !Wants(f.region, m.region) ==> r.Region?
    ensures !r.Region? && !Wants(f.engine, m.engine) ==> r.Engine?
    ensures r.Organization? || r.Machine? || r.Tag? || r.GpuModel? ==> Wants(f.engine, m.engine)
    ensures r.Machine? || r.Tag? || r.GpuModel? ==> Wants(f.organization, m.organization)
    ensures r.Tag? || r.GpuModel? ==> Wants(f.machine, m.machine)
    ensures r.GpuModel? ==> Tagged(m.tags, f.tags)
  {
    if f.region != "" && m.region != f.region { return Region(m.region, f.region); }
    if f.engine != "" && m.engine != f.engine { return Engine(m.engine, f.engine); }
    if f.organization != "" && m.organization != f.organization { return Organization(m.organization, f.organization); }
    if f.machine != "" && m.machine != f.machine { return Machine(m.machine, f.machine); }
    var missing := FirstMissingTag(m.tags, f.tags);
    if missing.Some? { return Tag(missing.value, m.tags); }
    if f.gpuModel != "" && m.gpuModel != f.gpuModel { return GpuModel(m.gpuModel, f.gpuModel); }
    return Unknown;
  }

  method Violates(value: real, rule: ThresholdRule) returns (r: bool)
    ensures r == !Within(value, rule)
  {
    if rule.gt.Some? && value > rule.gt.value { return true; }
    if rule.lt.Some? && value < rule.lt.value { return true; }
    if rule.gte.Some? && value >= rule.gte.value { return true; }
    if rule.lte.Some? && value <= rule.lte.value { return true; }
    return false;
  }

  /** A missing metric passes; the answer does not depend on the order the gates are visited in. */
  method PassesGates(metrics: map<string, real>, gates: Gates) returns (r: bool)
    ensures r == (Broken(metrics, gates) == {})
  {
    var left := gates.Keys;
    while left != {}
      invariant left <= gates.Keys
      invariant Broken(metrics, gates) <= left
      decreases left
    {
      var field :| field in left;
      if field in metrics {
        var bad := Violates(metrics[field], gates[field]);
        if bad {
          assert field in Broken(metrics, gates);
          return false;
        }
      }
      left := left - {field};
    }
    return true;
  }

  /** All the gates a reading breaks, whatever order they are visited in. */
  method GateFailReason(metrics: map<string, real>, gates: Gates) returns (violated: set<string>)
    ensures violated == Broken(metrics, gates)
  {
    violated := {};
    var left := gates.Keys;
    while left != {}
      invariant left <= gates.Keys
      invariant violated + left >= Broken(metrics, gates) >= violated
      decreases left
    {
      var field :| field in left;
      if field in metrics {
        var bad := Violates(metrics[field], gates[field]);
        if bad { violated := violated + {field}; }
      }
      left := left - {field};
    }
  }
}
