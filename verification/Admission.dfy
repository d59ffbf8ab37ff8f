/** The occupancy budget: weighted in-flight counters, reservations against them, and their controller. */
module Admission {

  /** Channels are numbered as they are made; `notify` is the current one. */
  datatype Counters = Counters(sumW: int, count: int, notify: nat)

  /** Room for one more request; a budget or backstop that is not positive is no limit. */
  predicate HasRoom(c: Counters, weight: int, budget: int, maxInflight: int) {
    (budget > 0 ==> c.sumW + weight <= budget) && (maxInflight > 0 ==> c.count + 1 <= maxInflight)
  }

  function Reserved(c: Counters, weight: int): Counters {
    c.(sumW := c.sumW + weight, count := c.count + 1)
  }

  function AtLeastZero(x: int): int {
    if x < 0 then 0 else x
  }

  function HandedBack(c: Counters, weight: int): Counters {
    Counters(AtLeastZero(c.sumW - weight), AtLeastZero(c.count - 1), c.notify + 1)
  }

  function Grown(c: Counters, delta: int): Counters {
    c.(sumW := c.sumW + delta)
  }

  function Adjusted(c: Counters, delta: int): Counters {
    Counters(AtLeastZero(c.sumW + delta), c.count, if delta < 0 then c.notify + 1 else c.notify)
  }

  /** The admit fraction applied to a budget: 0 stays "no limit", anything positive stays a limit. */
  function EffectiveBudget(fraction: real, tokens: int): (b: int)
    requires 0.0 < fraction <= 1.0
    ensures if tokens <= 0 then b == 0 else 1 <= b <= tokens
    ensures tokens > 0 ==>
              || b as real <= fraction * tokens as real < b as real + 1.0
              || (b == 1 && fraction * tokens as real < 1.0)
  {
    if tokens <= 0 then 0
    else
      var b := (fraction * tokens as real).Floor;
      if b < 1 then 1 else b
  }

  /** A larger budget or a larger fraction never gives a smaller limit. */
  lemma BudgetGrows(fraction: real, fraction': real, tokens: int, tokens': int)
    requires 0.0 < fraction <= fraction' <= 1.0 && 0 < tokens <= tokens'
    ensures EffectiveBudget(fraction, tokens) <= EffectiveBudget(fraction', tokens')
  {
    ProductGrows(fraction, fraction', tokens as real, tokens' as real);
  }

  lemma ProductGrows(a: real, a': real, b: real, b': real)
    requires 0.0 < a <= a' && 0.0 < b <= b'
    ensures a * b <= a' * b'
  {
    assert a * b <= a' * b;
    assert a' * b <= a' * b';
  }

  function Fits(fraction: real, footprint: nat, tokens: int): bool
    requires 0.0 < fraction <= 1.0
  {
    var b := EffectiveBudget(fraction, tokens);
    b <= 0 || footprint <= b
  }

  /** Fits is exactly the budget test at zero occupancy, and no occupancy makes room for what does not fit. */
  lemma FitsIffRoomWhenIdle(fraction: real, footprint: nat, tokens: int, c: Counters)
    requires 0.0 < fraction <= 1.0
    ensures var b := EffectiveBudget(fraction, tokens);
            && (Fits(fraction, footprint, tokens) <==> tokens <= 0 || footprint <= b)
            && (Fits(fraction, footprint, tokens) <==> HasRoom(Counters(0, 0, c.notify), footprint, b, 0))
            && (!Fits(fraction, footprint, tokens) && c.sumW >= 0 ==> !HasRoom(c, footprint, b, 0))
  {
  }

  class ModelState {
    var sumW: int
    var count: int
    var budget: int
    var maxInflight: int
    var notify: nat
    var closed: set<nat>
    var lastActive: int

    ghost function State(): Counters
      reads this
    {
      Counters(sumW, count, notify)
    }

    /** Nothing in flight, and last looked up before the cutoff. */
    predicate Idle(cutoff: int)
      reads this
    {
      sumW == 0 && count == 0 && lastActive < cutoff
    }

    constructor ()
      ensures State() == Counters(0, 0, 0) && closed == {} && budget == 0 && maxInflight == 0 && lastActive == 0
    {
      sumW, count, budget, maxInflight, notify, closed, lastActive := 0, 0, 0, 0, 0, {}, 0;
    }

    method TryReserve(weight: int, b: int, m: int) returns (ok: bool)
      modifies this
      ensures ok <==> (b <= 0 || old(sumW) + weight <= b) && (m <= 0 || old(count) < m)
      ensures ok == HasRoom(old(State()), weight, b, m)
      ensures sumW == old(sumW) + (if ok then weight else 0) && count == old(count) + (if ok then 1 else 0)
      ensures State() == (if ok then Reserved(old(State()), weight) else old(State()))
      ensures budget == b && maxInflight == m && closed == old(closed) && lastActive == old(lastActive)
    {
      budget, maxInflight := b, m;
      if b > 0 && sumW + weight > b { return false; }
      if m > 0 && count + 1 > m { return false; }
      sumW, count := sumW + weight, count + 1;
      ok := true;
    }

    method Release(weight: int)
      modifies this`sumW, this`count, this`notify, this`closed
      ensures State() == HandedBack(old(State()), weight) && closed == old(closed) + {old(notify)}
      ensures sumW == if weight <= old(sumW) then old(sumW) - weight else 0
      ensures count == if old(count) > 0 then old(count) - 1 else 0
      ensures notify == old(notify) + 1
    {
      sumW := sumW - weight;
      if sumW < 0 { sumW := 0; }
      count := count - 1;
      if count < 0 { count := 0; }
      var ch := notify;
      notify := notify + 1;
      closed := closed + {ch};
    }

    method Grow(delta: int)
      modifies this`sumW
      ensures State() == Grown(old(State()), delta) && sumW == old(sumW) + delta
    {
      sumW := sumW + delta;
    }

    method Adjust(delta: int)
      modifies this`sumW, this`notify, this`closed
      ensures State() == Adjusted(old(State()), delta)
      ensures sumW == if old(sumW) + delta >= 0 then old(sumW) + delta else 0
      ensures notify == old(notify) + (if delta < 0 then 1 else 0)
      ensures closed == old(closed) + (if delta < 0 then {old(notify)} else {})
    {
      sumW := sumW + delta;
      if sumW < 0 { sumW := 0; }
      if delta < 0 {
        var ch := notify;
        notify := notify + 1;
        closed := closed + {ch};
      }
    }
  }

  class Reservation {
    const state: ModelState
    const grows: bool
    var weight: int
    var released: bool

    constructor (s: ModelState, w: nat, g: bool)
      ensures state == s && weight == w && grows == g && !released
    {
      state, weight, grows, released := s, w, g, false;
    }

    /** Output streamed by an undeclared request, charged to reservation and state alike. */
    method Grow(tokens: int)
      modifies this`weight, state`sumW
      ensures var charged := if tokens > 0 && !released && grows then tokens else 0;
              weight == old(weight) + charged && state.sumW == old(state.sumW) + charged
    {
      if tokens <= 0 || released || !grows { return; }
      weight := weight + tokens;
      state.Grow(tokens);
    }

    /** A correction never takes more than this reservation holds, so other reservations keep theirs. */
    method Adjust(delta: int)
      modifies this`weight, state`sumW, state`notify, state`closed
      ensures weight == (if released || delta == 0 then old(weight) else AtLeastZero(old(weight) + delta))
      ensures weight == old(weight) ==> state.State() == old(state.State())
      ensures weight != old(weight) ==> state.State() == Adjusted(old(state.State()), weight - old(weight))
      ensures old(0 <= weight <= state.sumW) ==> state.sumW - weight == old(state.sumW - weight)
      ensures state.notify == old(state.notify) + (if weight < old(weight) then 1 else 0)
    {
      if delta == 0 || released { return; }
      var d := delta;
      if d < -weight { d := -weight; }
      if d == 0 { return; }
      weight := weight + d;
      state.Adjust(d);
    }

    /** Only the first call has an effect. */
    method Release()
      modifies this`released, state`sumW, state`count, state`notify, state`closed
      ensures released && weight == old(weight)
      ensures state.State() == if old(released) then old(state.State()) else HandedBack(old(state.State()), weight)
    {
      if released { return; }
      released := true;
      state.Release(weight);
    }
  }

  class Controller {
    var models: map<string, ModelState>

    constructor ()
      ensures models == map[]
    {
      models := map[];
    }

    method StateFor(model: string, now: int) returns (s: ModelState)
      modifies this, models.Values
      ensures model in models && models[model] == s && s.lastActive == now
      ensures if model in old(models) then models == old(models) && s.State() == old(models[model].State())
              else fresh(s) && s.State() == Counters(0, 0, 0) && models == old(models)[model := s]
    {
      if model in models {
        s := models[model];
        assert s in models.Values;
      } else {
        s := new ModelState();
        models := models[model := s];
      }
      s.lastActive := now;
    }

    /** Drops exactly the states that hold nothing and were last looked up before the cutoff. */
    method SweepIdle(cutoff: int) returns (removed: nat)
      modifies this
      ensures forall m :: m in models <==>
                m in old(models) && !old(models[m].Idle(cutoff))
      ensures forall m :: m in old(models) ==>
                (m !in models <==>
                   old(models[m].sumW) == 0 && old(models[m].count) == 0 && old(models[m].lastActive) < cutoff)
      ensures forall m :: m in models ==> models[m] == old(models)[m]
      ensures removed == |old(models)| - |models|
    {
      removed := 0;
      var todo := models.Keys;
      while todo != {}
        invariant todo <= old(models).Keys
        invariant forall m :: m in models <==>
                    m in old(models) &&
                    (m in todo || !old(models[m].Idle(cutoff)))
        invariant forall m :: m in models ==> models[m] == old(models)[m]
        invariant removed == |old(models)| - |models|
        decreases todo
      {
        var m :| m in todo;
        todo := todo - {m};
        var s := models[m];
        if s.sumW == 0 && s.count == 0 && s.lastActive < cutoff {
          assert models.Keys == (models - {m}).Keys + {m};
          models := models - {m};
          removed := removed + 1;
        }
      }
    }
  }
}
