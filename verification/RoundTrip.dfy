/** The smoothed round-trip time of an agent (internal/metrics/universal.go, updateRTT; RFC 6298 section 2). */
module RoundTrip {
  datatype Rtt = Rtt(inited: bool, srtt: real, rttvar: real)

  const FRESH := Rtt(false, 0.0, 0.0)

  function Abs(x: real): real {
    if x < 0.0 then -x else x
  }

  /** Fast down, slow up. */
  function Smoothed(srtt: real, sample: real): real {
    if sample < srtt then 0.5 * srtt + 0.5 * sample else 0.875 * srtt + 0.125 * sample
  }

  function Updated(s: Rtt, sample: real): Rtt {
    if !s.inited then Rtt(true, sample, sample / 2.0)
    else Rtt(true, Smoothed(s.srtt, sample), 0.75 * s.rttvar + 0.25 * Abs(s.srtt - sample))
  }

  function Distance(a: real, b: real): (d: real)
    ensures d >= 0.0 && (d == a - b || d == b - a)
  {
    if a < b then b - a else a - b
  }

  class AgentCounterState {
    var srttInited: bool
    var srtt: real
    var rttvar: real

    function State(): Rtt
      reads this
    {
      Rtt(srttInited, srtt, rttvar)
    }

    /** The variance is updated first, from the smoothed time before this sample. */
    method UpdateRtt(sample: real)
      modifies this
      ensures State() == Updated(old(State()), sample) && srttInited
      ensures !old(srttInited) ==> srtt == sample && 2.0 * rttvar == sample
      ensures old(srttInited) ==> 4.0 * rttvar == 3.0 * old(rttvar) + Distance(old(srtt), sample)
      ensures old(srttInited) && sample < old(srtt) ==> 2.0 * srtt == old(srtt) + sample
      ensures old(srttInited) && sample >= old(srtt) ==> 8.0 * srtt == 7.0 * old(srtt) + sample
    {
      if !srttInited {
        srtt := sample;
        rttvar := sample / 2.0;
        srttInited := true;
        return;
      }
      rttvar := 0.75 * rttvar + 0.25 * Abs(srtt - sample);
      if sample < srtt {
        srtt := 0.5 * srtt + 0.5 * sample;
      } else {
        srtt := 0.875 * srtt + 0.125 * sample;
      }
    }
  }

  /** The state after a sequence of samples. */
  function After(s: Rtt, samples: seq<real>): Rtt {
    if samples == [] then s else Updated(After(s, samples[..|samples| - 1]), samples[|samples| - 1])
  }

  ghost predicate Between(lo: real, samples: seq<real>, hi: real) {
    forall i :: 0 <= i < |samples| ==> lo <= samples[i] <= hi
  }

  /**
   * From a fresh state the smoothed time stays within the range of the samples and the variance below their greatest.
   */
  lemma {:induction false} StaysInRange(samples: seq<real>, lo: real, hi: real)
    requires samples != [] && 0.0 <= lo && Between(lo, samples, hi)
    ensures var s := After(FRESH, samples); s.inited && lo <= s.srtt <= hi && 0.0 <= s.rttvar <= hi
  {
    if |samples| > 1 { StaysInRange(samples[..|samples| - 1], lo, hi); } else { assert samples[..0] == []; }
  }

  function Pow2(k: nat): real {
    if k == 0 then 1.0 else 2.0 * Pow2(k - 1)
  }

  function Repeat(x: real, k: nat): seq<real> {
    if k == 0 then [] else Repeat(x, k - 1) + [x]
  }

  /** Halved k times. */
  function Shrunk(gap: real, k: nat): real {
    if k == 0 then gap else Shrunk(gap, k - 1) / 2.0
  }

  lemma {:induction false} ShrunkByPow2(gap: real, k: nat)
    ensures Shrunk(gap, k) * Pow2(k) == gap
  {
    if k > 0 {
      ShrunkByPow2(gap, k - 1);
      Halved(Shrunk(gap, k - 1), Shrunk(gap, k), Pow2(k - 1));
    }
  }

  lemma Halved(b: real, a: real, p: real)
    requires a == b / 2.0
    ensures a * (2.0 * p) == b * p
  {
  }

  /** k repeats of a lower value shrink the distance to it by exactly 2 to the k. */
  lemma {:induction false} RepeatsHalveTheGap(s: Rtt, x: real, k: nat)
    requires s.inited && x < s.srtt
    ensures var t := After(s, Repeat(x, k)); t.inited && x < t.srtt && t.srtt - x == Shrunk(s.srtt - x, k)
  {
    if k > 0 {
      RepeatsHalveTheGap(s, x, k - 1);
      RepeatStep(s, x, k);
    }
  }

  /** Seven eighths, k times. */
  function Closed(gap: real, k: nat): real {
    if k == 0 then gap else 0.875 * Closed(gap, k - 1)
  }

  /** k repeats of a higher value leave seven eighths of the distance to it, k times. */
  lemma {:induction false} RepeatsCloseTheGap(s: Rtt, x: real, k: nat)
    requires s.inited && x >= s.srtt
    ensures var t := After(s, Repeat(x, k)); t.inited && x >= t.srtt && x - t.srtt == Closed(x - s.srtt, k)
  {
    if k > 0 {
      RepeatsCloseTheGap(s, x, k - 1);
      RepeatUpStep(s, x, k);
    }
  }

  lemma RepeatUpStep(s: Rtt, x: real, k: nat)
    requires k > 0 && After(s, Repeat(x, k - 1)).inited && x >= After(s, Repeat(x, k - 1)).srtt
    ensures var b, t := After(s, Repeat(x, k - 1)), After(s, Repeat(x, k));
            t.inited && x - t.srtt == 0.875 * (x - b.srtt) && x >= t.srtt
  {
    assert Repeat(x, k)[..|Repeat(x, k)| - 1] == Repeat(x, k - 1);
  }

  /** Repeats of the smoothed time itself leave three quarters of the variance each. */
  lemma SteadySamplesSettle(s: Rtt)
    requires s.inited
    ensures Updated(s, s.srtt) == Rtt(true, s.srtt, 0.75 * s.rttvar)
  {
  }

  lemma RepeatStep(s: Rtt, x: real, k: nat)
    requires k > 0 && After(s, Repeat(x, k - 1)).inited && x < After(s, Repeat(x, k - 1)).srtt
    ensures var b, t := After(s, Repeat(x, k - 1)), After(s, Repeat(x, k)); t.inited && t.srtt - x == 0.5 * (b.srtt - x)
  {
    assert Repeat(x, k)[..|Repeat(x, k)| - 1] == Repeat(x, k - 1);
  }

  /** A larger sample or a larger past never gives a smaller result, although the weight changes with the branch. */
  lemma SmoothedGrows(srtt: real, srtt': real, sample: real, sample': real)
    requires srtt <= srtt' && sample <= sample'
    ensures Smoothed(srtt, sample) <= Smoothed(srtt', sample')
  {
  }

  /** Pointwise larger samples never give a smaller smoothed time. */
  lemma {:induction false} LargerSamplesLargerEstimate(samples: seq<real>, samples': seq<real>)
    requires |samples| == |samples'| && forall i :: 0 <= i < |samples| ==> samples[i] <= samples'[i]
    ensures var s, s' := After(FRESH, samples), After(FRESH, samples'); s.inited == s'.inited && s.srtt <= s'.srtt
  {
    if samples != [] {
      var n := |samples| - 1;
      LargerSamplesLargerEstimate(samples[..n], samples'[..n]);
      SmoothedGrows(After(FRESH, samples[..n]).srtt, After(FRESH, samples'[..n]).srtt, samples[n], samples'[n]);
    }
  }
}
