/** calculate_session_results of twamp_light_sender/twamp_light.rs, in exact arithmetic:
    samples are integer nanoseconds, averages are reals. */
module Statistics {
  import opened MachineInts
  import opened Wrappers
  import opened Time
  import opened Packets

  // ----- samples

  predicate IsMeasured(p: PacketResults) {
    p.t2.Some? && p.t3.Some?
  }

  function Measured(ps: seq<PacketResults>): (r: seq<PacketResults>)
    ensures |r| <= |ps|
  {
    if ps == [] then []
    else
      var before := Measured(ps[..|ps| - 1]);
      if IsMeasured(ps[|ps| - 1]) then before + [ps[|ps| - 1]] else before
  }

  /** Exactly the packets with both remote stamps are counted, each as often as it occurs. */
  lemma {:induction false} MeasuredExactly(ps: seq<PacketResults>, p: PacketResults)
    ensures multiset(Measured(ps))[p] == if p.t2.Some? && p.t3.Some? then multiset(ps)[p] else 0
  {
    if ps != [] {
      var front, last := ps[..|ps| - 1], ps[|ps| - 1];
      MeasuredExactly(front, p);
      assert ps == front + [last];
    }
  }

  function RttNanos(p: PacketResults): Option<int> {
    var d := CalculateRtt(p);
    if d.None? then None else Some(DurationNanos(d.value))
  }

  function ForwardNanos(p: PacketResults): Option<int> {
    var i := CalculateOwdForward(p);
    if i.None? then None else Some(IntervalNanos(i.value))
  }

  function BackwardNanos(p: PacketResults): Option<int> {
    var i := CalculateOwdBackward(p);
    if i.None? then None else Some(IntervalNanos(i.value))
  }

  function ProcessNanos(p: PacketResults): Option<int> {
    var d := CalculateRpd(p);
    if d.None? then None else Some(DurationNanos(d.value))
  }

  /** The defined samples of the packets, in order. */
  function Collect(ps: seq<PacketResults>, sample: PacketResults -> Option<int>): (v: seq<int>)
    ensures |v| <= |ps|
  {
    if ps == [] then []
    else
      var before := Collect(ps[..|ps| - 1], sample);
      var x := sample(ps[|ps| - 1]);
      if x.Some? then before + [x.value] else before
  }

  /** Sample i of packets that all have one is that of packet i. */
  lemma {:induction false} CollectAt(ps: seq<PacketResults>, sample: PacketResults -> Option<int>, i: nat)
    requires i < |ps| && forall p :: p in ps ==> sample(p).Some?
    ensures |Collect(ps, sample)| == |ps| && Collect(ps, sample)[i] == sample(ps[i]).value
  {
    var m := |ps| - 1;
    if m > 0 {
      CollectAt(ps[..m], sample, if i < m then i else 0);
    }
  }

  function Sum(v: seq<int>): int {
    if v == [] then 0 else Sum(v[..|v| - 1]) + v[|v| - 1]
  }

  /** Absolute differences of neighbours. */
  function Jitter(v: seq<int>): seq<int> {
    if |v| < 2 then [] else Jitter(v[..|v| - 1]) + [Abs(v[|v| - 1] - v[|v| - 2])]
  }

  lemma {:induction false} JitterAt(v: seq<int>, i: nat)
    requires i + 1 < |v|
    ensures |Jitter(v)| == |v| - 1 && Jitter(v)[i] == Abs(v[i + 1] - v[i])
  {
    if |v| > 2 {
      JitterAt(v[..|v| - 1], if i + 2 < |v| then i else 0);
    }
  }

  datatype Samples = Samples(rtt: seq<int>, forward: seq<int>, backward: seq<int>, process: seq<int>,
                             forwardJitter: seq<int>, backwardJitter: seq<int>)

  datatype Sums = Sums(rtt: int, forward: int, backward: int, process: int)

  /** One metric taken over a vector: what the loop maintains. */
  ghost predicate Tracks(v: seq<int>, sum: int, ps: seq<PacketResults>, sample: PacketResults -> Option<int>) {
    v == Collect(ps, sample) && sum == Sum(v)
  }

  ghost predicate TracksJitter(jitter: seq<int>, previous: Option<int>, v: seq<int>) {
    && jitter == Jitter(v)
    && previous == if v == [] then None else Some(v[|v| - 1])
  }

  lemma TracksNext(v: seq<int>, sum: int, ps: seq<PacketResults>, p: PacketResults,
                   sample: PacketResults -> Option<int>)
    requires Tracks(v, sum, ps, sample)
    ensures var x := sample(p);
            if x.Some? then Tracks(v + [x.value], sum + x.value, ps + [p], sample)
            else Tracks(v, sum, ps + [p], sample)
  {
  }

  lemma TracksJitterNext(jitter: seq<int>, previous: Option<int>, v: seq<int>, x: int)
    requires TracksJitter(jitter, previous, v)
    ensures TracksJitter(if previous.Some? then jitter + [Abs(x - previous.value)] else jitter, Some(x), v + [x])
  {
  }

  method Accumulate(packets: seq<PacketResults>) returns (s: Samples, sums: Sums)
    ensures Tracks(s.rtt, sums.rtt, Measured(packets), RttNanos)
    ensures Tracks(s.forward, sums.forward, Measured(packets), ForwardNanos)
    ensures Tracks(s.backward, sums.backward, Measured(packets), BackwardNanos)
    ensures Tracks(s.process, sums.process, Measured(packets), ProcessNanos)
    ensures s.forwardJitter == Jitter(s.forward) && s.backwardJitter == Jitter(s.backward)
  {
    hide RttNanos, ForwardNanos, BackwardNanos, ProcessNanos, IsMeasured, Tracks, TracksJitter;
    s, sums := Samples([], [], [], [], [], []), Sums(0, 0, 0, 0);
    var previousForward: Option<int>, previousBackward: Option<int> := None, None;
    TracksNothing();
    for i := 0 to |packets|
      invariant Tracks(s.rtt, sums.rtt, Measured(packets[..i]), RttNanos)
      invariant Tracks(s.forward, sums.forward, Measured(packets[..i]), ForwardNanos)
      invariant Tracks(s.backward, sums.backward, Measured(packets[..i]), BackwardNanos)
      invariant Tracks(s.process, sums.process, Measured(packets[..i]), ProcessNanos)
      invariant TracksJitter(s.forwardJitter, previousForward, s.forward)
      invariant TracksJitter(s.backwardJitter, previousBackward, s.backward)
    {
      var p := packets[i];
      ghost var seen := Measured(packets[..i]);
      assert packets[..i + 1][..i] == packets[..i];
      if IsMeasured(p) {
        TracksNext(s.rtt, sums.rtt, seen, p, RttNanos);
        var rtt := RttNanos(p);
        if rtt.Some? {
          s, sums := s.(rtt := s.rtt + [rtt.value]), sums.(rtt := sums.rtt + rtt.value);
        }
        TracksNext(s.forward, sums.forward, seen, p, ForwardNanos);
        var forward := ForwardNanos(p);
        if forward.Some? {
          TracksJitterNext(s.forwardJitter, previousForward, s.forward, forward.value);
          s, sums := s.(forward := s.forward + [forward.value]), sums.(forward := sums.forward + forward.value);
          if previousForward.Some? {
            s := s.(forwardJitter := s.forwardJitter + [Abs(forward.value - previousForward.value)]);
          }
          previousForward := Some(forward.value);
        }
        TracksNext(s.backward, sums.backward, seen, p, BackwardNanos);
        var backward := BackwardNanos(p);
        if backward.Some? {
          TracksJitterNext(s.backwardJitter, previousBackward, s.backward, backward.value);
          s, sums := s.(backward := s.backward + [backward.value]), sums.(backward := sums.backward + backward.value);
          if previousBackward.Some? {
            s := s.(backwardJitter := s.backwardJitter + [Abs(backward.value - previousBackward.value)]);
          }
          previousBackward := Some(backward.value);
        }
        TracksNext(s.process, sums.process, seen, p, ProcessNanos);
        var rpd := ProcessNanos(p);
        if rpd.Some? {
          s, sums := s.(process := s.process + [rpd.value]), sums.(process := sums.process + rpd.value);
        }
      }
    }
    assert packets[..|packets|] == packets;
    JitterOf(s.forwardJitter, previousForward, s.forward);
    JitterOf(s.backwardJitter, previousBackward, s.backward);
  }

  lemma TracksNothing()
    ensures forall f: PacketResults -> Option<int> :: Tracks([], 0, [], f)
    ensures TracksJitter([], None, [])
  {
  }

  lemma JitterOf(jitter: seq<int>, previous: Option<int>, v: seq<int>)
    requires TracksJitter(jitter, previous, v)
    ensures jitter == Jitter(v)
  {
  }
}
