/** What the packets show of their kernel stamps, whatever values these have. */
module CorrectionLaws {
  import opened Wrappers
  import opened Time
  import opened Packets
  import opened Sessions
  import opened Senders
  import opened SenderRuns
  import opened CorrectionRuns

  // ----- what the packets show

  /** Packet j of session i shows its own kernel stamp if that was drained, else its send stamp as stored. */
  ghost predicate RightAt(w: World, i: nat, j: nat)
    requires Shape(w) && i < |w.sessions| && j < w.ticks
  {
    IndexBound(i, j, |w.sessions|, w.ticks);
    var q := Index(i, j, |w.sessions|);
    var t1 := w.sessions[i].results[j].t1;
    && (forall m :: 0 <= m < w.drained && w.owners[m] == q ==> t1 == w.kernel[m])
    && ((forall m :: 0 <= m < w.drained ==> w.owners[m] != q) ==> t1 == Stored(w.sent[q]))
  }

  ghost predicate Right(w: World)
    requires Shape(w)
  {
    forall i, j :: 0 <= i < |w.sessions| && 0 <= j < w.ticks ==> RightAt(w, i, j)
  }

  lemma RightIfGivenAt(w: World, i: nat, j: nat)
    requires Traced(w) && GivenRight(w) && i < |w.sessions| && j < w.ticks
    ensures RightAt(w, i, j)
  {
    var q := Index(i, j, |w.sessions|);
    assert CarriesGiven(w, i, j);
    hide Index;
    if j < |w.given[i]| {
      var m := w.given[i][j];
      assert w.owners[m] == q;
      assert forall m' :: 0 <= m' < w.drained && w.owners[m'] == q ==> m' == m;
    } else {
      forall m | 0 <= m < w.drained ensures w.owners[m] != q {
        assert IsGiven(w, m);
        var i', j' :| GivenTo(w, m, i', j');
        IndexInjective(i, j, i', j', |w.sessions|);
      }
    }
  }

  lemma RightIfGiven(w: World)
    requires Traced(w) && GivenRight(w)
    ensures Right(w)
  {
    forall i, j | 0 <= i < |w.sessions| && 0 <= j < w.ticks ensures RightAt(w, i, j) {
      RightIfGivenAt(w, i, j);
    }
  }

  /** Stamp m differs from all others and from what packet p shows without one. */
  ghost predicate SinglesOut(w: World, m: nat, p: nat) {
    && m < |w.kernel| && p < |w.sent|
    && w.kernel[m] != Stored(w.sent[p])
    && forall a :: 0 <= a < |w.kernel| && a != m ==> w.kernel[a] != w.kernel[m]
  }

  /** A stamp m put on packet p that is not its own, or not put on p, which is. */
  ghost predicate Fault(w: World, m: nat, i: nat, j: nat)
    requires GivenInv(w) && w.drained <= |w.owners|
  {
    && m < w.drained && i < |w.sessions| && j < w.ticks
    && (GivenTo(w, m, i, j) <==> w.owners[m] != Index(i, j, |w.sessions|))
  }

  lemma FaultShows(w: World, m: nat, i: nat, j: nat)
    requires Traced(w) && Fault(w, m, i, j) && SinglesOut(w, m, Index(i, j, |w.sessions|))
    ensures !Right(w)
  {
    assert CarriesGiven(w, i, j);
    assert !RightAt(w, i, j);
  }

  lemma FindFault(w: World) returns (m: nat, i: nat, j: nat)
    requires Traced(w) && !GivenRight(w)
    ensures Fault(w, m, i, j)
  {
    var n := |w.sessions|;
    if !OwnOnly(w) {
      i, j :| 0 <= i < |w.given| && 0 <= j < |w.given[i]| && w.owners[w.given[i][j]] != Index(i, j, n);
      m := w.given[i][j];
      assert SentInOrder(w.sessions[i], w.ticks);
      assert GivenTo(w, m, i, j);
    } else {
      m :| m < w.drained && !IsGiven(w, m);
      KernelNeedsSessions(w);
      IndexOfPlace(w.owners[m], n, w.ticks);
      NonNegativeQuotient(w.owners[m], n);
      i, j := w.owners[m] % n, w.owners[m] / n;
      assert !GivenTo(w, m, i, j);
    }
  }

  // ----- whatever stamps the kernel gives

  predicate SamePattern(a: seq<Option<DateTime>>, b: seq<Option<DateTime>>) {
    |a| == |b| && forall i :: 0 <= i < |a| ==> (a[i].Some? <==> b[i].Some?)
  }

  /** The same step but for the values of the kernel's stamps. */
  predicate SameButStamps(a: Step, b: Step) {
    a == b || (a.Tick? && b.Tick? && a.stamps == b.stamps && SamePattern(a.kernelStamps, b.kernelStamps))
  }

  predicate SameSteps(a: seq<Step>, b: seq<Step>) {
    |a| == |b| && forall k :: 0 <= k < |a| ==> SameButStamps(a[k], b[k])
  }

  ghost predicate RightForAnyStamps(rx: Address, targets: seq<Address>, steps: seq<Step>) {
    forall other :: SameSteps(steps, other) ==> Shape(Run(rx, targets, other)) && Right(Run(rx, targets, other))
  }

  ghost predicate SameFrame(w: World, v: World) {
    && |w.sessions| == |v.sessions| && w.ticks == v.ticks && w.sent == v.sent && |w.kernel| == |v.kernel|
    && w.owners == v.owners && w.drained == v.drained && w.given == v.given && w.inTurn == v.inTurn
  }

  lemma {:induction false} SameOwners(a: seq<Option<DateTime>>, b: seq<Option<DateTime>>, from: nat)
    requires SamePattern(a, b)
    ensures Owners(a, from) == Owners(b, from)
  {
    if a != [] {
      SameOwners(a[..|a| - 1], b[..|b| - 1], from);
    }
  }

  lemma SameFrameTick(w: World, v: World, a: Step, b: Step)
    requires SameFrame(w, v) && SameButStamps(a, b) && a.Tick?
    ensures SameFrame(Next(w, a), Next(v, b))
  {
    SameOwners(a.kernelStamps, b.kernelStamps, |w.sent|);
    hide Ticked, Stamps, Owners;
  }

  lemma SameFrameCorrect(w: World, v: World, count: nat)
    requires SameFrame(w, v) && Traced(w) && Traced(v)
    ensures SameFrame(Next(w, Correct(count)), Next(v, Correct(count)))
  {
    forall i | 0 <= i < |w.sessions| ensures GivenBy(w, count, i) == GivenBy(v, count, i) {
      assert SentInOrder(w.sessions[i], w.ticks) && SentInOrder(v.sessions[i], v.ticks);
    }
    assert DrainInTurn(w, count) == DrainInTurn(v, count);
    hide Corrected, GivenBy, DrainInTurn;
    if w.drained + count <= |w.kernel| {
      assert Next(w, Correct(count)).given == Next(v, Correct(count)).given;
    }
  }

  /** Which packets get which stamps does not depend on the values of the stamps. */
  lemma {:induction false} SameStepsSameFrame(rx: Address, targets: seq<Address>, a: seq<Step>, b: seq<Step>)
    requires SameSteps(a, b)
    ensures SameFrame(Run(rx, targets, a), Run(rx, targets, b))
  {
    if a != [] {
      var m := |a| - 1;
      var w, v := Run(rx, targets, a[..m]), Run(rx, targets, b[..m]);
      SameStepsSameFrame(rx, targets, a[..m], b[..m]);
      EveryRunIsTraced(rx, targets, a[..m]);
      EveryRunIsTraced(rx, targets, b[..m]);
      assert SameButStamps(a[m], b[m]);
      hide Traced, SameSteps;
      match a[m]
      case Tick(_, _) => SameFrameTick(w, v, a[m], b[m]);
      case Reply(d) => hide Replied;
      case Correct(count) =>
        hide Next, SameFrame;
        SameFrameCorrect(w, v, count);
    }
  }

  /** Stamps with value x for packet p and y for all others. */
  function MarkedStamps(ks: seq<Option<DateTime>>, from: nat, p: nat, x: DateTime, y: DateTime)
    : seq<Option<DateTime>>
  {
    seq(|ks|, i requires 0 <= i < |ks| => if ks[i].None? then None else Some(if from + i == p then x else y))
  }

  function MarkedStep(step: Step, from: nat, p: nat, x: DateTime, y: DateTime): Step {
    if step.Tick? then step.(kernelStamps := MarkedStamps(step.kernelStamps, from, p, x, y)) else step
  }

  function Marking(rx: Address, targets: seq<Address>, steps: seq<Step>, p: nat, x: DateTime, y: DateTime)
    : (r: seq<Step>)
    ensures |r| == |steps|
  {
    if steps == [] then []
    else
      var front, step := steps[..|steps| - 1], steps[|steps| - 1];
      Marking(rx, targets, front, p, x, y) + [MarkedStep(step, |Run(rx, targets, front).sent|, p, x, y)]
  }

  ghost predicate Marked(kernel: seq<DateTime>, owners: seq<nat>, p: nat, x: DateTime, y: DateTime) {
    |kernel| == |owners| && forall a :: 0 <= a < |kernel| ==> kernel[a] == if owners[a] == p then x else y
  }

  lemma {:induction false} MarkedStampsAre(ks: seq<Option<DateTime>>, from: nat, p: nat, x: DateTime, y: DateTime)
    ensures var marked := MarkedStamps(ks, from, p, x, y);
            SamePattern(ks, marked) && Marked(Stamps(marked), Owners(marked, from), p, x, y)
  {
    if ks != [] {
      var m := |ks| - 1;
      MarkedStampsAre(ks[..m], from, p, x, y);
      assert MarkedStamps(ks, from, p, x, y)[..m] == MarkedStamps(ks[..m], from, p, x, y);
    }
  }

  lemma MarkedNext(w: World, step: Step, p: nat, x: DateTime, y: DateTime)
    requires Marked(w.kernel, w.owners, p, x, y)
    ensures var w' := Next(w, MarkedStep(step, |w.sent|, p, x, y));
            Marked(w'.kernel, w'.owners, p, x, y) && SameButStamps(step, MarkedStep(step, |w.sent|, p, x, y))
  {
    if step.Tick? {
      MarkedStampsAre(step.kernelStamps, |w.sent|, p, x, y);
    }
    hide Ticked, Replied, Corrected, Stamps, Owners, MarkedStamps, DrainInTurn;
  }

  lemma SameStepsFront(a: seq<Step>, b: seq<Step>, x: Step, y: Step)
    requires SameSteps(a, b) && SameButStamps(x, y)
    ensures SameSteps(a + [x], b + [y])
  {
  }

  lemma {:induction false} MarkingMarks(rx: Address, targets: seq<Address>, steps: seq<Step>,
                                        p: nat, x: DateTime, y: DateTime)
    ensures var marked := Marking(rx, targets, steps, p, x, y);
            && SameSteps(steps, marked)
            && Marked(Run(rx, targets, marked).kernel, Run(rx, targets, marked).owners, p, x, y)
  {
    if steps != [] {
      var front, step := steps[..|steps| - 1], steps[|steps| - 1];
      var before := Marking(rx, targets, front, p, x, y);
      var v := Run(rx, targets, before);
      MarkingMarks(rx, targets, front, p, x, y);
      SameStepsSameFrame(rx, targets, front, before);
      var step' := MarkedStep(step, |v.sent|, p, x, y);
      MarkedNext(v, step, p, x, y);
      assert (before + [step'])[..|before|] == before && steps == front + [step];
      assert Run(rx, targets, before + [step']) == Next(v, step');
      assert Marking(rx, targets, steps, p, x, y) == before + [step'];
      hide Run, Next, SameSteps, Marked, MarkedStep, Marking;
      SameStepsFront(front, before, step, step');
    }
  }

  /** A fault shows under some stamps: those that single out the one at fault. */
  lemma FaultCanShow(rx: Address, targets: seq<Address>, steps: seq<Step>)
    requires Traced(Run(rx, targets, steps)) && !GivenRight(Run(rx, targets, steps))
    ensures !RightForAnyStamps(rx, targets, steps)
  {
    var w := Run(rx, targets, steps);
    var m, i, j := FindFault(w);
    IndexBound(i, j, |w.sessions|, w.ticks);
    var q := Index(i, j, |w.sessions|);
    var x := if Stored(w.sent[q]) == DateTime(1, 0) then DateTime(2, 0) else DateTime(1, 0);
    var other := Marking(rx, targets, steps, w.owners[m], x, DateTime(0, 0));
    var v := Run(rx, targets, other);
    MarkingMarks(rx, targets, steps, w.owners[m], x, DateTime(0, 0));
    SameStepsSameFrame(rx, targets, steps, other);
    EveryRunIsTraced(rx, targets, other);
    hide Run, Stored, Index, Marking, GivenRight, RightForAnyStamps, Traced;
    MarkedFaultShows(w, v, m, i, j, x, DateTime(0, 0));
    assert !RightForAnyStamps(rx, targets, steps) by {
      NotForThese(rx, targets, steps, other);
    }
  }

  lemma NotForThese(rx: Address, targets: seq<Address>, steps: seq<Step>, other: seq<Step>)
    requires SameSteps(steps, other) && (Shape(Run(rx, targets, other)) ==> !Right(Run(rx, targets, other)))
    ensures !RightForAnyStamps(rx, targets, steps)
  {
  }

  /** A fault of w shows in v, which differs from it only in its stamps, if these single out the one at fault. */
  lemma MarkedFaultShows(w: World, v: World, m: nat, i: nat, j: nat, x: DateTime, y: DateTime)
    requires Traced(w) && Traced(v) && SameFrame(w, v) && Fault(w, m, i, j) && x != y
    requires Marked(v.kernel, v.owners, w.owners[m], x, y)
    requires Index(i, j, |w.sessions|) < |w.sent| && x != Stored(w.sent[Index(i, j, |w.sessions|)])
    ensures !Right(v)
  {
    hide Stored, Index;
    assert SinglesOut(v, m, Index(i, j, |w.sessions|));
    assert Fault(v, m, i, j);
    FaultShows(v, m, i, j);
  }

  /** Over every run, failed sends and drains of any size included: the packets show the right stamps,
      whatever values the kernel gives them, exactly when every drained stamp came in turn. */
  lemma CorrectionRightIff(rx: Address, targets: seq<Address>, steps: seq<Step>)
    ensures RightForAnyStamps(rx, targets, steps) <==> Run(rx, targets, steps).inTurn
  {
    InTurnDecides(rx, targets, steps);
    if Run(rx, targets, steps).inTurn {
      forall other | SameSteps(steps, other)
        ensures Shape(Run(rx, targets, other)) && Right(Run(rx, targets, other))
      {
        SameStepsSameFrame(rx, targets, steps, other);
        InTurnDecides(rx, targets, other);
        hide Run, Right, GivenRight;
        RightIfGiven(Run(rx, targets, other));
      }
    } else {
      hide Run, GivenRight, RightForAnyStamps, Traced;
      FaultCanShow(rx, targets, steps);
    }
  }

  /** In every run a packet above its session's cursor shows its send stamp exactly when that one survives
      the trip through NTP. */
  lemma SendStampKeptIff(rx: Address, targets: seq<Address>, steps: seq<Step>, i: nat, j: nat)
    requires var w := Run(rx, targets, steps); i < |w.sessions| && w.sessions[i].lastUpdated <= j < w.ticks
    ensures var w := Run(rx, targets, steps);
            var q := Index(i, j, |w.sessions|);
            && q < |w.sent| && j < |w.sessions[i].results|
            && (w.sessions[i].results[j].t1 == w.sent[q] <==> SurvivesNtp(w.sent[q]))
  {
    var w := Run(rx, targets, steps);
    EveryRunIsTraced(rx, targets, steps);
    IndexBound(i, j, |w.sessions|, w.ticks);
    assert CarriesGiven(w, i, j) && SentInOrder(w.sessions[i], w.ticks);
    NtpRoundTripIff(w.sent[Index(i, j, |w.sessions|)]);
    hide Run, Stored, SurvivesNtp, Index;
  }

  /** When all stamps came in turn, each drained one was given to the packet it belongs to and to no other. */
  lemma EachStampGoesToOnePacket(rx: Address, targets: seq<Address>, steps: seq<Step>, m: nat)
    requires Run(rx, targets, steps).inTurn && m < Run(rx, targets, steps).drained
    ensures var w := Run(rx, targets, steps);
            && |w.given| == |w.sessions| && m < |w.owners|
            && (exists i, j :: GivenTo(w, m, i, j))
            && forall i, j :: GivenTo(w, m, i, j) ==> Index(i, j, |w.sessions|) == w.owners[m]
  {
    InTurnDecides(rx, targets, steps);
    var w := Run(rx, targets, steps);
    hide Run, Index;
    assert IsGiven(w, m);
  }

  // ----- runs without failed sends, and runs that drain on boundaries

  /** Every send got a stamp. */
  predicate NoSendFailed(w: World) {
    |w.owners| == |w.sent|
  }

  /** The drained stamps are those of the first packets, without a gap. */
  predicate Unbroken(w: World) {
    forall m: nat :: m < w.drained && m < |w.owners| ==> w.owners[m] == m
  }

  lemma {:induction false} IncreasingBounds(s: seq<nat>, m: nat, top: nat)
    requires Increasing(s) && m < |s| && forall a :: 0 <= a < |s| ==> s[a] < top
    ensures m <= s[m] <= top - (|s| - m)
    decreases |s|
  {
    var last := |s| - 1;
    if last > 0 {
      var front := s[..last];
      assert forall a :: 0 <= a < last ==> front[a] == s[a] && s[a] < s[last];
      if m < last {
        IncreasingBounds(front, m, s[last]);
      } else {
        IncreasingBounds(front, last - 1, s[last]);
      }
    }
  }

  lemma OwnersAreAll(w: World)
    requires Traced(w) && NoSendFailed(w)
    ensures forall m :: 0 <= m < |w.owners| ==> w.owners[m] == m
  {
    forall m | 0 <= m < |w.owners| ensures w.owners[m] == m {
      IncreasingBounds(w.owners, m, |w.sent|);
    }
  }

  lemma SumOfPlaces(i: nat, a: nat, r: nat, n: nat)
    requires i < n
    ensures Index(i, a, n) + Index(0, r, n) == Index(i, a + r, n)
  {
    assert (a + r) * n == a * n + r * n;
  }

  lemma SameRemainder(d: nat, m: nat, n: nat)
    requires n > 0 && d % n == 0 && d <= m
    ensures (m - d) % n == m % n
  {
    IndexOfPlace(d, n, 0);
    IndexOfPlace(m - d, n, 0);
    NonNegativeQuotient(d, n);
    NonNegativeQuotient(m - d, n);
    var i, a, r := (m - d) % n, (m - d) / n, d / n;
    hide Index;
    SumOfPlaces(i, a, r, n);
    PartsOfIndex(i, a + r, n);
  }

  /** A stamp of an unbroken sequence comes in turn exactly when its drain began on a boundary. */
  lemma UnbrokenInTurn(owners: seq<nat>, n: nat, d: nat, m: nat)
    requires n > 0 && d % n == 0 && d <= m < |owners|
    requires forall x :: 0 <= x <= m ==> owners[x] == x
    ensures InTurn(owners, n, d, m)
  {
    SameRemainder(d, m, n);
    IndexOfPlace(m, n, 0);
    forall j: nat | j < m / n ensures Index(m % n, j, n) in owners[..m] {
      IndexMonotone(m % n, j, m / n, n);
      assert owners[..m][Index(m % n, j, n)] == Index(m % n, j, n);
    }
    hide Index;
  }

  /** In a drain on a boundary the next stamp of an unbroken sequence that comes in turn continues it. */
  lemma InTurnContinues(owners: seq<nat>, n: nat, d: nat, m: nat)
    requires n > 0 && d % n == 0 && d <= m < |owners| && Increasing(owners)
    requires InTurn(owners, n, d, m) && forall x :: 0 <= x < m ==> owners[x] == x
    ensures owners[m] == m
  {
    SameRemainder(d, m, n);
    var j := InTurnMeans(owners, n, d, m);
    IndexOfPlace(m, n, 0);
    NonNegativeQuotient(m, n);
    assert m > 0 ==> owners[m - 1] == m - 1;
    hide Index;
    IndexMonotone(m % n, m / n, j, n);
    IndexMonotone(m % n, j, m / n, n);
    IndexInjective(m % n, j, m % n, m / n, n);
  }

  /** For a drain on a boundary after an unbroken sequence. */
  lemma {:induction false} BoundaryDrain(w: World, count: nat)
    requires Traced(w) && w.sessions != [] && w.drained % |w.sessions| == 0 && w.drained + count <= |w.kernel|
    requires Unbroken(w)
    ensures DrainInTurn(w, count) <==> forall m :: w.drained <= m < w.drained + count ==> w.owners[m] == m
  {
    var n, d := |w.sessions|, w.drained;
    if forall m :: d <= m < d + count ==> w.owners[m] == m {
      forall m: nat | d <= m < d + count ensures InTurn(w.owners, n, d, m) {
        UnbrokenInTurn(w.owners, n, d, m);
      }
    }
    if DrainInTurn(w, count) {
      Continued(w, count, count);
    }
  }

  lemma {:induction false} Continued(w: World, count: nat, k: nat)
    requires Traced(w) && w.sessions != [] && w.drained % |w.sessions| == 0 && w.drained + count <= |w.kernel|
    requires Unbroken(w) && DrainInTurn(w, count) && k <= count
    ensures forall m :: w.drained <= m < w.drained + k ==> w.owners[m] == m
  {
    if k > 0 {
      Continued(w, count, k - 1);
      assert InTurn(w.owners, |w.sessions|, w.drained, w.drained + (k - 1));
      InTurnContinues(w.owners, |w.sessions|, w.drained, w.drained + (k - 1));
    }
  }

  lemma OnBoundariesNext(w: World, step: Step)
    requires Traced(w) && w.atBoundaries && Next(w, step).atBoundaries
    requires w.inTurn <==> Unbroken(w)
    ensures Next(w, step).inTurn <==> Unbroken(Next(w, step))
  {
    if !step.Correct? {
      OthersDecide(w, step);
      assert forall m :: 0 <= m < |w.owners| ==> Next(w, step).owners[m] == w.owners[m];
      hide Next;
    } else if w.drained + step.count <= |w.kernel| {
      GivenSame(w, step.count);
      assert Next(w, step).inTurn == (w.inTurn && DrainInTurn(w, step.count));
      if step.count > 0 {
        KernelNeedsSessions(w);
        assert w.drained % |w.sessions| == 0;
        hide Next, DrainInTurn;
        if Unbroken(w) {
          BoundaryDrain(w, step.count);
        }
      }
    }
  }

  lemma {:induction false} OnBoundaries(rx: Address, targets: seq<Address>, steps: seq<Step>)
    requires Run(rx, targets, steps).atBoundaries
    ensures Run(rx, targets, steps).inTurn <==> Unbroken(Run(rx, targets, steps))
  {
    if steps != [] {
      var w, step := Run(rx, targets, steps[..|steps| - 1]), steps[|steps| - 1];
      hide Next, Unbroken, Traced;
      assert Run(rx, targets, steps) == Next(w, step);
      BoundariesBefore(w, step);
      OnBoundaries(rx, targets, steps[..|steps| - 1]);
      EveryRunIsTraced(rx, targets, steps[..|steps| - 1]);
      OnBoundariesNext(w, step);
    }
  }

  lemma BoundariesBefore(w: World, step: Step)
    requires Next(w, step).atBoundaries
    ensures w.atBoundaries
  {
    hide Ticked, Replied, Corrected, DrainInTurn;
  }

  /** In every run whose drains begin on boundaries, the packets show the right stamps, whatever their
      values, exactly when nothing was drained past the first stamp that is missing. */
  lemma OnBoundariesIff(rx: Address, targets: seq<Address>, steps: seq<Step>)
    requires Run(rx, targets, steps).atBoundaries
    ensures RightForAnyStamps(rx, targets, steps) <==> Unbroken(Run(rx, targets, steps))
  {
    CorrectionRightIff(rx, targets, steps);
    OnBoundaries(rx, targets, steps);
    hide Run, RightForAnyStamps, Unbroken;
  }

  lemma NoSendFailedBefore(w: World, step: Step)
    requires Traced(w) && NoSendFailed(Next(w, step))
    ensures NoSendFailed(w)
  {
    if w.owners != [] {
      IncreasingBounds(w.owners, 0, |w.sent|);
    }
    match step
    case Tick(stamps, kernelStamps) => FewerStamps(kernelStamps);
    case Reply(_) =>
    case Correct(_) =>
  }

  lemma {:induction false} FewerStamps(ks: seq<Option<DateTime>>)
    ensures |Stamps(ks)| <= |ks|
  {
    if ks != [] {
      FewerStamps(ks[..|ks| - 1]);
    }
  }

  /** Without failed sends a drain is in turn exactly when it begins on a boundary. */
  lemma NoSendFailedNext(w: World, step: Step)
    requires Traced(w) && NoSendFailed(w) && (w.inTurn <==> w.atBoundaries)
    ensures Next(w, step).inTurn <==> Next(w, step).atBoundaries
  {
    if !step.Correct? {
      OthersDecide(w, step);
      hide Next;
    } else if w.drained + step.count <= |w.kernel| {
      OwnersAreAll(w);
      if step.count > 0 {
        KernelNeedsSessions(w);
        DrainAnywhere(w, step.count);
      }
    }
  }

  lemma DrainAnywhere(w: World, count: nat)
    requires Shape(w) && w.sessions != [] && w.drained + count <= |w.kernel| && count > 0
    requires forall m :: 0 <= m < |w.owners| ==> w.owners[m] == m
    ensures DrainInTurn(w, count) <==> w.drained % |w.sessions| == 0
  {
    var n, d := |w.sessions|, w.drained;
    if d % n == 0 {
      forall m: nat | d <= m < d + count ensures InTurn(w.owners, n, d, m) {
        UnbrokenInTurn(w.owners, n, d, m);
      }
    }
    if DrainInTurn(w, count) {
      assert InTurn(w.owners, n, d, d);
    }
  }

  lemma {:induction false} WithoutFailedSends(rx: Address, targets: seq<Address>, steps: seq<Step>)
    requires NoSendFailed(Run(rx, targets, steps))
    ensures Run(rx, targets, steps).inTurn <==> Run(rx, targets, steps).atBoundaries
  {
    if steps != [] {
      var w, step := Run(rx, targets, steps[..|steps| - 1]), steps[|steps| - 1];
      hide Next, NoSendFailed, Traced;
      assert Run(rx, targets, steps) == Next(w, step);
      EveryRunIsTraced(rx, targets, steps[..|steps| - 1]);
      NoSendFailedBefore(w, step);
      WithoutFailedSends(rx, targets, steps[..|steps| - 1]);
      NoSendFailedNext(w, step);
    }
  }

  /** In every run in which no send failed, the packets show the right stamps, whatever their values,
      exactly when each non-empty drain began on a round boundary. */
  lemma NoSendFailedIff(rx: Address, targets: seq<Address>, steps: seq<Step>)
    requires NoSendFailed(Run(rx, targets, steps))
    ensures RightForAnyStamps(rx, targets, steps) <==> Run(rx, targets, steps).atBoundaries
  {
    CorrectionRightIff(rx, targets, steps);
    WithoutFailedSends(rx, targets, steps);
    hide Run, RightForAnyStamps, NoSendFailed;
  }
}
