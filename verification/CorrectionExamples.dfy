/** Runs whose corrections go wrong, and one that looks as if they should. */
module CorrectionExamples {
  import opened Wrappers
  import opened Time
  import opened Packets
  import opened Sessions
  import opened Senders
  import opened SenderRuns
  import opened CorrectionRuns
  import opened CorrectionLaws

  /** The part of a state that decides whether stamps come in turn, for two targets. */
  ghost predicate Two(w: World, sent: nat, owners: seq<nat>, drained: nat, inTurn: bool, atBoundaries: bool) {
    && |w.sessions| == 2 && |w.sent| == sent && w.owners == owners && |w.kernel| == |owners|
    && w.drained == drained && w.inTurn == inTurn && w.atBoundaries == atBoundaries
  }

  lemma TwoTick(w: World, stamp: DateTime, a: Option<DateTime>, b: Option<DateTime>,
                sent: nat, owners: seq<nat>, drained: nat, inTurn: bool, atBoundaries: bool)
    requires Two(w, sent, owners, drained, inTurn, atBoundaries)
    ensures var more := (if a.Some? then [sent] else []) + (if b.Some? then [sent + 1] else []);
            Two(Next(w, Tick([stamp, stamp], [a, b])), sent + 2, owners + more, drained, inTurn, atBoundaries)
  {
    assert [a, b][..1] == [a] && [a][..0] == [];
    assert Owners([a], sent) == if a.Some? then [sent] else [];
    assert Owners([a, b], sent) == Owners([a], sent) + if b.Some? then [sent + 1] else [];
    hide Ticked, Owners, Stamps;
  }

  lemma TwoCorrect(w: World, count: nat, sent: nat, owners: seq<nat>, drained: nat, inTurn: bool, atBoundaries: bool)
    requires Two(w, sent, owners, drained, inTurn, atBoundaries) && drained + count <= |owners|
    ensures Two(Next(w, Correct(count)), sent, owners, drained + count,
                inTurn && forall m: nat :: drained <= m < drained + count ==> InTurn(owners, 2, drained, m),
                atBoundaries && (count == 0 || drained % 2 == 0))
  {
    hide Corrected, GivenBy, InTurn;
  }

  lemma TwoStart(rx: Address, t1: Address, t2: Address)
    ensures Two(Run(rx, [t1, t2], []), 0, [], 0, true, true)
  {
  }

  /** With two targets, one round drained in two halves already fails. */
  lemma HalfRoundFails(rx: Address, t1: Address, t2: Address, stamp: DateTime, a: DateTime, b: DateTime)
    ensures var steps := [] + [Tick([stamp, stamp], [Some(a), Some(b)])] + [Correct(1)] + [Correct(1)];
            && NoSendFailed(Run(rx, [t1, t2], steps)) && !Run(rx, [t1, t2], steps).atBoundaries
            && !RightForAnyStamps(rx, [t1, t2], steps)
  {
    var ts := [t1, t2];
    var s1 := [] + [Tick([stamp, stamp], [Some(a), Some(b)])];
    var s2 := s1 + [Correct(1)];
    var s3 := s2 + [Correct(1)];
    TwoStart(rx, t1, t2);
    RunExtends(rx, ts, [], Tick([stamp, stamp], [Some(a), Some(b)]));
    RunExtends(rx, ts, s1, Correct(1));
    RunExtends(rx, ts, s2, Correct(1));
    hide Run, Next, InTurn;
    TwoTick(Run(rx, ts, []), stamp, Some(a), Some(b), 0, [], 0, true, true);
    assert [] + ([0] + [0 + 1]) == [0, 1];
    var turn1 := forall m: nat :: 0 <= m < 1 ==> InTurn([0, 1], 2, 0, m);
    TwoCorrect(Run(rx, ts, s1), 1, 2, [0, 1], 0, true, true);
    TwoCorrect(Run(rx, ts, s2), 1, 2, [0, 1], 1, true && turn1, true);
    assert !Run(rx, ts, s3).atBoundaries && NoSendFailed(Run(rx, ts, s3));
    NoSendFailedIff(rx, ts, s3);
  }

  /** Two targets and two rounds, of which the very first send fails: draining all three stamps at once,
      from a boundary, puts the second session's stamp on the first session's packet. */
  lemma FailedSendFails(rx: Address, t1: Address, t2: Address, stamp: DateTime, a: DateTime, b: DateTime, c: DateTime)
    ensures var steps := [] + [Tick([stamp, stamp], [None, Some(a)])] + [Tick([stamp, stamp], [Some(b), Some(c)])]
                         + [Correct(3)];
            && Run(rx, [t1, t2], steps).atBoundaries
            && !RightForAnyStamps(rx, [t1, t2], steps)
  {
    var ts := [t1, t2];
    var s1 := [] + [Tick([stamp, stamp], [None, Some(a)])];
    var s2 := s1 + [Tick([stamp, stamp], [Some(b), Some(c)])];
    var s3 := s2 + [Correct(3)];
    TwoStart(rx, t1, t2);
    RunExtends(rx, ts, [], Tick([stamp, stamp], [None, Some(a)]));
    RunExtends(rx, ts, s1, Tick([stamp, stamp], [Some(b), Some(c)]));
    RunExtends(rx, ts, s2, Correct(3));
    hide Run, Next, InTurn;
    TwoTick(Run(rx, ts, []), stamp, None, Some(a), 0, [], 0, true, true);
    assert [] + ([] + [0 + 1]) == [1];
    TwoTick(Run(rx, ts, s1), stamp, Some(b), Some(c), 2, [1], 0, true, true);
    assert [1] + ([2] + [2 + 1]) == [1, 2, 3];
    TwoCorrect(Run(rx, ts, s2), 3, 4, [1, 2, 3], 0, true, true);
    assert Run(rx, ts, s3).atBoundaries && Run(rx, ts, s3).owners == [1, 2, 3] && Run(rx, ts, s3).drained == 3;
    var first: nat := 0;
    assert Run(rx, ts, s3).owners[first] != first;
    OnBoundariesIff(rx, ts, s3);
  }

  /** And where the second session never gets a stamp, drains that begin inside a round are right. */
  lemma InsideRoundCanBeRight(rx: Address, t1: Address, t2: Address, stamp: DateTime, a: DateTime, b: DateTime)
    ensures var steps := [] + [Tick([stamp, stamp], [Some(a), None])] + [Correct(1)]
                         + [Tick([stamp, stamp], [Some(b), None])] + [Correct(1)];
            && !Run(rx, [t1, t2], steps).atBoundaries
            && RightForAnyStamps(rx, [t1, t2], steps)
  {
    var ts := [t1, t2];
    var s1 := [] + [Tick([stamp, stamp], [Some(a), None])];
    var s2 := s1 + [Correct(1)];
    var s3 := s2 + [Tick([stamp, stamp], [Some(b), None])];
    var s4 := s3 + [Correct(1)];
    TwoStart(rx, t1, t2);
    RunExtends(rx, ts, [], Tick([stamp, stamp], [Some(a), None]));
    RunExtends(rx, ts, s1, Correct(1));
    RunExtends(rx, ts, s2, Tick([stamp, stamp], [Some(b), None]));
    RunExtends(rx, ts, s3, Correct(1));
    assert InTurn([0], 2, 0, 0) && InTurn([0, 2], 2, 1, 1) by {
      UnbrokenInTurn([0], 2, 0, 0);
      SecondInTurn([0, 2]);
    }
    hide Run, Next, InTurn;
    TwoTick(Run(rx, ts, []), stamp, Some(a), None, 0, [], 0, true, true);
    assert [] + ([0] + []) == [0];
    TwoCorrect(Run(rx, ts, s1), 1, 2, [0], 0, true, true);
    TwoTick(Run(rx, ts, s2), stamp, Some(b), None, 2, [0], 1, true, true);
    assert [0] + ([2] + []) == [0, 2];
    TwoCorrect(Run(rx, ts, s3), 1, 4, [0, 2], 1, true, true);
    CorrectionRightIff(rx, ts, s4);
  }

  lemma SecondInTurn(owners: seq<nat>)
    requires |owners| == 2 && owners[0] == 0 && owners[1] == 2
    ensures InTurn(owners, 2, 1, 1)
  {
    hide Index, Turn, InTurn;
    IndexIs(0, 0, 2, 0);
    IndexIs(0, 1, 2, 2);
    TurnOfPlace(1, 0, 0, 2);
    forall j': nat | j' < 1 ensures Index(0, j', 2) in owners[..1] {
      assert owners[..1][0] == 0;
    }
    InTurnFrom(owners, 2, 1, 1, 0, 1);
  }

  lemma IndexIs(i: nat, j: nat, n: nat, q: nat)
    requires i < n && q == j * n + i
    ensures Index(i, j, n) == q
  {
  }
}
