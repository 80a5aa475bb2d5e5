/** What the three loss counts mean for the true fates of the packets. */
module LossAttribution {
  import opened MachineInts
  import opened Wrappers
  import opened Packets
  import opened Sorting
  import opened Loss
  import opened Sessions
  import opened Network

  lemma {:induction false} InOrderIsSorted(r: seq<PacketResults>, from: nat)
    requires forall i :: 0 <= i < |r| ==> r[i].senderSeq == from + i
    ensures SortedBy(r, SenderSeq)
  {
    if r != [] {
      InOrderIsSorted(r[1..], from + 1);
    }
  }

  /** The records are stored in sequence order already, so that is the only way to sort them. */
  lemma SortedAlready(n: Net, sorted: seq<PacketResults>)
    requires SenderInv(n) && IsSortOf(sorted, n.sender.results, SenderSeq)
    ensures sorted == n.sender.results
  {
    var r := n.sender.results;
    forall i | 0 <= i < |r| ensures r[i].senderSeq == i {
      assert RecordAgrees(n, i);
    }
    InOrderIsSorted(r, 0);
    SortIsUnique(r, sorted, SenderSeq);
  }

  // ----- counting

  lemma {:induction false} CountSplit(f: seq<Fate>, lo: nat, mid: nat, hi: nat, x: Fate)
    requires lo <= mid <= hi <= |f|
    ensures Count(f, lo, hi, x) == Count(f, lo, mid, x) + Count(f, mid, hi, x)
  {
    if mid < hi {
      CountSplit(f, lo, mid, hi - 1, x);
    }
  }

  lemma {:induction false} CountZeroIff(f: seq<Fate>, lo: nat, hi: nat, x: Fate)
    requires lo <= hi <= |f|
    ensures Count(f, lo, hi, x) == 0 <==> forall j :: lo <= j < hi ==> f[j] != x
  {
    if lo < hi {
      CountZeroIff(f, lo, hi - 1, x);
    }
  }

  /** Every packet has exactly one fate. */
  lemma {:induction false} CountAll(f: seq<Fate>, hi: nat)
    requires hi <= |f|
    ensures Count(f, 0, hi, Outbound) + Count(f, 0, hi, LostOut) + Count(f, 0, hi, Inbound)
            + Count(f, 0, hi, LostBack) + Count(f, 0, hi, Home) == hi
  {
    if hi > 0 {
      CountAll(f, hi - 1);
    }
  }

  lemma {:induction false} ArrivalsSlope(f: seq<Fate>, lo: nat, hi: nat)
    requires lo <= hi <= |f|
    ensures 0 <= Arrivals(f, hi) - Arrivals(f, lo) <= hi - lo
  {
    if lo < hi {
      ArrivalsSlope(f, lo, hi - 1);
    }
  }

  /** Between packets that are settled, what did not reach the reflector was lost on the way out. */
  lemma {:induction false} NotReachedIsLostOut(f: seq<Fate>, lo: nat, hi: nat)
    requires lo <= hi <= |f|
    requires forall j :: lo <= j < hi ==> Reached(f[j]) || f[j] == LostOut
    ensures (hi - lo) - (Arrivals(f, hi) - Arrivals(f, lo)) == Count(f, lo, hi, LostOut)
  {
    if lo < hi {
      NotReachedIsLostOut(f, lo, hi - 1);
    }
  }

  lemma QueuedBlocks(n: Net, k: nat, j: nat)
    requires QueueInv(n) && k < |n.outQueue| && n.outQueue[k].sequenceNumber <= j < |n.fates|
    ensures !Reached(n.fates[j])
  {
    assert QueuedAgrees(n, k);
  }

  /** First in, first out: nothing before a packet that got through is still on its way. */
  lemma NothingOvertakes(n: Net, i: nat, j: nat)
    requires QueueInv(n) && i <= j < |n.fates| && Reached(n.fates[j])
    ensures Reached(n.fates[i]) || n.fates[i] == LostOut
  {
    assert OutboundQueued(n, i);
    hide QueueInv;
    if n.fates[i] == Outbound {
      var k :| 0 <= k < |n.outQueue| && n.outQueue[k].sequenceNumber == i;
      QueuedBlocks(n, k, j);
    }
  }

  // ----- the answered records

  /** Position i >= 1 holds the first answered packet after position 0. */
  ghost predicate FirstHome(f: seq<Fate>, i: int) {
    1 <= i < |f| && f[i] == Home && forall j :: 1 <= j < i ==> f[j] != Home
  }

  ghost predicate LastHome(f: seq<Fate>, i: int) {
    1 <= i < |f| && f[i] == Home && forall j :: i < j < |f| ==> f[j] != Home
  }

  /** The answered records among 1..i: which come first and last, and that no gap runs backwards. */
  ghost predicate AnsweredShape(n: Net, a: seq<PacketResults>, i: nat)
    requires SenderInv(n) && 1 <= i <= |n.fates|
  {
    && (forall p :: p in a ==> IsAnswered(p))
    && GapsFit(a) && GapsNonNegative(a)
    && (a == [] ==> forall j :: 1 <= j < i ==> n.fates[j] != Home)
    && (a != [] ==>
          var first, last := a[0].senderSeq, a[|a| - 1].senderSeq;
          && 1 <= first <= last < i
          && a[0] == n.sender.results[first] && a[|a| - 1] == n.sender.results[last]
          && (forall j :: 1 <= j < first ==> n.fates[j] != Home)
          && (forall j :: last < j < i ==> n.fates[j] != Home))
  }

  /** The number the reflector gave an answered packet, unwrapped. */
  lemma HomeNumber(n: Net, i: nat)
    requires SenderInv(n) && BasesInv(n) && i < |n.fates| < TWO_31
    ensures n.sender.results[i].senderSeq == i
    ensures IsAnswered(n.sender.results[i]) <==> n.fates[i] == Home
    ensures n.fates[i] == Home ==> n.sender.results[i].reflectorSeq == Some(Number(n, i))
  {
    assert RecordAgrees(n, i);
    WrapNext(Number(n, i));
    hide ToU32;
  }

  /** The packets that arrived up to the last restart of the numbering between the arrivals of two. */
  function Overcount(n: Net, first: nat, last: nat): int
    requires first < |n.bases| && last < |n.bases|
  {
    var after: int, before: int := n.bases[last], n.bases[first];
    after - before
  }

  /** The gap counts what did not arrive in between, and what was numbered before a restart in between. */
  lemma GapBetweenHomes(n: Net, i: nat, j: nat)
    requires SenderInv(n) && BasesInv(n) && i <= j < |n.fates| < TWO_31
    requires n.fates[i] == Home && n.fates[j] == Home
    ensures IsAnswered(n.sender.results[i]) && IsAnswered(n.sender.results[j])
    ensures Gap(n.sender.results[i], n.sender.results[j])
            == (j - i) - (Arrivals(n.fates, j) - Arrivals(n.fates, i)) + Overcount(n, i, j)
    ensures 0 <= Gap(n.sender.results[i], n.sender.results[j]) < TWO_31
  {
    HomeNumber(n, i);
    HomeNumber(n, j);
    ArrivalsSlope(n.fates, i, j);
  }

  lemma AnsweredShapeNext(n: Net, a: seq<PacketResults>, i: nat)
    requires SenderInv(n) && BasesInv(n) && 1 <= i < |n.fates| < TWO_31
    requires AnsweredShape(n, a, i)
    ensures var p := n.sender.results[i];
            AnsweredShape(n, if IsAnswered(p) then a + [p] else a, i + 1)
  {
    HomeNumber(n, i);
    var p := n.sender.results[i];
    if IsAnswered(p) {
      assert (a + [p])[..|a|] == a;
      if a != [] {
        HomeNumber(n, a[|a| - 1].senderSeq);
        GapBetweenHomes(n, a[|a| - 1].senderSeq, i);
        hide Gap, RecordAgrees;
      }
    }
  }

  lemma AnsweredSlice(r: seq<PacketResults>, from: nat, i: nat)
    requires from <= i < |r|
    ensures Answered(r[from..i + 1]) ==
            if IsAnswered(r[i]) then Answered(r[from..i]) + [r[i]] else Answered(r[from..i])
  {
    assert r[from..i] + [r[i]] == r[from..i + 1];
    AnsweredAppend(r[from..i], r[i]);
    hide Answered;
  }

  lemma AnsweredShapeSlice(n: Net, i: nat)
    requires SenderInv(n) && BasesInv(n) && 1 <= i < |n.fates| < TWO_31
    requires AnsweredShape(n, Answered(n.sender.results[1..i]), i)
    ensures AnsweredShape(n, Answered(n.sender.results[1..i + 1]), i + 1)
  {
    hide AnsweredShape, Answered, SenderInv, BasesInv;
    assert |n.sender.results| == |n.fates| by { SameLength(n); }
    AnsweredSlice(n.sender.results, 1, i);
    AnsweredShapeNext(n, Answered(n.sender.results[1..i]), i);
  }

  lemma SameLength(n: Net)
    requires SenderInv(n)
    ensures |n.sender.results| == |n.fates|
  {
  }

  lemma {:induction false} AnsweredHasShape(n: Net, i: nat)
    requires SenderInv(n) && BasesInv(n) && 1 <= i <= |n.fates| < TWO_31
    ensures AnsweredShape(n, Answered(n.sender.results[1..i]), i)
  {
    if i > 1 {
      AnsweredHasShape(n, i - 1);
      AnsweredShapeSlice(n, i - 1);
    } else {
      hide SenderInv, BasesInv;
      assert n.sender.results[1..i] == [];
    }
  }

  lemma {:induction false} AnsweredCount(n: Net, i: nat)
    requires SenderInv(n) && BasesInv(n) && i <= |n.fates| < TWO_31
    ensures |Answered(n.sender.results[0..i])| == Count(n.fates, 0, i, Home)
  {
    if i > 0 {
      AnsweredCount(n, i - 1);
      HomeNumber(n, i - 1);
      AnsweredSlice(n.sender.results, 0, i - 1);
      hide Answered, SenderInv, BasesInv;
    } else {
      hide SenderInv, BasesInv;
      assert n.sender.results[0..i] == [];
    }
  }

  // ----- attribution

  /** The value of forward_loss before its final cast. */
  function ForwardOf(n: Net): nat {
    ForwardLoss(Answered(AllButFirst(n.sender.results)))
  }

  lemma ForwardIsGap(n: Net, first: nat, last: nat)
    requires Inv(n) && |n.fates| < TWO_31
    requires FirstHome(n.fates, first) && LastHome(n.fates, last)
    ensures first <= last && IsAnswered(n.sender.results[first]) && IsAnswered(n.sender.results[last])
    ensures ForwardOf(n) == Gap(n.sender.results[first], n.sender.results[last])
  {
    var r, f := n.sender.results, n.fates;
    var a := Answered(r[1..]);
    assert r[1..|f|] == r[1..];
    AnsweredHasShape(n, |f|);
    hide Answered, ForwardLoss, Gap, ReplyInv, QueueInv, RecordAgrees, BasesInv, GapsFit, GapsNonNegative;
    assert AnsweredShape(n, a, |f|);
    assert a != [];
    HomeNumber(n, a[0].senderSeq);
    HomeNumber(n, a[|a| - 1].senderSeq);
    assert a[0] == r[first] && a[|a| - 1] == r[last];
    ForwardLossBound(a);
  }

  lemma ForwardBetween(n: Net, first: nat, last: nat)
    requires Inv(n) && |n.fates| < TWO_31
    requires FirstHome(n.fates, first) && LastHome(n.fates, last)
    ensures first <= last && ForwardOf(n) < TWO_31
    ensures ForwardOf(n) == Count(n.fates, first, last, LostOut) + Overcount(n, first, last)
    ensures 0 <= Overcount(n, first, last) <= n.restart
  {
    var f := n.fates;
    ForwardIsGap(n, first, last);
    GapBetweenHomes(n, first, last);
    hide Gap, SenderInv, ReplyInv, ForwardOf;
    forall j | first <= j < last ensures Reached(f[j]) || f[j] == LostOut {
      NothingOvertakes(n, j, last);
    }
    NotReachedIsLostOut(f, first, last);
  }

  lemma ForwardOfNone(n: Net)
    requires Inv(n) && |n.fates| < TWO_31
    requires forall j :: 1 <= j < |n.fates| ==> n.fates[j] != Home
    ensures ForwardOf(n) == 0
  {
    var r, f := n.sender.results, n.fates;
    if f != [] {
      AnsweredHasShape(n, |f|);
      assert r[1..|f|] == r[1..];
      var a := Answered(r[1..]);
      if a != [] {
        HomeNumber(n, a[0].senderSeq);
      }
    }
  }

  /** The forward count is the number of packets lost on the way out between the first and the last
      answered packet at positions 1 and later, plus the overcount of a restart between those two;
      and zero when there is none. */
  lemma ForwardCountsLostOut(n: Net)
    requires Inv(n) && |n.fates| < TWO_31
    ensures ForwardCount(n, ForwardOf(n)) && ForwardOf(n) < TWO_31
  {
    forall first, last | FirstHome(n.fates, first) && LastHome(n.fates, last)
      ensures first <= last && ForwardOf(n) == Count(n.fates, first, last, LostOut) + Overcount(n, first, last)
    {
      ForwardBetween(n, first, last);
    }
    if forall j :: 1 <= j < |n.fates| ==> n.fates[j] != Home {
      ForwardOfNone(n);
    } else {
      var first, last := FindHomes(n.fates);
      ForwardBetween(n, first, last);
    }
    hide ForwardOf, Inv;
  }

  ghost predicate ForwardCount(n: Net, forward: int)
    requires |n.fates| == |n.bases|
  {
    var f := n.fates;
    && (forall first, last :: FirstHome(f, first) && LastHome(f, last) ==>
          first <= last && forward == Count(f, first, last, LostOut) + Overcount(n, first, last))
    && ((forall j :: 1 <= j < |f| ==> f[j] != Home) ==> forward == 0)
  }

  lemma ForwardWithin(n: Net)
    requires Inv(n) && |n.fates| < TWO_31 && n.restart == 0
    ensures ForwardOf(n) <= Count(n.fates, 0, |n.fates|, LostOut)
  {
    var f := n.fates;
    if exists j :: 1 <= j < |f| && f[j] == Home {
      var first, last := FindHomes(f);
      ForwardBetween(n, first, last);
      CountSplit(f, 0, first, |f|, LostOut);
      CountSplit(f, first, last, |f|, LostOut);
    } else {
      ForwardOfNone(n);
    }
  }

  lemma {:induction false} FindFirst(f: seq<Fate>, from: nat) returns (first: nat)
    requires 1 <= from && exists j :: from <= j < |f| && f[j] == Home
    ensures from <= first < |f| && f[first] == Home && forall j :: from <= j < first ==> f[j] != Home
    decreases |f| - from
  {
    first := from;
    if f[from] != Home {
      first := FindFirst(f, from + 1);
    }
  }

  lemma {:induction false} FindLast(f: seq<Fate>, to: nat) returns (last: nat)
    requires to <= |f| && exists j :: 1 <= j < to && f[j] == Home
    ensures 1 <= last < to && f[last] == Home && forall j :: last < j < to ==> f[j] != Home
  {
    last := to - 1;
    if f[to - 1] != Home {
      last := FindLast(f, to - 1);
    }
  }

  lemma FindHomes(f: seq<Fate>) returns (first: nat, last: nat)
    requires exists j :: 1 <= j < |f| && f[j] == Home
    ensures FirstHome(f, first) && LastHome(f, last) && first <= last
  {
    first := FindFirst(f, 1);
    last := FindLast(f, |f|);
  }

  lemma LossesOfRun(n: Net)
    requires Inv(n) && |n.fates| < TWO_31
    ensures var lost := |n.fates| - Count(n.fates, 0, |n.fates|, Home);
            && LossesOf(n.sender.results) == (ForwardOf(n), ToU32(lost - ForwardOf(n)), lost)
            && (n.restart == 0 ==> ForwardOf(n) <= lost)
  {
    var lost := |n.fates| - Count(n.fates, 0, |n.fates|, Home);
    AnsweredCount(n, |n.fates|);
    assert n.sender.results[0..|n.fates|] == n.sender.results;
    assert |n.sender.results| == |n.fates|;
    ForwardCountsLostOut(n);
    hide Inv, Answered, ForwardLoss, ForwardCount, Count;
    if n.restart == 0 {
      ForwardWithin(n);
    }
    CountAll(n.fates, |n.fates|);
    WrapNext(ForwardOf(n));
    WrapNext(lost);
    hide ToU32;
  }

  ghost predicate Attributed(n: Net, losses: (u32, u32, u32)) {
    var (forward, backward, total) := losses;
    && |n.fates| == |n.bases|
    && total == |n.fates| - Count(n.fates, 0, |n.fates|, Home)
    && ForwardCount(n, forward)
    && backward == ToU32(total - forward)
    && (n.restart == 0 ==> backward == total - forward)
  }

  lemma AttributedAt(n: Net, sorted: seq<PacketResults>)
    requires Inv(n) && |n.fates| < TWO_31 && IsSortOf(sorted, n.sender.results, SenderSeq)
    ensures Attributed(n, LossesOf(sorted))
  {
    assert |n.fates| == |n.bases|;
    hide SenderInv, BasesInv, QueueInv, ReplyInv, Count, LossesOf, ForwardOf, ForwardCount, IsSortOf;
    SortedAlready(n, sorted);
    ForwardCountsLostOut(n);
    LossesOfRun(n);
    if LossesOf(sorted).0 <= LossesOf(sorted).2 {
      WrapNext(LossesOf(sorted).2 - LossesOf(sorted).0);
    }
    hide ToU32;
  }

  /** For every run of fewer than 2^31 packets, however its records are sorted, the analysis reports
      as total the packets never answered, as forward loss what ForwardCount says, and as backward loss
      the rest, wrapped to 32 bits. Unless the numbering restarted, the rest is not negative. */
  lemma LossAttributed(rx: Address, tx: Address, steps: seq<Step>, sorted: seq<PacketResults>)
    requires |Run(rx, tx, steps).fates| < TWO_31
    requires IsSortOf(sorted, Run(rx, tx, steps).sender.results, SenderSeq)
    ensures Attributed(Run(rx, tx, steps), LossesOf(sorted))
  {
    InvHolds(rx, tx, steps);
    hide Run, Inv, IsSortOf, LossesOf, Attributed;
    AttributedAt(Run(rx, tx, steps), sorted);
  }

  /** No outward loss before the first or after the last answered packet past position 0. */
  ghost predicate OutwardLossIsInside(f: seq<Fate>) {
    forall i :: 0 <= i < |f| && f[i] == LostOut ==>
      exists first, last :: FirstHome(f, first) && LastHome(f, last) && first < i < last
  }

  /** As many packets were lost outward outside that range as a restart inside it makes counted twice. */
  ghost predicate OutsideIsOvercount(n: Net)
    requires |n.fates| == |n.bases|
  {
    var f := n.fates;
    && (forall first, last :: FirstHome(f, first) && LastHome(f, last) && first <= last ==>
          Count(f, 0, first, LostOut) + Count(f, last, |f|, LostOut) == Overcount(n, first, last))
    && ((forall j :: 1 <= j < |f| ==> f[j] != Home) ==> Count(f, 0, |f|, LostOut) == 0)
  }

  /** The forward loss is the whole outward loss of the run exactly when the losses it misses are as many
      as those it counts too often, which without a restart means that it misses none; and then the
      backward loss is every other packet not answered. */
  lemma ForwardIsAllOutwardLossIff(rx: Address, tx: Address, steps: seq<Step>, sorted: seq<PacketResults>)
    requires |Run(rx, tx, steps).fates| < TWO_31
    requires IsSortOf(sorted, Run(rx, tx, steps).sender.results, SenderSeq)
    ensures ForwardIsAllIff(Run(rx, tx, steps), LossesOf(sorted))
  {
    InvHolds(rx, tx, steps);
    LossAttributed(rx, tx, steps, sorted);
    hide Run, IsSortOf, LossesOf, Attributed, ForwardIsAllIff;
    ForwardIsAllAt(Run(rx, tx, steps), LossesOf(sorted));
  }

  ghost predicate ForwardIsAllIff(n: Net, losses: (u32, u32, u32)) {
    var (f, m) := (n.fates, |n.fates|);
    && m == |n.bases|
    && (losses.0 == Count(f, 0, m, LostOut) <==> OutsideIsOvercount(n))
    && (n.restart == 0 ==> (OutsideIsOvercount(n) <==> OutwardLossIsInside(f)))
    && (OutsideIsOvercount(n) ==>
          losses.1 == Count(f, 0, m, LostBack) + Count(f, 0, m, Inbound) + Count(f, 0, m, Outbound))
  }

  lemma ForwardIsAllAt(n: Net, losses: (u32, u32, u32))
    requires Inv(n) && Attributed(n, losses)
    ensures ForwardIsAllIff(n, losses)
  {
    CountAll(n.fates, |n.fates|);
    InsideIff(n, losses.0);
    hide Count, OutwardLossIsInside, ForwardCount, OutsideIsOvercount, Inv;
    if losses.0 <= losses.2 {
      WrapNext(losses.2 - losses.0);
    }
    hide ToU32;
  }

  lemma InsideIff(n: Net, forward: nat)
    requires |n.fates| == |n.bases| && ForwardCount(n, forward)
    requires BasesInv(n)
    ensures forward == Count(n.fates, 0, |n.fates|, LostOut) <==> OutsideIsOvercount(n)
    ensures n.restart == 0 ==> (OutsideIsOvercount(n) <==> OutwardLossIsInside(n.fates))
  {
    var f := n.fates;
    CountZeroIff(f, 0, |f|, LostOut);
    if exists j :: 1 <= j < |f| && f[j] == Home {
      var first, last := FindHomes(f);
      CountSplit(f, 0, first, |f|, LostOut);
      CountSplit(f, first, last, |f|, LostOut);
      CountZeroIff(f, 0, first, LostOut);
      CountZeroIff(f, last, |f|, LostOut);
      OnlyHomes(f, first, last);
      OnlyOvercount(n, first, last);
      hide Count, BasesInv, OutwardLossIsInside, OutsideIsOvercount;
    } else {
      assert forall i :: !FirstHome(f, i);
    }
  }

  lemma OnlyOvercount(n: Net, first: nat, last: nat)
    requires BasesInv(n) && FirstHome(n.fates, first) && LastHome(n.fates, last) && first <= last
    ensures OutsideIsOvercount(n) <==>
            Count(n.fates, 0, first, LostOut) + Count(n.fates, last, |n.fates|, LostOut)
            == Overcount(n, first, last)
    ensures n.restart == 0 ==> Overcount(n, first, last) == 0
  {
  }

  lemma OnlyHomes(f: seq<Fate>, first: nat, last: nat)
    requires FirstHome(f, first) && LastHome(f, last)
    ensures OutwardLossIsInside(f) <==>
            forall i :: 0 <= i < |f| && f[i] == LostOut ==> first < i < last
  {
  }
}
