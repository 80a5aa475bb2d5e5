/** What Session::analyze_packet_loss computes, over unbounded integers,
    and what that number means for reflector numberings of any kind. */
module Loss {
  import opened MachineInts
  import opened Packets
  import opened Sorting

  function SenderSeq(p: PacketResults): int {
    p.senderSeq
  }

  /** The answered records, in order. */
  function Answered(s: seq<PacketResults>): (a: seq<PacketResults>)
    ensures forall p :: p in a ==> IsAnswered(p)
    ensures |a| <= |s|
  {
    if s == [] then []
    else
      var before := Answered(s[..|s| - 1]);
      var p := s[|s| - 1];
      if IsAnswered(p) then before + [p] else before
  }

  function AllButFirst(s: seq<PacketResults>): seq<PacketResults> {
    if s == [] then [] else s[1..]
  }

  /** How many more numbers the sender used than the reflector between two answered packets. */
  function Gap(a: PacketResults, b: PacketResults): int
    requires IsAnswered(a) && IsAnswered(b)
  {
    (b.senderSeq - a.senderSeq) - (b.reflectorSeq.value - a.reflectorSeq.value)
  }

  /** Sum of the non-negative gaps between neighbours, each gap taken in 32 bits. */
  function ForwardLoss(a: seq<PacketResults>): nat
    requires forall p :: p in a ==> IsAnswered(p)
  {
    if |a| < 2 then 0
    else ForwardLoss(a[..|a| - 1]) + Max(0, ToI32(Gap(a[|a| - 2], a[|a| - 1])))
  }

  /** Forward, backward and total loss of records in sequence order. */
  function LossesOf(sorted: seq<PacketResults>): (u32, u32, u32) {
    var forward := ForwardLoss(Answered(AllButFirst(sorted)));
    var total := |sorted| - |Answered(sorted)|;
    (ToU32(forward), ToU32(total - forward), ToU32(total))
  }

  /** The triple does not depend on the order in which the records are stored. */
  lemma LossesOrderIndependent(
      r1: seq<PacketResults>, s1: seq<PacketResults>, r2: seq<PacketResults>, s2: seq<PacketResults>)
    requires multiset(s1) == multiset(s2)
    requires forall i, j :: 0 <= i < j < |s1| ==> s1[i].senderSeq != s1[j].senderSeq
    requires IsSortOf(r1, s1, SenderSeq) && IsSortOf(r2, s2, SenderSeq)
    ensures LossesOf(r1) == LossesOf(r2)
  {
    SameElements(r1, s1);
    assert KeyDetermines(r1, SenderSeq);
    SortIsUnique(r1, r2, SenderSeq);
  }

  // ----- arbitrary reflector numbering

  /** Every gap between neighbours fits the 32-bit signed arithmetic of the source. */
  ghost predicate GapsFit(a: seq<PacketResults>)
    requires forall p :: p in a ==> IsAnswered(p)
  {
    |a| < 2 || (GapsFit(a[..|a| - 1]) && -TWO_31 <= Gap(a[|a| - 2], a[|a| - 1]) < TWO_31)
  }

  ghost predicate GapsNonNegative(a: seq<PacketResults>)
    requires forall p :: p in a ==> IsAnswered(p)
  {
    |a| < 2 || (GapsNonNegative(a[..|a| - 1]) && 0 <= Gap(a[|a| - 2], a[|a| - 1]))
  }

  /** For any numbering, reordered ones included, the forward loss is at least the gap between the
      first and the last answered record, and equals it exactly when no step runs backwards. */
  lemma {:induction false} ForwardLossBound(a: seq<PacketResults>)
    requires forall p :: p in a ==> IsAnswered(p)
    requires |a| > 0 && GapsFit(a)
    ensures ForwardLoss(a) >= Gap(a[0], a[|a| - 1])
    ensures ForwardLoss(a) == Gap(a[0], a[|a| - 1]) <==> GapsNonNegative(a)
  {
    if |a| > 1 {
      var front := a[..|a| - 1];
      var step := Gap(a[|a| - 2], a[|a| - 1]);
      ForwardLossBound(front);
      assert ToI32(step) == step by { FitsI32(step); }
      hide ToI32;
    }
  }
}
