/** Which kernel stamps the corrections put on which packets, over every run of the sender, failed sends
    and drains that begin anywhere included. */
module CorrectionRuns {
  import opened Wrappers
  import opened Time
  import opened Packets
  import opened Sessions
  import opened Senders
  import opened SenderRuns

  // ----- places in the order of sending

  /** Place q belongs to packet q / n of session q % n. */
  lemma IndexOfPlace(q: nat, n: nat, rounds: nat)
    requires 0 < n
    ensures Index(q % n, q / n, n) == q
    ensures q < rounds * n ==> q / n < rounds
  {
    DivBounds(q, n);
    IndexBound(q % n, q / n, n, rounds);
  }

  lemma IndexInjective(i: nat, j: nat, i': nat, j': nat, n: nat)
    requires i < n && i' < n
    ensures Index(i, j, n) == Index(i', j', n) <==> i == i' && j == j'
  {
    if j < j' {
      IndexBound(i, j, n, j');
      IndexBound(i', j', n, j');
    } else if j' < j {
      IndexBound(i, j, n, j);
      IndexBound(i', j', n, j);
    }
  }

  lemma PartsOfIndex(i: nat, j: nat, n: nat)
    requires i < n
    ensures Index(i, j, n) % n == i && Index(i, j, n) / n == j
  {
    var q := Index(i, j, n);
    IndexOfPlace(q, n, 0);
    IndexInjective(i, j, q % n, q / n, n);
    hide Index;
  }

  lemma IndexMonotone(i: nat, j: nat, j': nat, n: nat)
    requires i < n
    ensures Index(i, j, n) < Index(i, j', n) <==> j < j'
  {
    IndexBound(i, j, n, j');
    IndexBound(i, j', n, j);
  }

  // ----- where the stamps come from

  ghost predicate Increasing(s: seq<nat>) {
    forall a, b :: 0 <= a < b < |s| ==> s[a] < s[b]
  }

  ghost predicate OwnersInv(w: World) {
    && Increasing(w.owners)
    && forall m :: 0 <= m < |w.owners| ==> w.owners[m] < |w.sent|
  }

  ghost predicate GivenInv(w: World) {
    && |w.given| == |w.sessions|
    && forall i :: 0 <= i < |w.sessions| ==>
         && |w.given[i]| == w.sessions[i].lastUpdated
         && Increasing(w.given[i])
         && forall j :: 0 <= j < |w.given[i]| ==> w.given[i][j] < w.drained
  }

  /** Below its session's cursor a packet carries the stamp it was given, above it its send stamp as stored. */
  ghost predicate CarriesGiven(w: World, i: nat, j: nat)
    requires Shape(w) && GivenInv(w) && i < |w.sessions| && j < w.ticks
  {
    IndexBound(i, j, |w.sessions|, w.ticks);
    w.sessions[i].results[j].t1
    == if j < |w.given[i]| then w.kernel[w.given[i][j]] else Stored(w.sent[Index(i, j, |w.sessions|)])
  }

  ghost predicate Traced(w: World) {
    && Shape(w) && OwnersInv(w) && GivenInv(w)
    && forall i, j :: 0 <= i < |w.sessions| && 0 <= j < w.ticks ==> CarriesGiven(w, i, j)
  }

  lemma {:induction false} OwnersWithin(ks: seq<Option<DateTime>>, from: nat)
    ensures Increasing(Owners(ks, from))
    ensures forall m :: 0 <= m < |Owners(ks, from)| ==> from <= Owners(ks, from)[m] < from + |ks|
  {
    if ks != [] {
      OwnersWithin(ks[..|ks| - 1], from);
    }
  }

  lemma TickTraced(w: World, stamps: seq<DateTime>, kernelStamps: seq<Option<DateTime>>)
    requires Traced(w) && CanTick(w, stamps, kernelStamps)
    ensures Traced(Next(w, Tick(stamps, kernelStamps)))
  {
    var w' := Next(w, Tick(stamps, kernelStamps));
    ShapeNext(w, Tick(stamps, kernelStamps));
    OwnersWithin(kernelStamps, |w.sent|);
    hide Stamps, Owners, NtpFromDateTime, DateTimeFromNtp;
    forall i, j | 0 <= i < |w.sessions| && 0 <= j < w'.ticks ensures CarriesGiven(w', i, j) {
      IndexBound(i, j, |w.sessions|, w.ticks);
      if j < w.ticks {
        assert CarriesGiven(w, i, j);
      }
    }
  }

  /** A reply touches neither cursors nor send stamps. */
  lemma ReplyKeepsStamps(ss: seq<SessionState>, d: Datagram, i: nat)
    requires i < |ss|
    ensures var s, s' := ss[i], Replied(ss, d)[i];
            && s'.lastUpdated == s.lastUpdated && |s'.results| == |s.results|
            && forall j :: 0 <= j < |s.results| ==> s'.results[j].t1 == s.results[j].t1
  {
  }

  lemma ReplyTraced(w: World, d: Datagram)
    requires Traced(w)
    ensures Traced(Next(w, Reply(d)))
  {
    var w' := Next(w, Reply(d));
    ShapeNext(w, Reply(d));
    hide Replied, Stored, Index;
    forall i | 0 <= i < |w.sessions|
      ensures w'.sessions[i].lastUpdated == w.sessions[i].lastUpdated
      ensures forall j :: 0 <= j < w.ticks ==>
                CarriesGiven(w, i, j) && w'.sessions[i].results[j].t1 == w.sessions[i].results[j].t1
    {
      ReplyKeepsStamps(w.sessions, d, i);
      assert SentInOrder(w.sessions[i], w.ticks);
    }
    hide SentInOrder;
    assert GivenInv(w');
    forall i, j | 0 <= i < |w.sessions| && 0 <= j < w'.ticks ensures CarriesGiven(w', i, j) {
      assert CarriesGiven(w, i, j);
    }
  }

  /** The stamps a drain gives: as many as the session takes, in order, each from the drain. */
  lemma GivenByDrain(w: World, count: nat, i: nat)
    requires i < |w.sessions| && w.drained + count <= |w.kernel|
    ensures var g := GivenBy(w, count, i);
            && Increasing(g)
            && |g| == Applied(w.sessions[i], |EveryNth(w.kernel[w.drained..w.drained + count], i, |w.sessions|)|)
            && forall k :: 0 <= k < |g| ==>
                 && w.drained <= g[k] < w.drained + count
                 && w.kernel[g[k]] == EveryNth(w.kernel[w.drained..w.drained + count], i, |w.sessions|)[k]
  {
    var n, g := |w.sessions|, GivenBy(w, count, i);
    var chunk := w.kernel[w.drained..w.drained + count];
    forall k | 0 <= k < |g|
      ensures w.drained <= g[k] < w.drained + count && w.kernel[g[k]] == EveryNth(chunk, i, n)[k]
    {
      CountNthExact(count, i, n, k);
      EveryNthAt(chunk, i, n, k);
    }
    forall a, b | 0 <= a < b < |g| ensures g[a] < g[b] {
      MulMonotone(a + 1, b, n);
      assert (a + 1) * n == a * n + n;
    }
  }

  lemma GivenAfter(w: World, count: nat, i: nat)
    requires GivenInv(w) && w.drained + count <= |w.kernel| && i < |w.sessions|
    ensures var w' := Next(w, Correct(count));
            && |w'.given| == |w'.sessions| == |w.sessions|
            && w'.given[i] == w.given[i] + GivenBy(w, count, i)
            && w'.sessions[i] == Restamped(w.sessions[i],
                                           EveryNth(w.kernel[w.drained..w.drained + count], i, |w.sessions|))
  {
    hide DrainInTurn, GivenBy, EveryNth, Restamped;
  }

  lemma GivenSame(w: World, count: nat)
    requires w.drained + count <= |w.kernel|
    ensures var w' := Next(w, Correct(count));
            && |w'.sessions| == |w.sessions| && w'.ticks == w.ticks && w'.sent == w.sent
            && w'.kernel == w.kernel && w'.owners == w.owners && w'.drained == w.drained + count
  {
    hide Corrected, DrainInTurn, GivenBy;
  }

  lemma CorrectTraced(w: World, count: nat)
    requires Traced(w) && w.drained + count <= |w.kernel|
    ensures Traced(Next(w, Correct(count)))
  {
    var w' := Next(w, Correct(count));
    ShapeNext(w, Correct(count));
    GivenSame(w, count);
    hide Next, EveryNth, GivenBy, Stored, Index;
    forall i | 0 <= i < |w.sessions|
      ensures |w'.given| == |w.sessions|
      ensures |w'.given[i]| == w'.sessions[i].lastUpdated && Increasing(w'.given[i])
      ensures forall j :: 0 <= j < |w'.given[i]| ==> w'.given[i][j] < w'.drained
    {
      GivenAfter(w, count, i);
      GivenByDrain(w, count, i);
    }
    assert GivenInv(w') by { SameNumber(w, count); }
    forall i, j | 0 <= i < |w.sessions| && 0 <= j < w'.ticks ensures CarriesGiven(w', i, j) {
      GivenAfter(w, count, i);
      GivenByDrain(w, count, i);
      assert CarriesGiven(w, i, j);
      assert SentInOrder(w.sessions[i], w.ticks);
    }
  }

  lemma SameNumber(w: World, count: nat)
    requires w.drained + count <= |w.kernel|
    ensures |Next(w, Correct(count)).given| == |w.sessions|
  {
    hide Corrected, DrainInTurn, GivenBy;
  }

  lemma TracedNext(w: World, step: Step)
    requires Traced(w)
    ensures Traced(Next(w, step))
  {
    hide Traced;
    match step
    case Tick(stamps, kernelStamps) =>
      if CanTick(w, stamps, kernelStamps) {
        TickTraced(w, stamps, kernelStamps);
      }
    case Reply(d) => ReplyTraced(w, d);
    case Correct(count) =>
      if w.drained + count <= |w.kernel| {
        CorrectTraced(w, count);
      }
  }

  /** In every run each packet below its session's cursor carries the stamp it was given, in the order of
      the stamps, and each one above it its send stamp. */
  lemma {:induction false} EveryRunIsTraced(rx: Address, targets: seq<Address>, steps: seq<Step>)
    ensures Traced(Run(rx, targets, steps))
  {
    if steps != [] {
      EveryRunIsTraced(rx, targets, steps[..|steps| - 1]);
      TracedNext(Run(rx, targets, steps[..|steps| - 1]), steps[|steps| - 1]);
      hide Traced;
    }
  }

  // ----- stamps given to their own packets

  ghost predicate GivenTo(w: World, m: nat, i: int, j: int) {
    0 <= i < |w.given| && 0 <= j < |w.given[i]| && w.given[i][j] == m
  }

  ghost predicate IsGiven(w: World, m: nat) {
    exists i, j :: GivenTo(w, m, i, j)
  }

  /** Each packet with a stamp was given its own. */
  ghost predicate OwnOnly(w: World)
    requires GivenInv(w) && w.drained <= |w.owners|
  {
    forall i, j :: 0 <= i < |w.given| && 0 <= j < |w.given[i]| ==>
      w.owners[w.given[i][j]] == Index(i, j, |w.sessions|)
  }

  /** No drained stamp was thrown away. */
  ghost predicate AllGiven(w: World) {
    forall m: nat :: m < w.drained ==> IsGiven(w, m)
  }

  ghost predicate GivenRight(w: World)
    requires GivenInv(w) && w.drained <= |w.owners|
  {
    OwnOnly(w) && AllGiven(w)
  }

  /** A later state keeps what was given. */
  lemma GivenRightBefore(w: World, w': World)
    requires GivenInv(w) && GivenInv(w') && w.drained <= |w.owners| && w'.drained <= |w'.owners|
    requires |w'.sessions| == |w.sessions| && w.owners <= w'.owners && w.drained <= w'.drained
    requires forall i :: 0 <= i < |w.given| ==> w.given[i] <= w'.given[i]
    requires forall i, j :: 0 <= i < |w.given| && |w.given[i]| <= j < |w'.given[i]| ==> w.drained <= w'.given[i][j]
    requires GivenRight(w')
    ensures GivenRight(w)
  {
    forall i, j | 0 <= i < |w.given| && 0 <= j < |w.given[i]|
      ensures w.owners[w.given[i][j]] == Index(i, j, |w.sessions|)
    {
      assert w'.given[i][j] == w.given[i][j];
    }
    hide Index;
    forall m: nat | m < w.drained ensures IsGiven(w, m) {
      assert IsGiven(w', m);
      var i, j :| GivenTo(w', m, i, j);
      assert GivenTo(w, m, i, j);
    }
  }

  /** The session whose turn stamp m of a drain from d is, and the turns that session had before. */
  function Turn(m: nat, d: nat, n: nat): (i: nat)
    requires d <= m && n > 0
    ensures i < n
  {
    (m - d) % n
  }

  function Round(m: nat, d: nat, n: nat): (k: nat)
    requires d <= m && n > 0
  {
    DivBounds(m - d, n);
    NonNegativeQuotient(m - d, n);
    (m - d) / n
  }

  lemma NonNegativeQuotient(x: nat, n: nat)
    requires n > 0
    ensures x / n >= 0
  {
  }

  lemma PlaceInDrain(d: nat, m: nat, n: nat)
    requires n > 0 && d <= m
    ensures m == d + (Turn(m, d, n) + Round(m, d, n) * n)
  {
    DivBounds(m - d, n);
  }

  lemma TurnOfPlace(d: nat, i: nat, k: nat, n: nat)
    requires i < n
    ensures 0 <= i + k * n
    ensures Turn(d + (i + k * n), d, n) == i && Round(d + (i + k * n), d, n) == k
  {
    PartsOfIndex(i, k, n);
  }

  /** The packet stamp m of the next drain is put on: the one its session is at by then. */
  function Expected(w: World, m: nat): nat
    requires GivenInv(w) && w.sessions != [] && w.drained <= m
  {
    var i := Turn(m, w.drained, |w.sessions|);
    Index(i, |w.given[i]| + Round(m, w.drained, |w.sessions|), |w.sessions|)
  }

  /** No stamp drained before belongs to a packet its session is at or comes to later. */
  lemma DrainedIsPast(w: World, m: nat, i: nat, j: nat)
    requires GivenInv(w) && w.drained <= |w.owners| && GivenRight(w) && m < w.drained
    requires i < |w.sessions| && |w.given[i]| <= j
    ensures w.owners[m] != Index(i, j, |w.sessions|)
  {
    hide Index;
    assert IsGiven(w, m);
    var i', j' :| GivenTo(w, m, i', j');
    IndexInjective(i, j, i', j', |w.sessions|);
  }

  /** Different stamps of a drain are put on different packets. */
  lemma ExpectedInjective(w: World, m: nat, m': nat)
    requires GivenInv(w) && w.sessions != [] && w.drained <= m && w.drained <= m' && m != m'
    ensures Expected(w, m) != Expected(w, m')
  {
    var n, d := |w.sessions|, w.drained;
    assert |w.given| == n;
    hide Index, Turn, Round, GivenInv;
    PlaceInDrain(d, m, n);
    PlaceInDrain(d, m', n);
    IndexInjective(Turn(m, d, n), |w.given[Turn(m, d, n)]| + Round(m, d, n),
                   Turn(m', d, n), |w.given[Turn(m', d, n)]| + Round(m', d, n), n);
  }

  /** No earlier stamp belongs to the packet expected for m. */
  lemma ExpectedIsNew(w: World, m: nat, m': nat)
    requires GivenInv(w) && w.drained <= |w.owners| && GivenRight(w) && w.sessions != []
    requires w.drained <= m < |w.owners| && m' < m
    requires w.drained <= m' ==> w.owners[m'] == Expected(w, m')
    ensures w.owners[m'] != Expected(w, m)
  {
    hide Index, Turn, Round, GivenRight;
    if m' < w.drained {
      var i := Turn(m, w.drained, |w.sessions|);
      DrainedIsPast(w, m', i, |w.given[i]| + Round(m, w.drained, |w.sessions|));
    } else {
      hide Expected;
      ExpectedInjective(w, m, m');
    }
  }

  /** The packet expected for m comes no later than the one it belongs to, if that is of the same session. */
  lemma ExpectedIsNext(w: World, m: nat, j: nat)
    requires Traced(w) && GivenRight(w) && w.sessions != [] && w.drained <= m < |w.owners|
    requires w.owners[m] == Index(Turn(m, w.drained, |w.sessions|), j, |w.sessions|)
    requires w.drained + |w.sessions| <= m ==> w.owners[m - |w.sessions|] == Expected(w, m - |w.sessions|)
    ensures |w.given[Turn(m, w.drained, |w.sessions|)]| + Round(m, w.drained, |w.sessions|) <= j
  {
    var n, d := |w.sessions|, w.drained;
    var i, k := Turn(m, d, n), Round(m, d, n);
    var g := |w.given[i]|;
    PlaceInDrain(d, m, n);
    hide Index, Turn, Round;
    if k > 0 {
      EarlierTurn(d, m, n, i, k);
      assert w.owners[m - n] == Index(i, g + k - 1, n);
      assert w.owners[m - n] < w.owners[m];
      IndexMonotone(i, g + k - 1, j, n);
    } else if g > 0 {
      var m' := w.given[i][g - 1];
      assert w.owners[m'] == Index(i, g - 1, n) && m' < m;
      IndexMonotone(i, g - 1, j, n);
    }
  }

  lemma EarlierTurn(d: nat, m: nat, n: nat, i: nat, k: nat)
    requires i < n && k > 0 && d <= m && m == d + (i + k * n)
    ensures d + n <= m && Turn(m - n, d, n) == i && Round(m - n, d, n) == k - 1
  {
    assert k * n == (k - 1) * n + n;
    MulMonotone(0, k - 1, n);
    TurnOfPlace(d, i, k - 1, n);
  }

  /** Being in turn, in these terms. */
  lemma InTurnMeans(owners: seq<nat>, n: nat, d: nat, m: nat) returns (j: nat)
    requires d <= m < |owners| && n > 0 && InTurn(owners, n, d, m)
    ensures owners[m] == Index(Turn(m, d, n), j, n)
    ensures forall j': nat :: j' < j ==> Index(Turn(m, d, n), j', n) in owners[..m]
  {
    IndexOfPlace(owners[m], n, 0);
    NonNegativeQuotient(owners[m], n);
    j := owners[m] / n;
    hide Index;
  }

  /** In a drain whose stamps all come in turn, each belongs to the packet it is put on. */
  lemma {:induction false} InTurnOwner(w: World, count: nat, m: nat)
    requires Traced(w) && GivenRight(w) && w.sessions != [] && w.drained + count <= |w.kernel|
    requires DrainInTurn(w, count) && w.drained <= m < w.drained + count
    ensures w.owners[m] == Expected(w, m)
    decreases m
  {
    var n, d := |w.sessions|, w.drained;
    forall m' | d <= m' < m ensures w.owners[m'] == Expected(w, m') {
      InTurnOwner(w, count, m');
    }
    var j := InTurnMeans(w.owners, n, d, m);
    hide Index, Turn, Round, GivenRight, DrainInTurn;
    ExpectedIsNext(w, m, j);
    if w.owners[m] != Expected(w, m) {
      assert Expected(w, m) in w.owners[..m];
      var m' :| 0 <= m' < m && w.owners[m'] == Expected(w, m);
      ExpectedIsNew(w, m, m');
    }
  }

  /** Where a drain puts its stamps: on the packet expected, if the session has that many. */
  lemma PutOnExpected(w: World, count: nat, i: nat, k: nat)
    requires Traced(w) && w.drained + count <= |w.kernel| && i < |w.sessions| && k < |GivenBy(w, count, i)|
    ensures var m := GivenBy(w, count, i)[k];
            && w.drained <= m < w.drained + count
            && Turn(m, w.drained, |w.sessions|) == i && Round(m, w.drained, |w.sessions|) == k
            && Expected(w, m) == Index(i, |w.given[i]| + k, |w.sessions|)
  {
    GivenByDrain(w, count, i);
    TurnOfPlace(w.drained, i, k, |w.sessions|);
    hide Index, Turn, Round;
  }

  /** A session has records for all the stamps of its turn, when these come in turn. */
  lemma NothingThrownAway(w: World, count: nat, i: nat)
    requires Traced(w) && GivenRight(w) && w.drained + count <= |w.kernel| && i < |w.sessions|
    requires DrainInTurn(w, count)
    ensures |GivenBy(w, count, i)| == CountNth(count, i, |w.sessions|)
  {
    var n, d, c := |w.sessions|, w.drained, CountNth(count, i, |w.sessions|);
    assert SentInOrder(w.sessions[i], w.ticks);
    if c > 0 {
      CountNthExact(count, i, n, c - 1);
      TurnOfPlace(d, i, c - 1, n);
      var m := d + (i + (c - 1) * n);
      InTurnOwner(w, count, m);
      IndexBound(i, |w.given[i]| + c - 1, n, w.ticks);
      assert w.owners[m] == Index(i, |w.given[i]| + (c - 1), n) < w.ticks * n;
    }
  }

  lemma InTurnKeepsOwn(w: World, count: nat)
    requires Traced(w) && GivenRight(w) && w.drained + count <= |w.kernel|
    requires DrainInTurn(w, count)
    ensures Traced(Next(w, Correct(count))) && OwnOnly(Next(w, Correct(count)))
  {
    var w' := Next(w, Correct(count));
    TracedNext(w, Correct(count));
    forall i, j | 0 <= i < |w'.given| && 0 <= j < |w'.given[i]|
      ensures w'.owners[w'.given[i][j]] == Index(i, j, |w'.sessions|)
    {
      GivenAfter(w, count, i);
      if j < |w.given[i]| {
        assert w'.given[i][j] == w.given[i][j];
      } else {
        var k := j - |w.given[i]|;
        PutOnExpected(w, count, i, k);
        InTurnOwner(w, count, GivenBy(w, count, i)[k]);
      }
    }
  }

  lemma InTurnKeepsAll(w: World, count: nat)
    requires Traced(w) && GivenRight(w) && w.drained + count <= |w.kernel|
    requires DrainInTurn(w, count)
    ensures AllGiven(Next(w, Correct(count)))
  {
    var w' := Next(w, Correct(count));
    forall m: nat | m < w'.drained ensures IsGiven(w', m) {
      if m < w.drained {
        assert IsGiven(w, m);
        var i, j :| GivenTo(w, m, i, j);
        GivenAfter(w, count, i);
        assert GivenTo(w', m, i, j);
      } else {
        KernelNeedsSessions(w);
        var n := |w.sessions|;
        var i, k := Turn(m, w.drained, n), Round(m, w.drained, n);
        PlaceInDrain(w.drained, m, n);
        CountNthExact(count, i, n, k);
        NothingThrownAway(w, count, i);
        GivenAfter(w, count, i);
        assert GivenTo(w', m, i, |w.given[i]| + k);
      }
    }
  }

  lemma KernelNeedsSessions(w: World)
    requires Traced(w) && w.kernel != []
    ensures w.sessions != []
  {
    assert w.owners[0] < |w.sent|;
    NoRoom(w.ticks, |w.sessions|);
  }

  lemma NoRoom(ticks: nat, n: nat)
    ensures n == 0 ==> ticks * n == 0
  {
  }

  lemma InTurnFrom(owners: seq<nat>, n: nat, d: nat, m: nat, i: nat, j: nat)
    requires d <= m < |owners| && i < n && Turn(m, d, n) == i && owners[m] == Index(i, j, n)
    requires forall j': nat :: j' < j ==> Index(i, j', n) in owners[..m]
    ensures InTurn(owners, n, d, m)
  {
    PartsOfIndex(i, j, n);
    hide Index;
  }

  /** The packets of a session below j have stamps before the one of packet j. */
  lemma EarlierGiven(w: World, m: nat, i: nat, j: nat)
    requires Traced(w) && GivenRight(w) && GivenTo(w, m, i, j)
    ensures forall j': nat :: j' < j ==> Index(i, j', |w.sessions|) in w.owners[..m]
  {
    hide Index;
    forall j': nat | j' < j ensures Index(i, j', |w.sessions|) in w.owners[..m] {
      assert w.given[i][j'] < m;
      assert w.owners[..m][w.given[i][j']] == Index(i, j', |w.sessions|);
    }
  }

  /** When a drain leaves every stamp with its own packet, all of them came in turn. */
  lemma GivenRightIsInTurn(w: World, count: nat, m: nat)
    requires Traced(w) && w.sessions != [] && w.drained + count <= |w.kernel|
    requires Traced(Next(w, Correct(count))) && GivenRight(Next(w, Correct(count)))
    requires w.drained <= m < w.drained + count
    ensures InTurn(w.owners, |w.sessions|, w.drained, m)
  {
    var w' := Next(w, Correct(count));
    GivenSame(w, count);
    assert IsGiven(w', m);
    var i, j :| GivenTo(w', m, i, j);
    GivenAfter(w, count, i);
    EarlierGiven(w', m, i, j);
    hide Next, Index, Turn, AllGiven;
    assert j >= |w.given[i]|;
    PutOnExpected(w, count, i, j - |w.given[i]|);
    InTurnFrom(w.owners, |w.sessions|, w.drained, m, i, j);
  }

  lemma CorrectDecides(w: World, count: nat)
    requires Traced(w) && w.drained + count <= |w.kernel|
    ensures var w' := Next(w, Correct(count));
            Traced(w') && (GivenRight(w') <==> GivenRight(w) && DrainInTurn(w, count))
  {
    var w' := Next(w, Correct(count));
    TracedNext(w, Correct(count));
    if GivenRight(w) && DrainInTurn(w, count) {
      InTurnKeepsOwn(w, count);
      InTurnKeepsAll(w, count);
    }
    if GivenRight(w') {
      forall i | 0 <= i < |w.sessions|
        ensures w.given[i] <= w'.given[i]
        ensures forall j :: |w.given[i]| <= j < |w'.given[i]| ==> w.drained <= w'.given[i][j]
      {
        GivenAfter(w, count, i);
        GivenByDrain(w, count, i);
      }
      hide GivenRight, Next;
      GivenSame(w, count);
      GivenRightBefore(w, w');
      if w.sessions != [] {
        forall m: nat | w.drained <= m < w.drained + count ensures InTurn(w.owners, |w.sessions|, w.drained, m) {
          GivenRightIsInTurn(w, count, m);
        }
      }
    }
  }

  /** A tick adds packets and a reply answers; neither gives a stamp. */
  lemma OthersDecide(w: World, step: Step)
    requires Traced(w) && !step.Correct?
    ensures var w' := Next(w, step);
            && Traced(w') && (GivenRight(w') <==> GivenRight(w))
            && w'.inTurn == w.inTurn && w'.atBoundaries == w.atBoundaries && w'.drained == w.drained
            && w.owners <= w'.owners && |w'.sessions| == |w.sessions|
  {
    TracedNext(w, step);
    var w' := Next(w, step);
    hide Ticked, Replied, Stamps, Owners, Index;
    assert w'.given == w.given && w'.drained == w.drained && w.owners <= w'.owners;
    assert forall m: nat :: IsGiven(w', m) <==> IsGiven(w, m) by {
      forall m: nat ensures IsGiven(w', m) <==> IsGiven(w, m) {
        assert forall i, j :: GivenTo(w', m, i, j) <==> GivenTo(w, m, i, j);
      }
    }
    assert forall m :: 0 <= m < w.drained ==> w'.owners[m] == w.owners[m];
    hide Next, IsGiven, Traced;
  }

  /** In every run the drained stamps are all with their own packets exactly when they all came in turn. */
  lemma {:induction false} InTurnDecides(rx: Address, targets: seq<Address>, steps: seq<Step>)
    ensures var w := Run(rx, targets, steps);
            Traced(w) && (w.inTurn <==> GivenRight(w))
  {
    EveryRunIsTraced(rx, targets, steps);
    if steps != [] {
      var w, step := Run(rx, targets, steps[..|steps| - 1]), steps[|steps| - 1];
      InTurnDecides(rx, targets, steps[..|steps| - 1]);
      if !step.Correct? {
        hide Traced, GivenRight, Next;
        OthersDecide(w, step);
      } else if w.drained + step.count <= |w.kernel| {
        hide Traced, GivenRight, DrainInTurn, GivenBy;
        CorrectDecides(w, step.count);
      }
    }
  }
}
