/** The two-thread handoff that brackets one clock's stamp between two stamps of another. */
module ClockHandoff {
  import opened Sorting

  // ---- the two threads, one atomic step at a time ---------------------------------------

  datatype PcA = WaitReady | StampFirst | Give | WaitBack | StampLast | TakeBack | Join | DoneA
  datatype PcB = Announce | WaitTurn | StampMiddle | Reply | DoneB

  /**
   * Everything both threads share or own. `now` is physical time: thread A's clock reads it directly, thread
   * B's clock reads it plus a constant `skew`. Each stamp sequence holds the entries filled so far.
   */
  datatype State = State(
    samples: nat, skew: int,
    turn: nat, ready: bool,
    a: PcA, i: nat, b: PcB, j: nat,
    t1: seq<int>, t2: seq<int>, t3: seq<int>,
    now: int)

  function Start(samples: nat, skew: int, now: int): State {
    State(samples, skew, 0, false, WaitReady, 0, Announce, 0, [], [], [], now)
  }

  /** One step of the thread that stamps first and last. Waiting for a condition that fails changes nothing. */
  function StepA(s: State): State {
    match s.a
    case WaitReady => if s.ready then s.(a := if s.i < s.samples then StampFirst else Join) else s
    case StampFirst => s.(t1 := s.t1 + [s.now], a := Give)
    case Give => s.(turn := 1, a := WaitBack)
    case WaitBack => if s.turn == 2 then s.(a := StampLast) else s
    case StampLast => s.(t3 := s.t3 + [s.now], a := TakeBack)
    case TakeBack => s.(turn := 0, i := s.i + 1, a := if s.i + 1 < s.samples then StampFirst else Join)
    case Join => if s.b.DoneB? then s.(a := DoneA) else s
    case DoneA => s
  }

  /** One step of the thread that stamps in the middle. */
  function StepB(s: State): State {
    match s.b
    case Announce => s.(ready := true, b := if s.j < s.samples then WaitTurn else DoneB)
    case WaitTurn => if s.turn == 1 then s.(b := StampMiddle) else s
    case StampMiddle => s.(t2 := s.t2 + [s.now + s.skew], b := Reply)
    case Reply => s.(turn := 2, j := s.j + 1, b := if s.j + 1 < s.samples then WaitTurn else DoneB)
    case DoneB => s
  }

  /** One move of the scheduler: time passes, then one thread takes a step. */
  datatype Move = Move(stepA: bool, wait: nat)

  function MoveOne(s: State, m: Move): State {
    var s' := s.(now := s.now + m.wait);
    if m.stepA then StepA(s') else StepB(s')
  }

  /** The state after a whole interleaving. */
  function Run(start: State, moves: seq<Move>): State {
    if moves == [] then start else MoveOne(Run(start, moves[..|moves| - 1]), moves[|moves| - 1])
  }

  predicate Finished(s: State) {
    s.a.DoneA? && s.b.DoneB?
  }

  /** Whether a thread's next step does something other than wait. */
  predicate ReadyA(s: State) {
    match s.a
    case WaitReady => s.ready
    case WaitBack => s.turn == 2
    case Join => s.b.DoneB?
    case DoneA => false
    case _ => true
  }

  predicate ReadyB(s: State) {
    match s.b
    case WaitTurn => s.turn == 1
    case DoneB => false
    case _ => true
  }

  predicate Productive(s: State, m: Move) {
    if m.stepA then ReadyA(s) else ReadyB(s)
  }

  predicate WritesA(s: State) { s.a.Give? || s.a.TakeBack? }

  predicate WritesB(s: State) { s.b.Reply? }

  // ---- the invariant ---------------------------------------------------------------------

  /** Who holds the token, and where both threads may then stand. */
  predicate Token(s: State) {
    && (s.turn == 0 ==> s.a in {WaitReady, StampFirst, Give, Join, DoneA})
    && (s.turn == 0 ==> s.b in {Announce, WaitTurn, DoneB} && s.i == s.j)
    && (s.turn == 1 ==> s.a == WaitBack && s.b in {WaitTurn, StampMiddle, Reply} && s.i == s.j)
    && (s.turn == 2 ==> s.a in {WaitBack, StampLast, TakeBack} && s.b in {WaitTurn, DoneB} && s.j == s.i + 1)
    && s.turn <= 2
  }

  predicate Progress(s: State) {
    && s.i <= s.samples && s.j <= s.samples
    && (s.ready <==> !s.b.Announce?) && (!s.ready ==> s.a == WaitReady)
    && (s.a == WaitReady ==> s.i == 0)
    && (s.a in {Join, DoneA} ==> s.i == s.samples)
    && (s.a in {StampFirst, Give, WaitBack, StampLast, TakeBack} ==> s.i < s.samples)
    && (s.b == Announce ==> s.j == 0)
    && (s.b == DoneB ==> s.j == s.samples)
    && (s.b in {WaitTurn, StampMiddle, Reply} ==> s.j < s.samples)
    && (s.a == DoneA ==> s.b == DoneB)
  }

  predicate Filled(s: State) {
    && |s.t1| == s.i + (if s.a in {Give, WaitBack, StampLast, TakeBack} then 1 else 0)
    && |s.t2| == s.j + (if s.b == Reply then 1 else 0)
    && |s.t3| == s.i + (if s.a == TakeBack then 1 else 0)
  }

  /** Brought to one clock, every middle stamp taken so far follows its first stamp and precedes its last. */
  predicate Bracketed(s: State) {
    && (forall k :: 0 <= k < |s.t1| ==> s.t1[k] <= s.now)
    && (forall k :: 0 <= k < |s.t2| && k < |s.t1| ==> s.t1[k] <= s.t2[k] - s.skew <= s.now)
    && (forall k :: 0 <= k < |s.t3| && k < |s.t2| ==> s.t2[k] - s.skew <= s.t3[k])
    && |s.t3| <= |s.t2| <= |s.t1|
  }

  predicate Inv(s: State) {
    Token(s) && Progress(s) && Filled(s) && Bracketed(s)
  }

  lemma StepsKeepInv(s: State, m: Move)
    requires Inv(s)
    ensures Inv(MoveOne(s, m)) && MoveOne(s, m).samples == s.samples && MoveOne(s, m).skew == s.skew
  {
    hide Inv, StepA, StepB;
    var s' := s.(now := s.now + m.wait);
    WaitingKeepsInv(s, m.wait);
    if m.stepA { StepAKeepsInv(s'); } else { StepBKeepsInv(s'); }
  }

  lemma WaitingKeepsInv(s: State, wait: nat)
    requires Inv(s)
    ensures Inv(s.(now := s.now + wait))
  {
  }

  lemma StepAKeepsInv(s: State)
    requires Inv(s)
    ensures Inv(StepA(s)) && StepA(s).samples == s.samples && StepA(s).skew == s.skew
  {
    StepAKeepsStamps(s);
    hide Bracketed;
  }

  lemma StepAKeepsStamps(s: State)
    requires Filled(s) && Bracketed(s) && Token(s) && Progress(s)
    ensures Bracketed(StepA(s))
  {
  }

  lemma StepBKeepsInv(s: State)
    requires Inv(s)
    ensures Inv(StepB(s)) && StepB(s).samples == s.samples && StepB(s).skew == s.skew
  {
  }

  /** The invariant holds after every interleaving. */
  lemma {:induction false} RunKeepsInv(samples: nat, skew: int, now: int, moves: seq<Move>)
    ensures var s := Run(Start(samples, skew, now), moves); Inv(s) && s.samples == samples && s.skew == skew
  {
    if moves != [] {
      hide Inv;
      RunKeepsInv(samples, skew, now, moves[..|moves| - 1]);
      StepsKeepInv(Run(Start(samples, skew, now), moves[..|moves| - 1]), moves[|moves| - 1]);
    }
  }

  /** In every reachable state, at most one thread is about to write the token, and it is the one that holds it. */
  lemma OnlyTheHolderWrites(samples: nat, skew: int, now: int, moves: seq<Move>)
    ensures var s := Run(Start(samples, skew, now), moves);
      && (WritesA(s) ==> s.turn != 1 && !WritesB(s))
      && (WritesB(s) ==> s.turn == 1 && !WritesA(s))
      && (StepA(s).turn != s.turn ==> WritesA(s)) && (StepB(s).turn != s.turn ==> WritesB(s))
  {
    RunKeepsInv(samples, skew, now, moves);
  }

  /** No reachable state is stuck: until both threads are done, at least one of them can make progress. */
  lemma NeverStuck(samples: nat, skew: int, now: int, moves: seq<Move>)
    ensures var s := Run(Start(samples, skew, now), moves); Finished(s) || ReadyA(s) || ReadyB(s)
  {
    RunKeepsInv(samples, skew, now, moves);
  }

  // ---- progress ---------------------------------------------------------------------------

  function RankA(s: State): int {
    match s.a
    case WaitReady => 5 * s.samples + 2
    case StampFirst => 5 * (s.samples - s.i) + 1
    case Give => 5 * (s.samples - s.i)
    case WaitBack => 5 * (s.samples - s.i) - 1
    case StampLast => 5 * (s.samples - s.i) - 2
    case TakeBack => 5 * (s.samples - s.i) - 3
    case Join => 1
    case DoneA => 0
  }

  function RankB(s: State): int {
    match s.b
    case Announce => 3 * s.samples + 1
    case WaitTurn => 3 * (s.samples - s.j)
    case StampMiddle => 3 * (s.samples - s.j) - 1
    case Reply => 3 * (s.samples - s.j) - 2
    case DoneB => 0
  }

  /** What is left to do: it never goes below zero, and zero means done. */
  lemma RankBounded(s: State)
    requires Inv(s)
    ensures RankA(s) >= 0 && RankB(s) >= 0
    ensures RankA(s) + RankB(s) == 0 <==> Finished(s)
  {
  }

  function ProductiveCount(start: State, moves: seq<Move>): nat {
    if moves == [] then 0
    else
      var init := moves[..|moves| - 1];
      ProductiveCount(start, init) + if Productive(Run(start, init), moves[|moves| - 1]) then 1 else 0
  }

  /**
   * Every productive step brings the end one step nearer and every waiting step leaves it where it was, in
   * every interleaving: the handoff takes exactly eight steps a sample and three more, whatever the schedule.
   */
  lemma {:induction false} StepsAreConserved(samples: nat, skew: int, now: int, moves: seq<Move>)
    ensures var start := Start(samples, skew, now); var s := Run(start, moves);
      ProductiveCount(start, moves) + RankA(s) + RankB(s) == 8 * samples + 3
  {
    if moves != [] {
      var init := moves[..|moves| - 1];
      StepsAreConserved(samples, skew, now, init);
      RunKeepsInv(samples, skew, now, init);
    }
  }

  /** So a run is over exactly when it has made that many productive steps, and can never make more. */
  lemma FinishedIffAllSteps(samples: nat, skew: int, now: int, moves: seq<Move>)
    ensures var start := Start(samples, skew, now);
      && ProductiveCount(start, moves) <= 8 * samples + 3
      && (Finished(Run(start, moves)) <==> ProductiveCount(start, moves) == 8 * samples + 3)
  {
    StepsAreConserved(samples, skew, now, moves);
    RunKeepsInv(samples, skew, now, moves);
    RankBounded(Run(Start(samples, skew, now), moves));
  }

  /** A finished run has filled all three arrays, with the i-th middle stamp between the i-th outer stamps. */
  lemma FinishedRunBrackets(samples: nat, skew: int, now: int, moves: seq<Move>, k: nat)
    requires Finished(Run(Start(samples, skew, now), moves))
    ensures var s := Run(Start(samples, skew, now), moves);
      && |s.t1| == |s.t2| == |s.t3| == samples
      && (k < samples ==> s.t1[k] <= s.t2[k] - skew <= s.t3[k])
  {
    RunKeepsInv(samples, skew, now, moves);
  }

  // ---- the estimate -------------------------------------------------------------------------

  const TWO63: int := 0x8000_0000_0000_0000
  const UINT64_MAX: int := 0xFFFF_FFFF_FFFF_FFFF

  predicate IsUint64(x: int) {
    0 <= x <= UINT64_MAX
  }

  /** The cast of an unsigned counter to a signed one. */
  function AsInt64(x: int): int {
    if x < TWO63 then x else x - UINT64_MAX - 1
  }

  /** The difference of the casts is the true difference exactly when the counters are on one side of 2^63. */
  lemma CastDifference(x: int, y: int)
    requires IsUint64(x) && IsUint64(y)
    ensures AsInt64(x) - AsInt64(y) == x - y <==> (x < TWO63 <==> y < TWO63)
  {
  }

  /** By how many turns of the counter the difference of two casts misses the true one. */
  function Carry(x: int, y: int): int {
    if y < TWO63 <= x then 1 else if x < TWO63 <= y then -1 else 0
  }

  lemma CastDifferenceIsCarried(x: int, y: int)
    requires IsUint64(x) && IsUint64(y)
    ensures AsInt64(x) - AsInt64(y) + Carry(x, y) * (UINT64_MAX + 1) == x - y
  {
  }

  datatype Estimate = Estimate(offset: int, bound: nat, minRoundTrip: nat, medianRoundTrip: nat)

  predicate AtMost(x: int, y: int) {
    x <= y
  }

  /** The round trips of the samples whose clock did not go backwards. */
  function RoundTrips(t1: seq<int>, t3: seq<int>, upTo: nat): (rtts: seq<nat>)
    requires |t1| == |t3| && upTo <= |t1|
  {
    if upTo == 0 then []
    else
      RoundTrips(t1, t3, upTo - 1) + if t1[upTo - 1] <= t3[upTo - 1] then [t3[upTo - 1] - t1[upTo - 1]] else []
  }

  predicate IsSortOf(sorted: seq<int>, v: seq<int>) {
    SortedBy(AtMost, sorted) && |sorted| == |v| && multiset(sorted) == multiset(v)
  }

  /** The middle one of some values, in order; the upper middle of an even number, and zero for none. */
  ghost predicate IsMedian(v: seq<int>, m: int) {
    if v == [] then m == 0
    else exists sorted :: IsSortOf(sorted, v) && m == sorted[|v| / 2]
  }

  /** A sample the loop may use: the clock did not go backwards, and the round trip is below the sentinel. */
  predicate Usable(t1: seq<int>, t3: seq<int>, k: int)
    requires |t1| == |t3| && 0 <= k < |t1|
  {
    t1[k] <= t3[k] && t3[k] - t1[k] < UINT64_MAX
  }

  /** The result is read from the first sample with the smallest round trip. */
  predicate FromTightest(t1: seq<int>, t2: seq<int>, t3: seq<int>, upTo: int, best: int, r: Estimate)
    requires |t1| == |t2| == |t3| && 0 <= upTo <= |t1|
  {
    && 0 <= best < upTo && Usable(t1, t3, best)
    && r.minRoundTrip == t3[best] - t1[best] && r.bound == r.minRoundTrip / 2
    && r.offset == AsInt64(t2[best]) - AsInt64(t1[best] + r.minRoundTrip / 2)
    && (forall k :: 0 <= k < upTo && Usable(t1, t3, k) ==> r.minRoundTrip <= t3[k] - t1[k])
    && (forall k :: 0 <= k < best && Usable(t1, t3, k) ==> r.minRoundTrip < t3[k] - t1[k])
  }

  /** Scan the samples for the tightest one. */
  method MinRoundTrip(t1: seq<int>, t2: seq<int>, t3: seq<int>) returns (r: Estimate)
    requires |t1| == |t2| == |t3|
    requires forall k :: 0 <= k < |t1| ==> IsUint64(t1[k]) && IsUint64(t2[k]) && IsUint64(t3[k])
    ensures if forall k :: 0 <= k < |t1| ==> !Usable(t1, t3, k) then r == Estimate(0, 0, 0, r.medianRoundTrip)
            else exists k :: FromTightest(t1, t2, t3, |t1|, k, r)
    ensures IsMedian(RoundTrips(t1, t3, |t1|), r.medianRoundTrip)
  {
    r := Estimate(0, 0, 0, 0);
    var rtts: seq<nat> := [];
    ghost var tightest := -1;
    var best := UINT64_MAX;
    for i := 0 to |t1|
      invariant rtts == RoundTrips(t1, t3, i) && r.medianRoundTrip == 0
      invariant tightest == -1 ==> best == UINT64_MAX && r == Estimate(0, 0, 0, 0)
      invariant tightest == -1 ==> forall k :: 0 <= k < i ==> !Usable(t1, t3, k)
      invariant tightest != -1 ==> FromTightest(t1, t2, t3, i, tightest, r) && best == r.minRoundTrip
    {
      if t3[i] < t1[i] { continue; }
      var rtt := t3[i] - t1[i];
      rtts := rtts + [rtt];
      if rtt < best {
        best := rtt;
        var midpoint := t1[i] + rtt / 2;
        r := Estimate(AsInt64(t2[i]) - AsInt64(midpoint), rtt / 2, rtt, 0);
        tightest := i;
      }
    }
    var median := Median(rtts);
    r := r.(medianRoundTrip := median);
    assert tightest != -1 ==> FromTightest(t1, t2, t3, |t1|, tightest, r);
  }

  /** Sort, and take the middle one. */
  method Median(rtts: seq<nat>) returns (m: nat)
    ensures IsMedian(rtts, m)
  {
    if rtts == [] { return 0; }
    var trips: seq<int> := rtts;
    var sorted := InsertionSort(AtMost, trips);
    assert sorted[|rtts| / 2] in multiset(sorted) && sorted[|rtts| / 2] in rtts;
    return sorted[|rtts| / 2];
  }

  /** The median is never below the fastest, so a positive fastest round trip makes it positive. */
  lemma MedianIsNotFaster(t1: seq<int>, t2: seq<int>, t3: seq<int>, best: int, r: Estimate)
    requires |t1| == |t2| == |t3| && FromTightest(t1, t2, t3, |t1|, best, r)
    requires IsMedian(RoundTrips(t1, t3, |t1|), r.medianRoundTrip)
    ensures r.minRoundTrip <= r.medianRoundTrip
  {
    var rtts: seq<int> := RoundTrips(t1, t3, |t1|);
    TripsAreAtLeast(t1, t3, |t1|, r.minRoundTrip);
    TripIsListed(t1, t3, |t1|, best);
    var sorted :| IsSortOf(sorted, rtts) && r.medianRoundTrip == sorted[|rtts| / 2];
    assert sorted[|rtts| / 2] in multiset(sorted);
    assert sorted[|rtts| / 2] in rtts;
  }

  lemma {:induction false} TripsAreAtLeast(t1: seq<int>, t3: seq<int>, upTo: nat, least: nat)
    requires |t1| == |t3| && upTo <= |t1| && least < UINT64_MAX
    requires forall k :: 0 <= k < |t1| && Usable(t1, t3, k) ==> least <= t3[k] - t1[k]
    ensures forall x :: x in RoundTrips(t1, t3, upTo) ==> least <= x
  {
    if upTo > 0 {
      TripsAreAtLeast(t1, t3, upTo - 1, least);
      assert Usable(t1, t3, upTo - 1) || t3[upTo - 1] < t1[upTo - 1] || t3[upTo - 1] - t1[upTo - 1] >= UINT64_MAX;
    }
  }

  lemma {:induction false} TripIsListed(t1: seq<int>, t3: seq<int>, upTo: nat, k: nat)
    requires |t1| == |t3| && k < upTo <= |t1| && t1[k] <= t3[k]
    ensures t3[k] - t1[k] in RoundTrips(t1, t3, upTo)
  {
    if k < upTo - 1 {
      TripIsListed(t1, t3, upTo - 1, k);
    }
  }

  /** Round half a cycle up. */
  function HalfUp(rtt: nat): nat {
    rtt - rtt / 2
  }

  /**
   * The skew bound, from the protocol to the printed number: after any complete interleaving, the offset read
   * from the tightest sample is within half its round trip of the true skew, up to one cycle of rounding; and off by
   * exactly one turn of the counter more when the two stamps it compares lie in different halves of the range.
   */
  lemma SkewBound(samples: nat, skew: int, now: int, moves: seq<Move>, best: int, r: Estimate)
    requires Finished(Run(Start(samples, skew, now), moves))
    requires var s := Run(Start(samples, skew, now), moves);
      && |s.t1| == |s.t2| == |s.t3|
      && FromTightest(s.t1, s.t2, s.t3, |s.t1|, best, r)
      && IsUint64(s.t1[best]) && IsUint64(s.t2[best]) && IsUint64(s.t3[best])
    ensures var s := Run(Start(samples, skew, now), moves);
      var carry := Carry(s.t2[best], s.t1[best] + r.minRoundTrip / 2);
      skew - r.bound <= r.offset + carry * (UINT64_MAX + 1) <= skew + HalfUp(r.minRoundTrip)
  {
    var s := Run(Start(samples, skew, now), moves);
    FinishedRunBrackets(samples, skew, now, moves, best);
    CastDifferenceIsCarried(s.t2[best], s.t1[best] + r.minRoundTrip / 2);
  }

  // ---- the verdict ------------------------------------------------------------------------------

  predicate Bounds(r: Estimate, skew: int) {
    r.bound == r.minRoundTrip / 2 && skew - r.bound <= r.offset <= skew + HalfUp(r.minRoundTrip)
  }

  predicate SignsOppose(fwd: Estimate, rev: Estimate) {
    (fwd.offset > 0) != (rev.offset > 0)
  }

  function Abs(x: int): nat {
    if x < 0 then -x else x
  }

  /** The test for "larger than the method's own resolution". Only the forward bound is consulted. */
  predicate Resolvable(fwd: Estimate, rev: Estimate) {
    Abs(fwd.offset) > fwd.bound || Abs(rev.offset) > fwd.bound
  }

  /** Whether the clock is fine enough to see the handoff: three of its ticks, computed on 64 bits. */
  predicate SeesHandoff(fwd: Estimate, tick: nat) {
    tick > 0 && fwd.minRoundTrip >= 3 * tick % (UINT64_MAX + 1) && fwd.medianRoundTrip > 0
  }

  datatype Verdict = Unmeasured | NotDistinguishable | Asymmetry | RealOffset

  function VerdictOf(fwd: Estimate, rev: Estimate, tick: nat): Verdict {
    if !SeesHandoff(fwd, tick) then Unmeasured
    else if !Resolvable(fwd, rev) then NotDistinguishable
    else if !SignsOppose(fwd, rev) then Asymmetry
    else RealOffset
  }

  /**
   * No handoff faster than three ticks is given a figure, whatever the offsets, and a round trip of zero never is;
   * every other measured one is, on a clock that ticks. Where three ticks overflow their 64 bits, what is left of
   * them after so many turns of the counter counts.
   */
  lemma UnmeasuredIff(fwd: Estimate, rev: Estimate, tick: nat, turns: nat)
    requires fwd.minRoundTrip <= fwd.medianRoundTrip
    ensures VerdictOf(fwd, rev, tick) == Unmeasured ==> tick == 0 || fwd.minRoundTrip < 3 * tick
    ensures tick == 0 || (fwd.minRoundTrip < 3 * tick && 3 * tick <= UINT64_MAX) ==>
      VerdictOf(fwd, rev, tick) == Unmeasured
    ensures tick > 0 && IsUint64(3 * tick - turns * 0x1_0000_0000_0000_0000) ==>
      (VerdictOf(fwd, rev, tick) == Unmeasured
       <==> fwd.minRoundTrip < 3 * tick - turns * 0x1_0000_0000_0000_0000 || fwd.medianRoundTrip == 0)
  {
  }

  /** An asymmetry is two offsets of one sign, of which one is beyond the forward bound; zero counts as negative. */
  lemma AsymmetryIff(fwd: Estimate, rev: Estimate, tick: nat)
    requires SeesHandoff(fwd, tick)
    ensures VerdictOf(fwd, rev, tick) == Asymmetry <==>
      (fwd.offset > 0 && rev.offset > 0 && (fwd.offset > fwd.bound || rev.offset > fwd.bound))
      || (fwd.offset <= 0 && rev.offset <= 0 && (fwd.offset + fwd.bound < 0 || rev.offset + fwd.bound < 0))
  {
  }

  /** A skew larger than both half round trips turns the sign around, and is never taken for an asymmetry. */
  lemma LargeSkewIsReported(fwd: Estimate, rev: Estimate, skew: int, tick: nat)
    requires Bounds(fwd, skew) && Bounds(rev, -skew) && SeesHandoff(fwd, tick)
    requires Abs(skew) > HalfUp(fwd.minRoundTrip) && Abs(skew) > HalfUp(rev.minRoundTrip)
    ensures SignsOppose(fwd, rev) && VerdictOf(fwd, rev, tick) in {NotDistinguishable, RealOffset}
    ensures Abs(skew) > fwd.minRoundTrip ==> VerdictOf(fwd, rev, tick) == RealOffset
  {
  }

  /** An estimate that leaves the interval its own round trip allows around zero. */
  predicate Clears(r: Estimate) {
    r.offset > HalfUp(r.minRoundTrip) || r.offset + r.bound < 0
  }

  /**
   * When "a real offset" is right: of the estimates called so, those that exclude clocks in step are exactly the
   * ones where a direction clears its own round trip, rounded up when positive. What the program tests in its
   * place passes two kinds of harmless estimate: a forward one larger than its truncated bound by the odd cycle,
   * and a reversed one larger than the forward bound.
   */
  lemma RealOffsetIsEvidence(fwd: Estimate, rev: Estimate, tick: nat)
    requires fwd.bound == fwd.minRoundTrip / 2 && rev.bound == rev.minRoundTrip / 2
    requires VerdictOf(fwd, rev, tick) == RealOffset
    ensures (forall skew :: Bounds(fwd, skew) && Bounds(rev, -skew) ==> skew != 0) <==> Clears(fwd) || Clears(rev)
    ensures Bounds(fwd, 0) && Bounds(rev, 0) ==>
      (fwd.offset == fwd.bound + 1 && fwd.minRoundTrip % 2 == 1) || Abs(rev.offset) > fwd.bound
  {
    assert Bounds(fwd, 0) && Bounds(rev, -0) <==> !Clears(fwd) && !Clears(rev);
  }

  // ---- a false verdict from a whole measurement ----------------------------------------------------

  lemma TwoMore(start: State, moves: seq<Move>, m: Move, n: Move) returns (more: seq<Move>)
    ensures Run(start, more) == MoveOne(MoveOne(Run(start, moves), m), n)
  {
    more := moves + [m] + [n];
    assert more[..|more| - 1] == moves + [m] && (moves + [m])[..|moves|] == moves;
  }

  /** Both threads get ready. */
  lemma Readied(s: State)
    requires s.a == WaitReady && s.b == Announce && s.i == s.j == 0 && s.samples == 1
    ensures MoveOne(MoveOne(s, Move(false, 0)), Move(true, 0)) == s.(ready := true, a := StampFirst, b := WaitTurn)
  {
  }

  /** The first thread stamps after a while, and hands over. */
  lemma Given(s: State, wait: nat)
    requires s.a == StampFirst
    ensures var now := s.now + wait;
      MoveOne(MoveOne(s, Move(true, wait)), Move(true, 0))
        == s.(t1 := s.t1 + [now], now := now, turn := 1, a := WaitBack)
  {
  }

  /** The second thread sees its turn, and stamps after a while. */
  lemma Stamped(s: State, wait: nat)
    requires s.turn == 1 && s.b == WaitTurn
    ensures var now := s.now + wait;
      MoveOne(MoveOne(s, Move(false, 0)), Move(false, wait)) == s.(t2 := s.t2 + [now + s.skew], now := now, b := Reply)
  {
  }

  /** It hands back, and the first thread sees it. */
  lemma HandedBack(s: State)
    requires s.b == Reply && s.a == WaitBack && s.samples == 1 && s.j == 0
    ensures MoveOne(MoveOne(s, Move(false, 0)), Move(true, 0)) == s.(turn := 2, j := 1, b := DoneB, a := StampLast)
  {
  }

  /** The first thread stamps last after a while, and takes the token back. */
  lemma TakenBack(s: State, wait: nat)
    requires s.a == StampLast && s.samples == 1 && s.i == 0
    ensures var now := s.now + wait;
      MoveOne(MoveOne(s, Move(true, wait)), Move(true, 0))
      == s.(t3 := s.t3 + [now], now := now, turn := 0, i := 1, a := Join)
  {
  }

  /** The second thread has ended, and the first one joins it. */
  lemma Joined(s: State)
    requires s.a == Join && s.b == DoneB
    ensures MoveOne(MoveOne(s, Move(false, 0)), Move(true, 0)) == s.(a := DoneA)
  {
  }

  /** Up to the handing over: the first stamp is taken, and the token is with the second thread. */
  lemma HandedOver(skew: int, first: nat) returns (moves: seq<Move>)
    ensures Run(Start(1, skew, 0), moves)
         == State(1, skew, 1, true, WaitBack, 0, WaitTurn, 0, [first], [], [], first)
  {
    var start := Start(1, skew, 0);
    assert Run(start, []) == start;
    hide Run, MoveOne;
    moves := TwoMore(start, [], Move(false, 0), Move(true, 0));
    Readied(start);
    var s := Run(start, moves);
    moves := TwoMore(start, moves, Move(true, first), Move(true, 0));
    Given(s, first);
    assert [] + [first] == [first];
  }

  /** Up to the handing back: the middle stamp is taken, and the first thread has seen the token. */
  lemma Returned(skew: int, first: nat, middle: nat) returns (moves: seq<Move>)
    requires first <= middle
    ensures Run(Start(1, skew, 0), moves)
         == State(1, skew, 2, true, StampLast, 0, DoneB, 1, [first], [middle + skew], [], middle)
  {
    hide Run, MoveOne;
    var start := Start(1, skew, 0);
    moves := HandedOver(skew, first);
    var s := Run(start, moves);
    moves := TwoMore(start, moves, Move(false, 0), Move(false, middle - first));
    Stamped(s, middle - first);
    var s' := State(1, skew, 1, true, WaitBack, 0, Reply, 0, [first], [middle + skew], [], middle);
    assert [] + [middle + skew] == [middle + skew] && Run(start, moves) == s';
    moves := TwoMore(start, moves, Move(false, 0), Move(true, 0));
    HandedBack(s');
  }

  /** Any three times in order are the stamps of some interleaving with one sample. */
  lemma OneSample(skew: int, first: nat, middle: nat, last: nat) returns (moves: seq<Move>)
    requires first <= middle <= last
    ensures var s := Run(Start(1, skew, 0), moves);
      Finished(s) && s.t1 == [first] && s.t2 == [middle + skew] && s.t3 == [last]
  {
    hide Run, MoveOne;
    var start := Start(1, skew, 0);
    moves := Returned(skew, first, middle);
    var s := Run(start, moves);
    moves := TwoMore(start, moves, Move(true, last - middle), Move(true, 0));
    TakenBack(s, last - middle);
    var s' := State(1, skew, 0, true, Join, 1, DoneB, 1, [first], [middle + skew], [last], last);
    assert [] + [last] == [last] && Run(start, moves) == s';
    moves := TwoMore(start, moves, Move(false, 0), Move(true, 0));
    Joined(s');
  }

  /** A finished run, and what the program reads from its stamps. */
  ghost predicate Measured(samples: nat, skew: int, moves: seq<Move>, best: int, r: Estimate) {
    var s := Run(Start(samples, skew, 0), moves);
    && Finished(s) && |s.t1| == |s.t2| == |s.t3|
    && FromTightest(s.t1, s.t2, s.t3, |s.t1|, best, r)
    && IsMedian(RoundTrips(s.t1, s.t3, |s.t1|), r.medianRoundTrip)
  }

  /** Two clocks in step, one sample each way on a clock of one cycle a tick, and "a real offset" reported. */
  lemma FalseOffsetVerdict() returns (there: seq<Move>, back: seq<Move>, fwd: Estimate, rev: Estimate)
    ensures Measured(1, 0, there, 0, fwd) && Measured(1, 0, back, 0, rev)
    ensures VerdictOf(fwd, rev, 1) == RealOffset
  {
    hide Run;
    there := OneSample(0, 0, 6, 6);
    back := OneSample(0, 0, 0, 10);
    fwd, rev := Estimate(3, 3, 6, 6), Estimate(-5, 5, 10, 10);
    var f, g := Run(Start(1, 0, 0), there), Run(Start(1, 0, 0), back);
    OneTrip(f.t1, f.t3);
    OneTrip(g.t1, g.t3);
  }

  /** An estimate that some finished run with this skew reads, its stamps on one side of the counter's half. */
  ghost predicate ReadIn(samples: nat, skew: int, moves: seq<Move>, best: int, r: Estimate) {
    && Measured(samples, skew, moves, best, r)
    && var s := Run(Start(samples, skew, 0), moves);
       && IsUint64(s.t1[best]) && IsUint64(s.t2[best]) && IsUint64(s.t3[best])
       && Carry(s.t2[best], s.t1[best] + r.minRoundTrip / 2) == 0
  }

  ghost predicate CanBeRead(r: Estimate, skew: int) {
    exists samples: nat, moves: seq<Move>, best: int :: ReadIn(samples, skew, moves, best, r)
  }

  lemma ReadIsBounded(r: Estimate, skew: int)
    requires CanBeRead(r, skew)
    ensures Bounds(r, skew) && r.minRoundTrip <= r.medianRoundTrip
  {
    hide Run;
    var samples: nat, moves: seq<Move>, best: int :| ReadIn(samples, skew, moves, best, r);
    SkewBound(samples, skew, 0, moves, best, r);
    var s := Run(Start(samples, skew, 0), moves);
    MedianIsNotFaster(s.t1, s.t2, s.t3, best, r);
  }

  /** Any stamp between the outer two is read by some run of one sample. */
  lemma StampIsRead(skew: int, first: nat, middle: nat, last: nat)
    requires first <= middle <= last <= UINT64_MAX && last - first < UINT64_MAX && IsUint64(middle + skew)
    requires Carry(middle + skew, first + (last - first) / 2) == 0
    ensures var n := last - first; CanBeRead(Estimate(middle + skew - (first + n / 2), n / 2, n, n), skew)
  {
    hide Run, Finished;
    var moves := OneSample(skew, first, middle, last);
    var s, n := Run(Start(1, skew, 0), moves), last - first;
    OneTrip(s.t1, s.t3);
    CastDifferenceIsCarried(middle + skew, first + n / 2);
    assert ReadIn(1, skew, moves, 0, Estimate(middle + skew - (first + n / 2), n / 2, n, n));
  }

  /** The bounds are sharp: every offset within them is read by some run. */
  lemma OffsetIsRead(skew: int, n: nat, offset: int)
    requires n < UINT64_MAX && Abs(offset) < TWO63 && skew - n / 2 <= offset <= skew + HalfUp(n)
    ensures CanBeRead(Estimate(offset, n / 2, n, n), skew)
  {
    hide CanBeRead;
    var half := if offset >= 0 then TWO63 else TWO63 - 1;
    StampIsRead(skew, half - n / 2, half + offset - skew, half + HalfUp(n));
  }

  /** Two runs with this skew and these fastest round trips, one each way, that get the verdict. */
  ghost predicate Called(
      v: Verdict, fwd: Estimate, rev: Estimate, skew: int, fwdTrip: nat, revTrip: nat, tick: nat) {
    && CanBeRead(fwd, skew) && CanBeRead(rev, -skew) && fwd.minRoundTrip == fwdTrip && rev.minRoundTrip == revTrip
    && VerdictOf(fwd, rev, tick) == v
  }

  ghost predicate CanBeCalled(v: Verdict, skew: int, fwdTrip: nat, revTrip: nat, tick: nat) {
    exists fwd, rev :: Called(v, fwd, rev, skew, fwdTrip, revTrip, tick)
  }

  /**
   * From the round trips alone, before any offset is known: with a forward round trip that the clock sees, some
   * runs of clocks in step are called offset exactly when the forward trip is odd or the reversed one, halved
   * upwards, exceeds the forward bound. All others are told that they cannot be distinguished from zero.
   */
  lemma FalseOffsetIff(fwdTrip: nat, revTrip: nat, tick: nat)
    requires fwdTrip < UINT64_MAX && revTrip < UINT64_MAX
    requires SeesHandoff(Estimate(0, fwdTrip / 2, fwdTrip, fwdTrip), tick)
    ensures CanBeCalled(RealOffset, 0, fwdTrip, revTrip, tick)
       <==> fwdTrip % 2 == 1 || HalfUp(revTrip) > fwdTrip / 2
    ensures fwdTrip % 2 == 0 && HalfUp(revTrip) <= fwdTrip / 2 ==>
      forall v :: CanBeCalled(v, 0, fwdTrip, revTrip, tick) ==> v == NotDistinguishable
  {
    hide CanBeRead;
    var fwd, rev := Estimate(0, fwdTrip / 2, fwdTrip, fwdTrip), Estimate(0, revTrip / 2, revTrip, revTrip);
    OffsetIsRead(0, fwdTrip, 0);
    OffsetIsRead(0, revTrip, 0);
    if fwdTrip % 2 == 1 {
      OffsetIsRead(0, fwdTrip, HalfUp(fwdTrip));
      assert Called(RealOffset, fwd.(offset := HalfUp(fwdTrip)), rev, 0, fwdTrip, revTrip, tick);
    } else if HalfUp(revTrip) > fwdTrip / 2 {
      OffsetIsRead(0, revTrip, HalfUp(revTrip));
      assert Called(RealOffset, fwd, rev.(offset := HalfUp(revTrip)), 0, fwdTrip, revTrip, tick);
    } else {
      forall v, f, g | Called(v, f, g, 0, fwdTrip, revTrip, tick)
        ensures v == NotDistinguishable
      {
        ReadIsBounded(f, 0);
        ReadIsBounded(g, 0);
      }
    }
  }

  /** How far apart clocks can be for some measurement to find them within its resolution. */
  predicate WithinTrips(skew: int, fwdTrip: nat, revTrip: nat) {
    && 0 <= skew + fwdTrip && skew <= 2 * (fwdTrip / 2)
    && 0 <= skew + fwdTrip / 2 + revTrip / 2 && skew <= fwdTrip / 2 + HalfUp(revTrip)
  }

  /** The number of a range nearest to zero. */
  function NearestZero(low: int, high: int): (x: int)
    requires low <= high
    ensures low <= x <= high && forall y :: low <= y <= high ==> Abs(x) <= Abs(y)
  {
    if low > 0 then low else if high < 0 then high else 0
  }

  /**
   * What "not distinguishable from zero" bounds: the offset between the clocks is at most the whole fastest round
   * trip, and not half of it. Runs of clocks this far apart can get that verdict exactly when the offset is within
   * the forward trip, an odd cycle of it left out above, and within the forward bound and half the reversed trip.
   */
  lemma NotDistinguishableIff(skew: int, fwdTrip: nat, revTrip: nat, tick: nat)
    requires fwdTrip < UINT64_MAX && revTrip < UINT64_MAX
    requires SeesHandoff(Estimate(0, fwdTrip / 2, fwdTrip, fwdTrip), tick)
    ensures CanBeCalled(NotDistinguishable, skew, fwdTrip, revTrip, tick) <==> WithinTrips(skew, fwdTrip, revTrip)
  {
    hide CanBeRead;
    var bound := fwdTrip / 2;
    if WithinTrips(skew, fwdTrip, revTrip) {
      var there := NearestZero(skew - bound, skew + HalfUp(fwdTrip));
      var back := NearestZero(-skew - revTrip / 2, HalfUp(revTrip) - skew);
      OffsetIsRead(skew, fwdTrip, there);
      OffsetIsRead(-skew, revTrip, back);
      assert Called(NotDistinguishable, Estimate(there, bound, fwdTrip, fwdTrip),
                    Estimate(back, revTrip / 2, revTrip, revTrip), skew, fwdTrip, revTrip, tick);
    }
    forall f, g | Called(NotDistinguishable, f, g, skew, fwdTrip, revTrip, tick)
      ensures WithinTrips(skew, fwdTrip, revTrip)
    {
      ReadIsBounded(f, skew);
      ReadIsBounded(g, -skew);
    }
  }

  /** The larger of two sizes. */
  function Larger(x: nat, y: nat): (z: nat)
    ensures z >= x && z >= y && (z == x || z == y)
  {
    if x < y then y else x
  }

  /** What the program holds against the offset its caller accepts: the larger estimate, or the bound it is under. */
  function KnownOffset(fwd: Estimate, rev: Estimate): nat {
    if Resolvable(fwd, rev) then Larger(Abs(fwd.offset), Abs(rev.offset)) else fwd.bound
  }

  /** A run that was measured, and whose known offset its caller accepts. */
  predicate Accepted(fwd: Estimate, rev: Estimate, tick: nat, most: nat) {
    SeesHandoff(fwd, tick) && KnownOffset(fwd, rev) <= most
  }

  ghost predicate Passes(
      fwd: Estimate, rev: Estimate, skew: int, fwdTrip: nat, revTrip: nat, tick: nat, most: nat) {
    && CanBeRead(fwd, skew) && CanBeRead(rev, -skew) && fwd.minRoundTrip == fwdTrip && rev.minRoundTrip == revTrip
    && Accepted(fwd, rev, tick, most)
  }

  /** How far apart clocks can be that pass for at most so much: half a round trip further, in either direction. */
  predicate WithinGate(skew: int, fwdTrip: nat, revTrip: nat, most: nat) {
    && fwdTrip / 2 <= most && 0 <= skew + most + HalfUp(fwdTrip) && skew <= most + fwdTrip / 2
    && 0 <= skew + most + revTrip / 2 && skew <= most + HalfUp(revTrip)
  }

  /**
   * What a run that is accepted says of the clocks: not that they are within what its caller accepts, but that
   * they are within half a round trip more; and any clocks that are can be accepted.
   */
  lemma AcceptedIff(skew: int, fwdTrip: nat, revTrip: nat, tick: nat, most: nat)
    requires fwdTrip < UINT64_MAX && revTrip < UINT64_MAX && most < TWO63
    requires SeesHandoff(Estimate(0, fwdTrip / 2, fwdTrip, fwdTrip), tick)
    ensures (exists fwd, rev :: Passes(fwd, rev, skew, fwdTrip, revTrip, tick, most))
       <==> WithinGate(skew, fwdTrip, revTrip, most)
  {
    hide CanBeRead;
    var bound := fwdTrip / 2;
    if WithinGate(skew, fwdTrip, revTrip, most) {
      var there := NearestZero(skew - bound, skew + HalfUp(fwdTrip));
      var back := NearestZero(-skew - revTrip / 2, HalfUp(revTrip) - skew);
      OffsetIsRead(skew, fwdTrip, there);
      OffsetIsRead(-skew, revTrip, back);
      assert Passes(Estimate(there, bound, fwdTrip, fwdTrip), Estimate(back, revTrip / 2, revTrip, revTrip),
                    skew, fwdTrip, revTrip, tick, most);
    }
    forall f, g | Passes(f, g, skew, fwdTrip, revTrip, tick, most)
      ensures WithinGate(skew, fwdTrip, revTrip, most)
    {
      ReadIsBounded(f, skew);
      ReadIsBounded(g, -skew);
    }
  }

  /** Clocks six cycles apart, with round trips of six, that the program says are under three cycles apart. */
  lemma BeyondTheBound() returns (fwd: Estimate, rev: Estimate)
    ensures CanBeRead(fwd, 6) && CanBeRead(rev, -6) && fwd.bound == 3
    ensures VerdictOf(fwd, rev, 1) == NotDistinguishable && Accepted(fwd, rev, 1, 3)
  {
    hide CanBeRead;
    fwd, rev := Estimate(3, 3, 6, 6), Estimate(-3, 3, 6, 6);
    OffsetIsRead(6, 6, 3);
    OffsetIsRead(-6, 6, -3);
  }

  lemma OneTrip(t1: seq<int>, t3: seq<int>)
    requires |t1| == |t3| == 1 && t1[0] <= t3[0]
    ensures IsMedian(RoundTrips(t1, t3, 1), t3[0] - t1[0])
  {
    var rtts: seq<int> := RoundTrips(t1, t3, 1);
    assert RoundTrips(t1, t3, 0) == [] && rtts == [t3[0] - t1[0]];
    assert IsSortOf(rtts, rtts) && rtts[|rtts| / 2] == t3[0] - t1[0];
  }
}
