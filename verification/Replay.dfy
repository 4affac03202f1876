/** Slicing one symbol out of a day, and replaying a feed through a book with snapshots on a time grid. */
module Replay {
  import opened Wrappers
  import opened Bytes

  /** One framed message: the header fields the handlers read, the symbol field of a directory record, the bytes. */
  datatype Record = Record(kind: byte, locate: nat, ts: nat, stock: Data, payload: Data)

  predicate Modelled(kind: byte) {
    kind in {Ch('S'), Ch('R'), Ch('A'), Ch('F'), Ch('E'), Ch('C'), Ch('X'), Ch('D'), Ch('U'), Ch('P'), Ch('Q'), Ch('H')}
  }

  /** Eight bytes: padded with spaces, or cut. */
  function Padded(symbol: Data): (s: Data)
    ensures |s| == 8 && forall i :: 0 <= i < 8 ==> s[i] == if i < |symbol| then symbol[i] else Ch(' ')
  {
    if |symbol| >= 8 then symbol[..8] else symbol + seq(8 - |symbol|, _ => Ch(' '))
  }

  // ---- the slicer ---------------------------------------------------------------------

  predicate Names(m: Record, want: Data) {
    m.kind == Ch('R') && m.stock == want
  }

  /** Pass one: the locate of the first directory record for the symbol. */
  class LocateFinder {
    const want: Data
    var found: nat
    var ok: bool

    constructor (want: Data)
      ensures this.want == want && !ok && found == 0
    {
      this.want, found, ok := want, 0, false;
    }

    method OnMessage(m: Record)
      modifies this
      ensures if old(ok) || !Names(m, want) then ok == old(ok) && found == old(found) else ok && found == m.locate
    {
      if ok || m.kind != Ch('R') { return; }
      if m.stock == want {
        found := m.locate;
        ok := true;
      }
    }
  }

  predicate Keep(m: Record, target: nat) {
    m.kind == Ch('S') || m.locate == target
  }

  /** Pass two: system events and the target's messages, in order. */
  function Slice(day: seq<Record>, target: nat): seq<Record> {
    if day == [] then []
    else
      var last := day[|day| - 1];
      Slice(day[..|day| - 1], target) + if Keep(last, target) then [last] else []
  }

  /** The positions, in order, at which some of the messages stood. */
  predicate Picks(day: seq<Record>, some: seq<Record>, at: seq<nat>) {
    && |at| == |some| && (forall j :: 0 <= j < |at| ==> at[j] < |day| && some[j] == day[at[j]])
    && forall j, k :: 0 <= j < k < |at| ==> at[j] < at[k]
  }

  lemma PicksOn(day: seq<Record>, some: seq<Record>, at: seq<nat>, m: Record)
    requires Picks(day, some, at)
    ensures Picks(day + [m], some, at) && Picks(day + [m], some + [m], at + [|day|])
  {
  }

  /** A slice is the day's system events and target's messages, each once and in the day's order, and nothing else. */
  lemma {:induction false} SliceIsPicked(day: seq<Record>, target: nat) returns (at: seq<nat>)
    ensures Picks(day, Slice(day, target), at)
    ensures forall i: nat :: i in at <==> i < |day| && (day[i].kind == Ch('S') || day[i].locate == target)
  {
    if day == [] { return []; }
    var init, m := day[..|day| - 1], day[|day| - 1];
    at := SliceIsPicked(init, target);
    PicksOn(init, Slice(init, target), at, m);
    assert init + [m] == day && Slice(init, target) + [] == Slice(init, target);
    if Keep(m, target) { at := at + [|init|]; }
  }

  class Slicer {
    const target: nat
    var out: seq<Record>
    var kept: nat
    ghost var seen: seq<Record>

    constructor (target: nat)
      ensures this.target == target && seen == [] && Valid()
    {
      this.target, out, kept, seen := target, [], 0, [];
    }

    ghost predicate Valid()
      reads this
    {
      out == Slice(seen, target) && kept == |out|
    }

    method OnMessage(m: Record)
      requires Valid()
      modifies this
      ensures Valid() && seen == old(seen) + [m]
    {
      seen := seen + [m];
      assert seen[..|seen| - 1] == old(seen);
      if !Keep(m, target) { return; }
      out := out + [m];
      kept := kept + 1;
    }
  }

  /** The locate the day gives a symbol, if its directory lists it. */
  function FirstLocate(day: seq<Record>, want: Data): Option<nat> {
    if day == [] then None
    else
      match FirstLocate(day[..|day| - 1], want)
      case Some(l) => Some(l)
      case None => if Names(day[|day| - 1], want) then Some(day[|day| - 1].locate) else None
  }

  /** The first directory record that lists the symbol, if any does. */
  predicate ListsFirst(day: seq<Record>, want: Data, i: nat) {
    i < |day| && Names(day[i], want) && forall j :: 0 <= j < i ==> !Names(day[j], want)
  }

  /** The day gives a symbol the locate of the first directory record that lists it. */
  lemma {:induction false} FirstLocateIff(day: seq<Record>, want: Data)
    ensures FirstLocate(day, want).None? <==> forall i :: 0 <= i < |day| ==> !Names(day[i], want)
    ensures forall i: nat :: ListsFirst(day, want, i) ==> FirstLocate(day, want) == Some(day[i].locate)
  {
    if day != [] {
      hide Names;
      var init, m := day[..|day| - 1], day[|day| - 1];
      FirstLocateIff(init, want);
      assert forall j :: 0 <= j < |init| ==> init[j] == day[j];
      forall i: nat | ListsFirst(day, want, i)
        ensures FirstLocate(day, want) == Some(day[i].locate)
      {
        if i < |init| { assert ListsFirst(init, want, i); }
      }
    }
  }

  method SliceDay(day: seq<Record>, symbol: Data) returns (out: Option<seq<Record>>)
    ensures match FirstLocate(day, Padded(symbol))
      case None => out == None
      case Some(target) => out == Some(Slice(day, target))
  {
    var finder := new LocateFinder(Padded(symbol));
    for i := 0 to |day|
      invariant fresh(finder) && finder.want == Padded(symbol)
      invariant FirstLocate(day[..i], finder.want) == if finder.ok then Some(finder.found) else None
    {
      finder.OnMessage(day[i]);
      assert day[..i + 1][..i] == day[..i];
    }
    assert day[..|day|] == day;
    if !finder.ok { return None; }
    var slicer := new Slicer(finder.found);
    for i := 0 to |day|
      invariant fresh(slicer) && slicer.Valid() && slicer.seen == day[..i] && slicer.target == finder.found
    {
      slicer.OnMessage(day[i]);
      assert day[..i + 1] == day[..i] + [day[i]];
    }
    return Some(slicer.out);
  }

  // ---- the replayer ---------------------------------------------------------------------

  /** The book is any state with any way of applying a message, which also says whether the message counted. */
  type Applier<!B> = (B, Record) -> (B, bool)

  datatype Options = Options(symbol: Option<Data>, endNs: nat, limit: nat, intervalNs: nat, snapshots: bool)

  datatype Row<B> = Row(ts: nat, book: B)

  datatype State<B> = State(
    locate: nat, known: bool, read: nat, applied: nat,
    rows: seq<Row<B>>, nextGrid: nat, started: bool, stop: bool, book: B)

  function Fresh<B>(book: B): State<B> {
    State(0, false, 0, 0, [], 0, false, false, book)
  }

  /** The symbol filter's memory after a message. */
  function Located<B>(o: Options, s: State<B>, m: Record): State<B> {
    if o.symbol.Some? && Names(m, o.symbol.value) then s.(locate := m.locate, known := true) else s
  }

  predicate Passes<B>(o: Options, s: State<B>, m: Record) {
    o.symbol.None? || m.kind == Ch('S') || (s.known && m.locate == s.locate)
  }

  /** How many grid points from `grid` on are at or before `ts`. */
  function Due(grid: nat, ts: nat, interval: nat): nat
    requires interval > 0
  {
    if ts < grid then 0 else (ts - grid) / interval + 1
  }

  /** All snapshots that are due before a message, each of the book as it stands. */
  function Snapped<B>(o: Options, s: State<B>, ts: nat): State<B>
    requires o.intervalNs > 0
  {
    if !o.snapshots || ts == 0 then s
    else
      var grid := if s.started then s.nextGrid else (ts / o.intervalNs + 1) * o.intervalNs;
      var n := Due(grid, ts, o.intervalNs);
      s.(rows := s.rows + GridRows(grid, n, o.intervalNs, s.book),
         nextGrid := GridPoint(grid, n, o.intervalNs), started := true)
  }

  function Applied<B>(apply: Applier<B>, s: State<B>, m: Record): State<B> {
    var (book, counted) := apply(s.book, m);
    s.(book := book, applied := if counted then s.applied + 1 else s.applied)
  }

  predicate PastEnd(o: Options, m: Record) {
    o.endNs != 0 && m.ts >= o.endNs && m.ts > 0
  }

  /** One message. */
  function Step<B>(apply: Applier<B>, o: Options, s: State<B>, m: Record): State<B>
    requires o.intervalNs > 0
  {
    if s.stop then s
    else if o.limit != 0 && s.read + 1 > o.limit then s.(stop := true)
    else if !Modelled(m.kind) then s.(read := s.read + 1)
    else if PastEnd(o, m) then s.(stop := true)
    else
      var s1 := Located(o, s.(read := s.read + 1), m);
      if !Passes(o, s1, m) then s1 else Applied(apply, Snapped(o, s1, m.ts), m)
  }

  function Run<B>(apply: Applier<B>, o: Options, book: B, tape: seq<Record>): State<B>
    requires o.intervalNs > 0
  {
    if tape == [] then Fresh(book) else Step(apply, o, Run(apply, o, book, tape[..|tape| - 1]), tape[|tape| - 1])
  }

  class Replayer<!B> {
    const apply: Applier<B>
    const o: Options
    var locate: nat
    var locateKnown: bool
    var read: nat
    var applied: nat
    var written: nat
    var nextGrid: nat
    var gridStarted: bool
    var stop: bool
    var book: B
    var rows: seq<Row<B>>

    constructor (apply: Applier<B>, o: Options, book: B)
      ensures this.apply == apply && this.o == o && Now() == Fresh(book) && written == 0
    {
      this.apply, this.o, this.book := apply, o, book;
      locate, locateKnown, read, applied, written := 0, false, 0, 0, 0;
      nextGrid, gridStarted, stop, rows := 0, false, false, [];
    }

    ghost function Now(): State<B>
      reads this
    {
      State(locate, locateKnown, read, applied, rows, nextGrid, gridStarted, stop, book)
    }

    /** Count, stop, filter, snapshot on the way past each grid point, apply. */
    method OnMessage(m: Record)
      requires o.intervalNs > 0 && written == |rows|
      modifies this
      ensures Now() == Step(apply, o, old(Now()), m) && written == |rows|
    {
      hide Snapped, Applied;
      if stop { return; }
      read := read + 1;
      if o.limit != 0 && read > o.limit {
        read := read - 1;
        stop := true;
        return;
      }
      if !Modelled(m.kind) { return; }
      if o.endNs != 0 && m.ts >= o.endNs && m.ts > 0 {
        read := read - 1;
        stop := true;
        return;
      }
      if o.symbol.Some? {
        if m.kind == Ch('R') && m.stock == o.symbol.value {
          locate, locateKnown := m.locate, true;
        }
        if m.kind != Ch('S') && (!locateKnown || m.locate != locate) { return; }
      }
      Snap(m.ts);
      Count(m);
    }

    /** Hand one message to the book. */
    method Count(m: Record)
      modifies `book, `applied
      ensures Now() == Applied(apply, old(Now()), m)
    {
      var (after, counted) := apply(book, m);
      book := after;
      if counted { applied := applied + 1; }
    }

    method Snap(ts: nat)
      requires o.intervalNs > 0 && written == |rows|
      modifies `nextGrid, `gridStarted, `rows, `written
      ensures Now() == Snapped(o, old(Now()), ts) && written == |rows|
    {
      hide Snapped;
      if o.snapshots && ts > 0 { Snapshots(ts); } else { SnappedNone(o, Now(), ts); }
    }

    method Snapshots(ts: nat)
      requires o.intervalNs > 0 && o.snapshots && ts > 0 && written == |rows|
      modifies `nextGrid, `gridStarted, `rows, `written
      ensures Now() == Snapped(o, old(Now()), ts) && written == |rows|
    {
      if !gridStarted {
        nextGrid := (ts / o.intervalNs + 1) * o.intervalNs;
        gridStarted := true;
      }
      CatchUp(ts);
    }

    /** A row for every grid point reached, each with the book as it stands. */
    method CatchUp(ts: nat)
      requires o.intervalNs > 0 && gridStarted && written == |rows|
      modifies `nextGrid, `rows, `written
      ensures var n := Due(old(nextGrid), ts, o.intervalNs);
        nextGrid == GridPoint(old(nextGrid), n, o.intervalNs)
        && rows == old(rows) + GridRows(old(nextGrid), n, o.intervalNs, book)
      ensures written == |rows|
    {
      hide Due, GridRows, GridPoint;
      ghost var grid, before, n: nat := nextGrid, rows, 0;
      ghost var due := Due(grid, ts, o.intervalNs);
      GridRowsNone(grid, o.intervalNs, book);
      while ts >= nextGrid
        invariant nextGrid == GridPoint(grid, n, o.intervalNs)
        invariant n <= due
        invariant written == |rows|
        invariant rows == before + GridRows(grid, n, o.intervalNs, book)
        decreases due - n
      {
        NotYetDue(grid, ts, o.intervalNs, n);
        GridRowsNext(before, grid, n, o.intervalNs, book);
        rows := rows + [Row(nextGrid, book)];
        written := written + 1;
        nextGrid := nextGrid + o.intervalNs;
        n := n + 1;
      }
      AllDue(grid, ts, o.intervalNs, n);
    }
  }

  /** The nth point of the grid after a given one. */
  function GridPoint(grid: nat, n: nat, interval: nat): nat {
    grid + n * interval
  }

  lemma GridRowsNone<B>(grid: nat, interval: nat, book: B)
    ensures GridRows(grid, 0, interval, book) == [] && GridPoint(grid, 0, interval) == grid
  {
  }

  lemma GridRowsNext<B>(before: seq<Row<B>>, grid: nat, n: nat, interval: nat, book: B)
    ensures before + GridRows(grid, n + 1, interval, book)
         == (before + GridRows(grid, n, interval, book)) + [Row(GridPoint(grid, n, interval), book)]
    ensures GridPoint(grid, n + 1, interval) == GridPoint(grid, n, interval) + interval
  {
  }

  lemma SnappedNone<B>(o: Options, s: State<B>, ts: nat)
    requires o.intervalNs > 0 && (!o.snapshots || ts == 0)
    ensures Snapped(o, s, ts) == s
  {
  }

  function GridRows<B>(grid: nat, n: nat, interval: nat, book: B): seq<Row<B>> {
    seq(n, i requires 0 <= i < n => Row(grid + i * interval, book))
  }

  lemma MulMonotone(a: nat, b: nat, c: nat)
    ensures a <= b ==> a * c <= b * c
  {
    if a <= b { assert b * c == a * c + (b - a) * c; }
  }

  lemma NotYetDue(grid: nat, ts: nat, interval: nat, n: nat)
    requires interval > 0 && ts >= GridPoint(grid, n, interval)
    ensures n < Due(grid, ts, interval)
  {
    var q := (ts - grid) / interval;
    MulMonotone(q + 1, n, interval);
    assert (q + 1) * interval == q * interval + interval;
  }

  lemma AllDue(grid: nat, ts: nat, interval: nat, n: nat)
    requires interval > 0 && ts < GridPoint(grid, n, interval) && n <= Due(grid, ts, interval)
    ensures n == Due(grid, ts, interval)
  {
    if ts >= grid {
      var q := (ts - grid) / interval;
      MulMonotone(n, q, interval);
    }
  }

  // ---- slicing commutes with replaying ------------------------------------------------------

  /** Every directory record for the symbol, up to the end of the window, gives the same locate. */
  predicate OneLocate(o: Options, day: seq<Record>, target: nat)
    requires o.symbol.Some?
  {
    forall i :: 0 <= i < |day| && Names(day[i], o.symbol.value) && !PastEnd(o, day[i]) ==> day[i].locate == target
  }

  /** Modelled messages come in time order. */
  predicate Chronological(day: seq<Record>) {
    forall i, j :: 0 <= i < j < |day| && Modelled(day[i].kind) && Modelled(day[j].kind) ==> day[i].ts <= day[j].ts
  }

  /** Everything a replay shows except how many messages it read and whether it has stopped. */
  predicate SameOutcome<B(==)>(a: State<B>, b: State<B>) {
    && a.locate == b.locate && a.known == b.known && a.applied == b.applied && a.rows == b.rows
    && a.nextGrid == b.nextGrid && a.started == b.started && a.book == b.book
  }

  /** How the replay of a whole day and of its slice stand to each other part of the way through. */
  ghost predicate InStep<B>(o: Options, whole: State<B>, part: State<B>, target: nat, done: seq<Record>) {
    && SameOutcome(whole, part)
    && (whole.known ==> whole.locate == target)
    && (part.stop ==> whole.stop)
    && (whole.stop && !part.stop ==> exists m :: m in done && Modelled(m.kind) && PastEnd(o, m))
  }

  lemma OneMessageInStep<B>(
      apply: Applier<B>, o: Options, whole: State<B>, part: State<B>, target: nat, done: seq<Record>, m: Record)
    requires o.intervalNs > 0 && o.limit == 0 && o.symbol.Some?
    requires InStep(o, whole, part, target, done)
    requires Names(m, o.symbol.value) && !PastEnd(o, m) ==> m.locate == target
    requires o.endNs != 0 && Modelled(m.kind) ==> forall x :: x in done && Modelled(x.kind) ==> x.ts <= m.ts
    ensures InStep(o, Step(apply, o, whole, m), if Keep(m, target) then Step(apply, o, part, m) else part,
                   target, done + [m])
  {
    hide Snapped, Applied;
    assert m in done + [m];
    if whole.stop {
      if !part.stop {
        var x :| x in done && Modelled(x.kind) && PastEnd(o, x);
        assert x in done + [m];
        assert Modelled(m.kind) ==> PastEnd(o, m);
      }
    } else if Keep(m, target) {
      StepsAlike(apply, o, whole, part, m);
      StepLocate(apply, o, whole, m);
    } else {
      assert Modelled(m.kind) && !PastEnd(o, m)
        ==> Located(o, whole.(read := whole.read + 1), m) == whole.(read := whole.read + 1);
    }
  }

  lemma StepLocate<B>(apply: Applier<B>, o: Options, s: State<B>, m: Record)
    requires o.intervalNs > 0
    ensures var s' := Step(apply, o, s, m);
      s'.known && !(s.known && s'.locate == s.locate) ==>
        o.symbol.Some? && Names(m, o.symbol.value) && s'.locate == m.locate
  {
  }

  /** Two states that differ only in what they have read take the same step. */
  lemma StepsAlike<B>(apply: Applier<B>, o: Options, a: State<B>, b: State<B>, m: Record)
    requires o.intervalNs > 0 && o.limit == 0 && SameOutcome(a, b) && !a.stop && !b.stop
    ensures SameOutcome(Step(apply, o, a, m), Step(apply, o, b, m))
    ensures Step(apply, o, a, m).stop == Step(apply, o, b, m).stop
  {
    hide Snapped, Applied;
    var a1, b1 := Located(o, a.(read := a.read + 1), m), Located(o, b.(read := b.read + 1), m);
    SnappedAlike(o, a1, b1, m.ts);
    AppliedAlike(apply, Snapped(o, a1, m.ts), Snapped(o, b1, m.ts), m);
  }

  lemma SnappedAlike<B>(o: Options, a: State<B>, b: State<B>, ts: nat)
    requires o.intervalNs > 0 && SameOutcome(a, b)
    ensures var a', b' := Snapped(o, a, ts), Snapped(o, b, ts);
      SameOutcome(a', b') && a'.stop == a.stop && b'.stop == b.stop
  {
  }

  lemma AppliedAlike<B>(apply: Applier<B>, a: State<B>, b: State<B>, m: Record)
    requires SameOutcome(a, b)
    ensures var a', b' := Applied(apply, a, m), Applied(apply, b, m);
      SameOutcome(a', b') && a'.stop == a.stop && b'.stop == b.stop
  {
  }

  lemma {:induction false} RunsInStep<B>(
      apply: Applier<B>, o: Options, book: B, day: seq<Record>, target: nat)
    requires o.intervalNs > 0 && o.limit == 0 && o.symbol.Some?
    requires OneLocate(o, day, target) && (o.endNs != 0 ==> Chronological(day))
    ensures InStep(o, Run(apply, o, book, day), Run(apply, o, book, Slice(day, target)), target, day)
  {
    if day != [] {
      var init, m := day[..|day| - 1], day[|day| - 1];
      RunsInStep(apply, o, book, init, target);
      OneMessageInStep(apply, o, Run(apply, o, book, init), Run(apply, o, book, Slice(init, target)), target, init, m);
      var part := Slice(init, target);
      assert (part + [m])[..|part|] == part && part + [] == part && init + [m] == day;
    }
  }

  /** The day and its slice replay to the same book, the same count of applied messages and the same snapshot rows. */
  predicate Commutes<B(==)>(apply: Applier<B>, o: Options, book: B, day: seq<Record>, target: nat)
    requires o.intervalNs > 0
  {
    var whole, part := Run(apply, o, book, day), Run(apply, o, book, Slice(day, target));
    whole.book == part.book && whole.applied == part.applied && whole.rows == part.rows
  }

  /** Slicing and replaying commute for any book, with or without an end of window. */
  lemma SliceCommutes<B>(apply: Applier<B>, o: Options, book: B, day: seq<Record>, target: nat)
    requires o.intervalNs > 0 && o.limit == 0 && o.symbol.Some?
    requires OneLocate(o, day, target) && (o.endNs != 0 ==> Chronological(day))
    ensures Commutes(apply, o, book, day, target)
  {
    RunsInStep(apply, o, book, day, target);
  }

  // ---- and only when the day has one locate for the symbol ------------------------------------

  /** The book that tells everything: the messages it was handed, in order. */
  function RecordAll(book: seq<Record>, m: Record): (seq<Record>, bool) {
    (book + [m], true)
  }

  lemma {:induction false} RecordedCame(o: Options, tape: seq<Record>)
    requires o.intervalNs > 0
    ensures forall m :: m in Run(RecordAll, o, [], tape).book ==> m in tape
  {
    if tape != [] {
      hide Snapped;
      var init, last := tape[..|tape| - 1], tape[|tape| - 1];
      RecordedCame(o, init);
      RecordStep(o, Run(RecordAll, o, [], init), last);
      assert init + [last] == tape;
    }
  }

  lemma RecordStep(o: Options, s: State<seq<Record>>, m: Record)
    requires o.intervalNs > 0
    ensures var s' := Step(RecordAll, o, s, m);
      && (s'.book == s.book || s'.book == s.book + [m])
      && (o.limit == 0 && o.symbol.Some? && Names(m, o.symbol.value) && !PastEnd(o, m) && !s.stop
        ==> s'.book == s.book + [m])
      && (o.limit == 0 && s'.stop && !s.stop ==> Modelled(m.kind) && PastEnd(o, m))
  {
  }

  lemma {:induction false} RecordedStays(o: Options, tape: seq<Record>, n: nat, m: Record)
    requires o.intervalNs > 0 && n <= |tape| && m in Run(RecordAll, o, [], tape[..n]).book
    ensures m in Run(RecordAll, o, [], tape).book
    decreases |tape|
  {
    if n == |tape| {
      assert tape[..n] == tape;
    } else {
      var init := tape[..|tape| - 1];
      assert init[..n] == tape[..n];
      RecordedStays(o, init, n, m);
      RecordStep(o, Run(RecordAll, o, [], init), tape[|tape| - 1]);
    }
  }

  lemma {:induction false} RunsOn(o: Options, tape: seq<Record>)
    requires o.intervalNs > 0 && o.limit == 0
    requires forall k :: 0 <= k < |tape| && Modelled(tape[k].kind) ==> !PastEnd(o, tape[k])
    ensures !Run(RecordAll, o, [], tape).stop
  {
    if tape != [] {
      hide Step;
      var init, last := tape[..|tape| - 1], tape[|tape| - 1];
      RunsOn(o, init);
      RecordStep(o, Run(RecordAll, o, [], init), last);
    }
  }

  lemma {:induction false} SlicedIsKept(day: seq<Record>, target: nat)
    ensures forall m :: m in Slice(day, target) ==> Keep(m, target)
  {
    if day != [] {
      SlicedIsKept(day[..|day| - 1], target);
    }
  }

  /** A directory record that gives the symbol another locate reaches the day's book, and is not in the slice at all. */
  lemma OtherLocateShows(o: Options, day: seq<Record>, target: nat, i: nat)
    requires o.intervalNs > 0 && o.limit == 0 && o.symbol.Some? && (o.endNs != 0 ==> Chronological(day))
    requires i < |day| && Names(day[i], o.symbol.value) && !PastEnd(o, day[i]) && day[i].locate != target
    ensures day[i] in Run(RecordAll, o, [], day).book
    ensures day[i] !in Run(RecordAll, o, [], Slice(day, target)).book
  {
    hide Step, Run, Slice;
    var before := day[..i];
    assert Modelled(day[i].kind);
    assert forall k :: 0 <= k < i ==> before[k] == day[k];
    RunsOn(o, before);
    RecordStep(o, Run(RecordAll, o, [], before), day[i]);
    RunSnoc(RecordAll, o, [], before, day[i]);
    assert day[..i + 1] == before + [day[i]];
    RecordedStays(o, day, i + 1, day[i]);
    RecordedCame(o, Slice(day, target));
    SlicedIsKept(day, target);
  }

  /** Slicing commutes with replaying for every book exactly when the day has one locate for the symbol. */
  lemma SliceCommutesIff(o: Options, day: seq<Record>, target: nat)
    requires o.intervalNs > 0 && o.limit == 0 && o.symbol.Some? && (o.endNs != 0 ==> Chronological(day))
    ensures (forall apply: Applier<seq<Record>>, book: seq<Record> :: Commutes(apply, o, book, day, target))
       <==> OneLocate(o, day, target)
  {
    if OneLocate(o, day, target) {
      forall apply: Applier<seq<Record>>, book: seq<Record>
        ensures Commutes(apply, o, book, day, target)
      {
        SliceCommutes(apply, o, book, day, target);
      }
    } else {
      var i :| 0 <= i < |day| && Names(day[i], o.symbol.value) && !PastEnd(o, day[i]) && day[i].locate != target;
      OtherLocateShows(o, day, target, i);
      assert !Commutes(RecordAll, o, [], day, target);
    }
  }

  lemma RunSnoc<B>(apply: Applier<B>, o: Options, book: B, tape: seq<Record>, m: Record)
    requires o.intervalNs > 0
    ensures Run(apply, o, book, tape + [m]) == Step(apply, o, Run(apply, o, book, tape), m)
  {
    assert (tape + [m])[..|tape|] == tape;
  }

  lemma SliceSnoc(day: seq<Record>, target: nat, m: Record)
    ensures Slice(day + [m], target) == Slice(day, target) + if Keep(m, target) then [m] else []
  {
    assert (day + [m])[..|day|] == day;
  }

  lemma FirstLocateSnoc(day: seq<Record>, want: Data, m: Record)
    ensures FirstLocate(day + [m], want)
         == if FirstLocate(day, want).Some? then FirstLocate(day, want)
            else if Names(m, want) then Some(m.locate) else None
  {
    assert (day + [m])[..|day|] == day;
  }

  /** The plainest book there is: how many messages it was handed. */
  function CountOne(count: int, m: Record): (int, bool) {
    (count + 1, true)
  }

  lemma CountedStep(o: Options, s: State<int>, m: Record)
    requires o.intervalNs > 0 && o.limit == 0 && o.endNs == 0 && !o.snapshots && !s.stop && Modelled(m.kind)
    ensures var s1, s' := Located(o, s.(read := s.read + 1), m), Step(CountOne, o, s, m);
      s' == if Passes(o, s1, m) then s1.(book := s.book + 1, applied := s.applied + 1) else s1
  {
  }

  /** A day that lists a symbol twice: the slice keeps to the first locate, the replay follows to the second. */
  lemma SecondLocateBreaksIt(want: Data)
    ensures var r1, r2, a := Listing(want, 1), Listing(want, 2), Record(Ch('A'), 2, 0, [], []);
      var o := Options(Some(want), 0, 0, 1, false);
      FirstLocate([r1] + [r2] + [a], want) == Some(1)
      && Run(CountOne, o, 0, [r1] + [r2] + [a]).book == 3 && Run(CountOne, o, 0, Slice([r1] + [r2] + [a], 1)).book == 1
  {
    var r1, r2, a := Listing(want, 1), Listing(want, 2), Record(Ch('A'), 2, 0, [], []);
    var o := Options(Some(want), 0, 0, 1, false);
    TwoListings(o, want, r1, r2, a);
  }

  function Listing(want: Data, locate: nat): Record {
    Record(Ch('R'), locate, 0, want, [])
  }

  lemma TwoListings(o: Options, want: Data, r1: Record, r2: Record, a: Record)
    requires o.intervalNs > 0 && o.limit == 0 && o.endNs == 0 && !o.snapshots && o.symbol == Some(want)
    requires Names(r1, want) && Names(r2, want) && !Names(a, want) && r1.locate == 1 && r2.locate == 2 == a.locate
    requires Modelled(r1.kind) && Modelled(r2.kind) && Modelled(a.kind) && a.kind != Ch('S')
    requires r1.kind == r2.kind != Ch('S')
    ensures FirstLocate([r1] + [r2] + [a], want) == Some(1)
    ensures Run(CountOne, o, 0, [r1] + [r2] + [a]).book == 3
    ensures Run(CountOne, o, 0, Slice([r1] + [r2] + [a], 1)).book == 1
  {
    FirstLocateSnoc([], want, r1);
    FirstLocateSnoc([r1], want, r2);
    FirstLocateSnoc([r1] + [r2], want, a);
    SliceSnoc([], 1, r1);
    SliceSnoc([r1], 1, r2);
    SliceSnoc([r1] + [r2], 1, a);
    RunSnoc(CountOne, o, 0, [], r1);
    RunSnoc(CountOne, o, 0, [r1], r2);
    RunSnoc(CountOne, o, 0, [r1] + [r2], a);
    assert Run(CountOne, o, 0, []) == Fresh(0) && Slice([], 1) == [] && FirstLocate([], want) == None;
    hide Run, Slice, FirstLocate, Step, Modelled;
    assert [] + [r1] == [r1] && [r1] + [] == [r1];
    CountedStep(o, Fresh(0), r1);
    CountedStep(o, Run(CountOne, o, 0, [r1]), r2);
    CountedStep(o, Run(CountOne, o, 0, [r1] + [r2]), a);
  }

  // ---- which messages reach the book ----------------------------------------------------------------

  /** Within the limit, and before any modelled message at or past the end of the window. */
  predicate InWindow(o: Options, tape: seq<Record>, i: nat)
    requires i < |tape|
  {
    && (o.limit > 0 ==> i < o.limit)
    && (o.endNs > 0 ==> forall j :: 0 <= j <= i && Modelled(tape[j].kind) ==> tape[j].ts < o.endNs)
  }

  /** The last directory record for the symbol, up to a message. */
  predicate ListedLast(want: Data, tape: seq<Record>, i: nat, r: nat)
    requires i < |tape|
  {
    r <= i && Names(tape[r], want) && forall j :: r < j <= i ==> !Names(tape[j], want)
  }

  /** On the locate that the last directory record for the symbol gave it, that record included. */
  ghost predicate Followed(o: Options, tape: seq<Record>, i: nat)
    requires i < |tape|
  {
    || o.symbol.None? || tape[i].kind == Ch('S')
    || exists r: nat :: ListedLast(o.symbol.value, tape, i, r) && tape[r].locate == tape[i].locate
  }

  /** What the replayer remembers part of the way through, from the tape alone. */
  ghost predicate Remembers<B>(o: Options, s: State<B>, tape: seq<Record>) {
    && (s.stop <==> tape != [] && !InWindow(o, tape, |tape| - 1))
    && (!s.stop ==> s.read == |tape|)
    && (!s.stop && o.symbol.Some? ==>
          (s.known <==> exists i :: 0 <= i < |tape| && Names(tape[i], o.symbol.value))
          && forall r: nat :: tape != [] && ListedLast(o.symbol.value, tape, |tape| - 1, r) ==>
               s.locate == tape[r].locate)
  }

  // ---- the snapshot grid -------------------------------------------------------------------------

  /** Whether a message reaches the book. */
  predicate Reaches<B>(o: Options, s: State<B>, m: Record) {
    && !s.stop && !(o.limit != 0 && s.read + 1 > o.limit) && Modelled(m.kind) && !PastEnd(o, m)
    && Passes(o, Located(o, s, m), m)
  }

  /** The messages that reached the book, in order. */
  function Kept<B>(apply: Applier<B>, o: Options, book: B, tape: seq<Record>): seq<Record>
    requires o.intervalNs > 0
  {
    if tape == [] then []
    else
      var init, last := tape[..|tape| - 1], tape[|tape| - 1];
      Kept(apply, o, book, init) + if Reaches(o, Run(apply, o, book, init), last) then [last] else []
  }

  /** The book after some messages, with no replayer in sight. */
  function BookAfter<B>(apply: Applier<B>, book: B, kept: seq<Record>): B {
    if kept == [] then book else apply(BookAfter(apply, book, kept[..|kept| - 1]), kept[|kept| - 1]).0
  }

  predicate InOrder(kept: seq<Record>) {
    forall i, j :: 0 <= i < j < |kept| ==> kept[i].ts <= kept[j].ts
  }

  /** The first n kept messages are exactly those before the first one at or past `g`. */
  predicate CutAt(kept: seq<Record>, n: nat, g: nat) {
    n < |kept| && kept[n].ts >= g && forall i :: 0 <= i < n ==> kept[i].ts < g
  }

  /** The first timestamp the grid counts; zero stands for none. */
  function FirstTs(kept: seq<Record>): nat {
    if kept == [] then 0 else if kept[0].ts > 0 then kept[0].ts else FirstTs(kept[1..])
  }

  function LastTs(kept: seq<Record>): nat {
    if kept == [] then 0 else kept[|kept| - 1].ts
  }

  /** The row for a grid point: labelled with it, and holding the book just before the first message at or past it. */
  ghost predicate RowAt<B>(apply: Applier<B>, book: B, kept: seq<Record>, row: Row<B>, g: nat) {
    row.ts == g && exists n: nat :: CutAt(kept, n, g) && row.book == BookAfter(apply, book, kept[..n])
  }

  /** Whole intervals up to a timestamp, and the time of a grid point. */
  function Whole(ts: nat, interval: nat): nat
    requires interval > 0
  {
    ts / interval
  }

  function Point(k: nat, interval: nat): nat {
    k * interval
  }

  /** The plain definition of the snapshot file: a row for each multiple of the interval in (first, last], in order. */
  ghost predicate OnGrid<B>(apply: Applier<B>, book: B, kept: seq<Record>, interval: nat, rows: seq<Row<B>>)
    requires interval > 0
  {
    var first, last := FirstTs(kept), LastTs(kept);
    && |rows| == Whole(last, interval) - Whole(first, interval)
    && forall i :: 0 <= i < |rows| ==>
      RowAt(apply, book, kept, rows[i], Point(Whole(first, interval) + 1 + i, interval))
  }

  /** What the replayer's grid state says about the messages it has kept. */
  ghost predicate GridState<B>(apply: Applier<B>, o: Options, book: B, kept: seq<Record>, s: State<B>)
    requires o.intervalNs > 0
  {
    && s.book == BookAfter(apply, book, kept)
    && (o.snapshots ==>
          && OnGrid(apply, book, kept, o.intervalNs, s.rows)
          && (s.started <==> FirstTs(kept) > 0)
          && (s.started ==> s.nextGrid == (LastTs(kept) / o.intervalNs + 1) * o.intervalNs))
  }

  lemma {:induction false} FirstTsAppend(kept: seq<Record>, m: Record)
    ensures FirstTs(kept + [m]) == if FirstTs(kept) > 0 then FirstTs(kept) else m.ts
  {
    if kept != [] && kept[0].ts == 0 {
      FirstTsAppend(kept[1..], m);
      assert (kept + [m])[1..] == kept[1..] + [m];
    }
  }

  lemma {:induction false} FirstBeforeLast(kept: seq<Record>)
    requires InOrder(kept)
    ensures FirstTs(kept) <= LastTs(kept) && (FirstTs(kept) == 0 ==> LastTs(kept) == 0)
  {
    if kept != [] && kept[0].ts == 0 {
      FirstBeforeLast(kept[1..]);
    }
  }

  /** The grid points after that of `q` intervals, up to a timestamp: one for each whole interval in between. */
  lemma DueCount(q: nat, ts: nat, interval: nat)
    requires interval > 0 && ts / interval >= q
    ensures Due((q + 1) * interval, ts, interval) == ts / interval - q
  {
    var t, grid := ts / interval, (q + 1) * interval;
    var d := t - q;
    assert ts < t * interval + interval && t * interval <= ts;
    assert t * interval == q * interval + d * interval;
    assert grid == q * interval + interval;
    if d > 0 {
      MulMonotone(1, d, interval);
      assert (d - 1) * interval == d * interval - interval;
      NotYetDue(grid, ts, interval, d - 1);
    }
    NotDueLater(grid, ts, interval, d);
  }

  lemma NotDueLater(grid: nat, ts: nat, interval: nat, n: nat)
    requires interval > 0 && ts < grid + n * interval
    ensures Due(grid, ts, interval) <= n
  {
    if ts >= grid {
      var q := (ts - grid) / interval;
      MulMonotone(n, q, interval);
    }
  }

  lemma {:induction false} RowsKept<B>(
      apply: Applier<B>, book: B, kept: seq<Record>, m: Record, row: Row<B>, g: nat)
    requires RowAt(apply, book, kept, row, g)
    ensures RowAt(apply, book, kept + [m], row, g)
  {
    var n: nat :| CutAt(kept, n, g) && row.book == BookAfter(apply, book, kept[..n]);
    assert (kept + [m])[..n] == kept[..n];
    assert CutAt(kept + [m], n, g);
  }

  /** A row snapped just before a message, for a grid point between the last message and this one. */
  lemma NewRow<B>(apply: Applier<B>, book: B, kept: seq<Record>, m: Record, row: Row<B>, g: nat)
    requires InOrder(kept) && LastTs(kept) < g <= m.ts
    requires row.ts == g && row.book == BookAfter(apply, book, kept)
    ensures RowAt(apply, book, kept + [m], row, g)
  {
    assert (kept + [m])[..|kept|] == kept;
    assert CutAt(kept + [m], |kept|, g);
  }

  lemma BookAfterAppend<B>(apply: Applier<B>, book: B, kept: seq<Record>, m: Record)
    ensures BookAfter(apply, book, kept + [m]) == apply(BookAfter(apply, book, kept), m).0
  {
    assert (kept + [m])[..|kept|] == kept;
  }

  /** Passing the grid points between the last message and this one adds exactly their rows. */
  lemma SnapKeepsGrid<B>(apply: Applier<B>, o: Options, book: B, kept: seq<Record>, s: State<B>, m: Record)
    requires o.intervalNs > 0 && o.snapshots && GridState(apply, o, book, kept, s) && InOrder(kept + [m])
    ensures var s' := Snapped(o, s, m.ts);
      && OnGrid(apply, book, kept + [m], o.intervalNs, s'.rows)
      && (s'.started <==> FirstTs(kept + [m]) > 0)
      && (s'.started ==> s'.nextGrid == (m.ts / o.intervalNs + 1) * o.intervalNs)
  {
    hide BookAfter, RowAt, InOrder, OnGrid, Snapped, FirstTs;
    InOrderPrefix(kept, m, kept + [m]);
    FirstTsAppend(kept, m);
    FirstBeforeLast(kept);
    LastBeforeNew(kept, m);
    if FirstTs(kept) > 0 {
      var q, n := LastTs(kept) / o.intervalNs, m.ts / o.intervalNs - LastTs(kept) / o.intervalNs;
      DivMonotone(LastTs(kept), m.ts, o.intervalNs);
      SnappedStarted(o, s, q, m.ts);
      GridGrows(apply, book, kept, m, o.intervalNs, s.rows, n);
    } else {
      SnapFirst(apply, o, book, kept, s, m);
    }
  }

  /** The first message with a timestamp starts the grid at the next point, with nothing to snapshot yet. */
  lemma SnapFirst<B>(apply: Applier<B>, o: Options, book: B, kept: seq<Record>, s: State<B>, m: Record)
    requires o.intervalNs > 0 && o.snapshots && OnGrid(apply, book, kept, o.intervalNs, s.rows) && !s.started
    requires FirstTs(kept) == 0 && LastTs(kept) == 0
    ensures var s' := Snapped(o, s, m.ts);
      && OnGrid(apply, book, kept + [m], o.intervalNs, s'.rows)
      && (s'.started <==> m.ts > 0)
      && (s'.started ==> s'.nextGrid == (m.ts / o.intervalNs + 1) * o.intervalNs)
  {
    hide FirstTs, Whole, Point, RowAt;
    FirstTsAppend(kept, m);
    SnappedFirst(o, s, m.ts);
    assert s.rows == [];
  }

  lemma SnappedFirst<B>(o: Options, s: State<B>, ts: nat)
    requires o.intervalNs > 0 && o.snapshots && !s.started
    ensures var s' := Snapped(o, s, ts);
      s'.rows == s.rows && (s'.started <==> ts > 0)
      && (s'.started ==> s'.nextGrid == (ts / o.intervalNs + 1) * o.intervalNs)
  {
    NotDueLater((ts / o.intervalNs + 1) * o.intervalNs, ts, o.intervalNs, 0);
  }

  lemma SnappedStarted<B>(o: Options, s: State<B>, q: nat, ts: nat)
    requires o.intervalNs > 0 && o.snapshots && ts > 0 && s.started && s.nextGrid == (q + 1) * o.intervalNs
    requires q <= ts / o.intervalNs
    ensures var s' := Snapped(o, s, ts);
      && s'.rows == s.rows + GridRows((q + 1) * o.intervalNs, ts / o.intervalNs - q, o.intervalNs, s.book)
      && s'.nextGrid == (ts / o.intervalNs + 1) * o.intervalNs && s'.started
  {
    hide Due;
    DueCount(q, ts, o.intervalNs);
    NextPoint(q, ts / o.intervalNs, o.intervalNs);
  }

  /** The rows so far, followed by one for each point between the last message and the new one. */
  lemma GridGrows<B>(
      apply: Applier<B>, book: B, kept: seq<Record>, m: Record, interval: nat, rows: seq<Row<B>>, n: nat)
    requires interval > 0 && OnGrid(apply, book, kept, interval, rows) && InOrder(kept)
    requires FirstTs(kept) > 0 && LastTs(kept) <= m.ts && n == Whole(m.ts, interval) - Whole(LastTs(kept), interval)
    ensures OnGrid(apply, book, kept + [m], interval,
                   rows + GridRows(Point(Whole(LastTs(kept), interval) + 1, interval), n, interval,
                                   BookAfter(apply, book, kept)))
  {
    hide BookAfter, RowAt, InOrder, GridRows, FirstTs, Whole, Point;
    var q := Whole(LastTs(kept), interval);
    var grid := Point(q + 1, interval);
    var all := rows + GridRows(grid, n, interval, BookAfter(apply, book, kept));
    FirstTsAppend(kept, m);
    GridRowsShape(grid, n, interval, BookAfter(apply, book, kept));
    forall i | 0 <= i < |all|
      ensures RowAt(apply, book, kept + [m], all[i], Point(Whole(FirstTs(kept + [m]), interval) + 1 + i, interval))
    {
      if i < |rows| {
        RowsKept(apply, book, kept, m, rows[i], Point(Whole(FirstTs(kept), interval) + 1 + i, interval));
      } else {
        SnappedRow(apply, book, kept, m, interval, i - |rows|, all[i]);
      }
    }
  }

  lemma LastBeforeNew(kept: seq<Record>, m: Record)
    requires InOrder(kept + [m])
    ensures kept != [] ==> LastTs(kept) <= m.ts
  {
    if kept != [] { assert (kept + [m])[|kept| - 1].ts <= (kept + [m])[|kept|].ts; }
  }

  lemma GridRowsShape<B>(grid: nat, n: nat, interval: nat, book: B)
    ensures |GridRows(grid, n, interval, book)| == n
    ensures forall i :: 0 <= i < n ==>
      GridRows(grid, n, interval, book)[i] == Row(grid + Point(i, interval), book)
  {
  }

  lemma NextPoint(q: nat, t: nat, interval: nat)
    requires q <= t
    ensures (q + 1) * interval + (t - q) * interval == (t + 1) * interval
  {
  }

  lemma SnappedRow<B>(apply: Applier<B>, book: B, kept: seq<Record>, m: Record, interval: nat, k: nat, row: Row<B>)
    requires interval > 0 && InOrder(kept) && k < Whole(m.ts, interval) - Whole(LastTs(kept), interval)
    requires row == Row(Point(Whole(LastTs(kept), interval) + 1, interval) + Point(k, interval),
                        BookAfter(apply, book, kept))
    ensures RowAt(apply, book, kept + [m], row, Point(Whole(LastTs(kept), interval) + 1 + k, interval))
  {
    hide BookAfter, RowAt, InOrder;
    var q := LastTs(kept) / interval;
    assert (q + 1) * interval + k * interval == (q + 1 + k) * interval;
    PointBetween(LastTs(kept), m.ts, interval, k);
    NewRow(apply, book, kept, m, row, (q + 1 + k) * interval);
  }

  lemma DivMonotone(a: nat, b: nat, d: nat)
    requires a <= b && d > 0
    ensures a / d <= b / d
  {
    MulMonotone(b / d + 1, a / d, d);
  }

  lemma PointBetween(last: nat, ts: nat, interval: nat, k: nat)
    requires interval > 0 && k < ts / interval - last / interval
    ensures last < (last / interval + 1 + k) * interval <= ts
  {
    MulMonotone(last / interval + 1, last / interval + 1 + k, interval);
    MulMonotone(last / interval + 1 + k, ts / interval, interval);
    assert (last / interval + 1) * interval == last / interval * interval + interval;
  }

  /** The snapshot rows of a replay are the plain grid over the messages that reached its book. */
  lemma {:induction false} ReplayIsOnGrid<B>(apply: Applier<B>, o: Options, book: B, tape: seq<Record>)
    requires o.intervalNs > 0 && InOrder(Kept(apply, o, book, tape))
    ensures GridState(apply, o, book, Kept(apply, o, book, tape), Run(apply, o, book, tape))
  {
    if tape != [] {
      hide GridState, Reaches, Step;
      var init, m := tape[..|tape| - 1], tape[|tape| - 1];
      var kept, s := Kept(apply, o, book, init), Run(apply, o, book, init);
      assert kept + [] == kept;
      InOrderPrefix(kept, m, Kept(apply, o, book, tape));
      ReplayIsOnGrid(apply, o, book, init);
      StepKeepsGrid(apply, o, book, kept, s, m);
    } else {
      NoRows(apply, o, book);
    }
  }

  lemma StepKeepsGrid<B>(apply: Applier<B>, o: Options, book: B, kept: seq<Record>, s: State<B>, m: Record)
    requires o.intervalNs > 0 && GridState(apply, o, book, kept, s)
    requires Reaches(o, s, m) ==> InOrder(kept + [m])
    ensures GridState(apply, o, book, if Reaches(o, s, m) then kept + [m] else kept, Step(apply, o, s, m))
  {
    hide Snapped, OnGrid, BookAfter, FirstTs, InOrder;
    var s1 := Located(o, s.(read := s.read + 1), m);
    if Reaches(o, s, m) {
      BookAfterAppend(apply, book, kept, m);
      SnappedBook(o, s1, m.ts);
      if o.snapshots { SnapKeepsGrid(apply, o, book, kept, s1, m); }
    }
  }

  lemma NoRows<B>(apply: Applier<B>, o: Options, book: B)
    requires o.intervalNs > 0
    ensures GridState(apply, o, book, [], Fresh(book))
  {
  }

  lemma InOrderPrefix(kept: seq<Record>, m: Record, longer: seq<Record>)
    requires (longer == kept || longer == kept + [m]) && InOrder(longer)
    ensures InOrder(kept)
  {
    assert forall i :: 0 <= i < |kept| ==> longer[i] == kept[i];
  }

  lemma SnappedBook<B>(o: Options, s: State<B>, ts: nat)
    requires o.intervalNs > 0
    ensures Snapped(o, s, ts).book == s.book
  {
  }

  // ---- the plain replay: which messages, which book, how many ---------------------------------------------

  /** The replayer's memory is that of a tape one message longer. */
  lemma RemembersNext<B>(apply: Applier<B>, o: Options, s: State<B>, tape: seq<Record>, m: Record)
    requires o.intervalNs > 0 && Remembers(o, s, tape)
    ensures Remembers(o, Step(apply, o, s, m), tape + [m])
  {
    assert o.symbol.Some? && Names(m, o.symbol.value) ==> Modelled(m.kind);
    hide Snapped, Applied, Names, Modelled, InWindow, PastEnd;
    SnappedRemembers(apply, o, Located(o, s.(read := s.read + 1), m), m);
    WindowOn(o, tape, m);
    if o.symbol.Some? && !Step(apply, o, s, m).stop {
      ListedOn(o.symbol.value, tape, m);
    }
  }

  lemma SnappedRemembers<B>(apply: Applier<B>, o: Options, s: State<B>, m: Record)
    requires o.intervalNs > 0
    ensures var s' := Applied(apply, Snapped(o, s, m.ts), m);
      s'.stop == s.stop && s'.read == s.read && s'.known == s.known && s'.locate == s.locate
  {
  }

  lemma WindowOn(o: Options, tape: seq<Record>, m: Record)
    ensures forall i :: 0 <= i < |tape| ==> (InWindow(o, tape + [m], i) <==> InWindow(o, tape, i))
    ensures InWindow(o, tape + [m], |tape|) <==>
      && (tape == [] || InWindow(o, tape, |tape| - 1)) && !(o.limit != 0 && |tape| + 1 > o.limit)
      && !(Modelled(m.kind) && PastEnd(o, m))
  {
    hide Modelled;
    var now := tape + [m];
    assert now[|tape|] == m && forall j :: 0 <= j < |tape| ==> now[j] == tape[j];
    if tape != [] && !InWindow(o, tape, |tape| - 1) {
      assert !InWindow(o, now, |tape| - 1);
    }
  }

  lemma ListedOn(want: Data, tape: seq<Record>, m: Record)
    ensures forall i, r: nat :: 0 <= i < |tape| ==>
      (ListedLast(want, tape + [m], i, r) <==> ListedLast(want, tape, i, r))
    ensures forall r: nat :: ListedLast(want, tape + [m], |tape|, r) <==>
      if Names(m, want) then r == |tape| else tape != [] && ListedLast(want, tape, |tape| - 1, r)
    ensures (exists i :: 0 <= i < |tape| + 1 && Names((tape + [m])[i], want))
      <==> Names(m, want) || exists i :: 0 <= i < |tape| && Names(tape[i], want)
  {
    hide Names;
    var now := tape + [m];
    assert now[|tape|] == m && forall j :: 0 <= j < |tape| ==> now[j] == tape[j];
  }


  lemma {:induction false} RunRemembers<B>(apply: Applier<B>, o: Options, book: B, tape: seq<Record>)
    requires o.intervalNs > 0
    ensures Remembers(o, Run(apply, o, book, tape), tape)
  {
    if tape != [] {
      hide Remembers, Step;
      var init, m := tape[..|tape| - 1], tape[|tape| - 1];
      RunRemembers(apply, o, book, init);
      RemembersNext(apply, o, Run(apply, o, book, init), init, m);
      assert init + [m] == tape;
    }
  }

  /** From the tape alone: whether its next message reaches the book. */
  lemma ReachesIff<B>(o: Options, s: State<B>, tape: seq<Record>, m: Record)
    requires Remembers(o, s, tape)
    ensures var now := tape + [m];
      Reaches(o, s, m) <==> Modelled(m.kind) && InWindow(o, now, |tape|) && Followed(o, now, |tape|)
  {
    var now := tape + [m];
    assert o.symbol.Some? && Names(m, o.symbol.value) ==> Modelled(m.kind);
    hide Names, Modelled, InWindow, PastEnd, ListedLast;
    WindowOn(o, tape, m);
    if o.symbol.Some? && !s.stop {
      ListedOn(o.symbol.value, tape, m);
      if !Names(m, o.symbol.value) && s.known {
        var r := LastListing(o.symbol.value, tape);
        assert ListedLast(o.symbol.value, now, |tape|, r) && now[r] == tape[r];
      }
    }
  }

  lemma LastListing(want: Data, tape: seq<Record>) returns (r: nat)
    requires exists i :: 0 <= i < |tape| && Names(tape[i], want)
    ensures ListedLast(want, tape, |tape| - 1, r)
  {
    hide Names;
    r := |tape| - 1;
    while !Names(tape[r], want)
      invariant r < |tape| && forall j :: r < j < |tape| ==> !Names(tape[j], want)
      decreases r
    {
      r := r - 1;
    }
  }

  /**
   * The messages that reach the book are exactly the modelled ones within the window and the limit that are system
   * events or on the symbol's last listed locate, each once and in the order of the tape.
   */
  lemma {:induction false} KeptIsPicked<B>(apply: Applier<B>, o: Options, book: B, tape: seq<Record>)
    returns (at: seq<nat>)
    requires o.intervalNs > 0
    ensures Picks(tape, Kept(apply, o, book, tape), at)
    ensures forall i: nat :: i in at <==>
      i < |tape| && Modelled(tape[i].kind) && InWindow(o, tape, i) && Followed(o, tape, i)
  {
    hide Reaches, Run, Modelled, InWindow, Followed, Remembers;
    if tape == [] { return []; }
    var init, m := tape[..|tape| - 1], tape[|tape| - 1];
    at := KeptIsPicked(apply, o, book, init);
    RunRemembers(apply, o, book, init);
    ReachesIff(o, Run(apply, o, book, init), init, m);
    PicksOn(init, Kept(apply, o, book, init), at, m);
    assert init + [m] == tape && Kept(apply, o, book, init) + [] == Kept(apply, o, book, init);
    forall i: nat | i < |init|
      ensures tape[i] == init[i] && (InWindow(o, tape, i) <==> InWindow(o, init, i))
      ensures Followed(o, tape, i) <==> Followed(o, init, i)
    {
      EarlierStays(o, init, m, i);
    }
    if Reaches(o, Run(apply, o, book, init), m) { at := at + [|init|]; }
  }

  lemma EarlierStays(o: Options, tape: seq<Record>, m: Record, i: nat)
    requires i < |tape|
    ensures var now := tape + [m];
      && now[i] == tape[i] && (InWindow(o, now, i) <==> InWindow(o, tape, i))
      && (Followed(o, now, i) <==> Followed(o, tape, i))
  {
    hide InWindow, ListedLast;
    WindowOn(o, tape, m);
    if o.symbol.Some? {
      ListedOn(o.symbol.value, tape, m);
      assert forall r: nat :: ListedLast(o.symbol.value, tape, i, r) ==> r <= i by {
        ListedEarlier(o.symbol.value, tape, i);
      }
    }
  }

  lemma ListedEarlier(want: Data, tape: seq<Record>, i: nat)
    requires i < |tape|
    ensures forall r: nat :: ListedLast(want, tape, i, r) ==> r <= i
  {
  }

  /** How many of the messages handed to the book counted. */
  function CountAfter<B>(apply: Applier<B>, book: B, kept: seq<Record>): nat {
    if kept == [] then 0
    else
      var init, m := kept[..|kept| - 1], kept[|kept| - 1];
      CountAfter(apply, book, init) + if apply(BookAfter(apply, book, init), m).1 then 1 else 0
  }

  /** A replay is a plain one of the messages that reach its book: the same book, and the same count. */
  lemma {:induction false} ReplayIsPlain<B>(apply: Applier<B>, o: Options, book: B, tape: seq<Record>)
    requires o.intervalNs > 0
    ensures var s, kept := Run(apply, o, book, tape), Kept(apply, o, book, tape);
      s.book == BookAfter(apply, book, kept) && s.applied == CountAfter(apply, book, kept)
  {
    if tape != [] {
      var init, m := tape[..|tape| - 1], tape[|tape| - 1];
      var kept, s := Kept(apply, o, book, init), Run(apply, o, book, init);
      ReplayIsPlain(apply, o, book, init);
      hide Kept, Run, BookAfter, CountAfter, Modelled;
      PlainStep(apply, o, book, kept, s, m);
      KeptNext(apply, o, book, init, m);
      RunSnoc(apply, o, book, init, m);
      assert init + [m] == tape;
    }
  }

  lemma KeptNext<B>(apply: Applier<B>, o: Options, book: B, tape: seq<Record>, m: Record)
    requires o.intervalNs > 0
    ensures Kept(apply, o, book, tape + [m]) == Kept(apply, o, book, tape)
      + if Reaches(o, Run(apply, o, book, tape), m) then [m] else []
  {
    assert (tape + [m])[..|tape|] == tape;
  }

  lemma PlainStep<B>(apply: Applier<B>, o: Options, book: B, kept: seq<Record>, s: State<B>, m: Record)
    requires o.intervalNs > 0 && s.book == BookAfter(apply, book, kept) && s.applied == CountAfter(apply, book, kept)
    ensures var s', kept' := Step(apply, o, s, m), kept + if Reaches(o, s, m) then [m] else [];
      s'.book == BookAfter(apply, book, kept') && s'.applied == CountAfter(apply, book, kept')
  {
    CountAfterAppend(apply, book, kept, m);
    BookAfterAppend(apply, book, kept, m);
    hide Snapped, Modelled, BookAfter, CountAfter;
    assert kept + [] == kept;
    SnappedKeeps(o, Located(o, s.(read := s.read + 1), m), m.ts);
  }

  lemma CountAfterAppend<B>(apply: Applier<B>, book: B, kept: seq<Record>, m: Record)
    ensures CountAfter(apply, book, kept + [m])
      == CountAfter(apply, book, kept) + if apply(BookAfter(apply, book, kept), m).1 then 1 else 0
  {
    assert (kept + [m])[..|kept|] == kept;
  }

  lemma SnappedKeeps<B>(o: Options, s: State<B>, ts: nat)
    requires o.intervalNs > 0
    ensures Snapped(o, s, ts).book == s.book && Snapped(o, s, ts).applied == s.applied
  {
  }

}
