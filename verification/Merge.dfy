/** Merging the restamped streams by timestamp, and replaying the result over one shared reference map. */
module Merge {
  import opened Wrappers
  import opened Bytes
  import opened Itch
  import opened Sorting
  import opened Venue
  import opened Tape
  import opened MergeFeed
  import opened QueueFeed

  // ---- the sort -------------------------------------------------------------------

  datatype Row = Row(ts: nat, stream: nat, index: nat, m: Message)

  /** The sort key: timestamp, then stream, then position in the stream. */
  predicate Before(a: Row, b: Row) {
    a.ts < b.ts || (a.ts == b.ts && (a.stream < b.stream || (a.stream == b.stream && a.index < b.index)))
  }

  predicate Sorted(rows: seq<Row>) {
    forall i, j :: 0 <= i < j < |rows| ==> !Before(rows[j], rows[i])
  }

  predicate StrictlySorted(rows: seq<Row>) {
    forall i, j :: 0 <= i < j < |rows| ==> Before(rows[i], rows[j])
  }

  method SortRows(rows: seq<Row>) returns (sorted: seq<Row>)
    ensures Sorted(sorted) && multiset(sorted) == multiset(rows)
    ensures forall i, j :: 0 <= i < j < |sorted| ==> sorted[i].ts <= sorted[j].ts
  {
    KeyOrder();
    sorted := InsertionSort(NotAfter, rows);
    assert forall i, j :: 0 <= i < j < |sorted| ==> NotAfter(sorted[i], sorted[j]);
  }

  predicate NotAfter(a: Row, b: Row) {
    !Before(b, a)
  }

  lemma KeyOrder()
    ensures Total(NotAfter)
  {
  }

  /** The rows of one stream, in the order they stand. */
  function OfStream(rows: seq<Row>, i: nat): seq<Row> {
    if rows == [] then []
    else
      var last := rows[|rows| - 1];
      OfStream(rows[..|rows| - 1], i) + if last.stream == i then [last] else []
  }

  lemma {:induction false} OfStreamCounts(rows: seq<Row>, i: nat, x: Row)
    ensures multiset(OfStream(rows, i))[x] == if x.stream == i then multiset(rows)[x] else 0
  {
    if rows != [] {
      OfStreamCounts(rows[..|rows| - 1], i, x);
      assert rows == rows[..|rows| - 1] + [rows[|rows| - 1]];
    }
  }

  lemma {:induction false} OfStreamSorted(rows: seq<Row>, i: nat)
    requires Sorted(rows)
    ensures Sorted(OfStream(rows, i)) && forall x :: x in OfStream(rows, i) ==> x in rows && x.stream == i
  {
    if rows != [] {
      var init, last := rows[..|rows| - 1], rows[|rows| - 1];
      OfStreamSorted(init, i);
      var q := OfStream(init, i);
      forall j | 0 <= j < |q|
        ensures !Before(last, q[j])
      {
        assert q[j] in init;
      }
    }
  }

  lemma SameHead(a: seq<Row>, b: seq<Row>)
    requires Sorted(a) && StrictlySorted(b) && multiset(a) == multiset(b) && b != []
    ensures a != [] && a[0] == b[0]
  {
    assert |a| == |multiset(a)| == |multiset(b)| == |b|;
    assert a[0] in multiset(b) && b[0] in multiset(a);
    var i :| 0 <= i < |b| && b[i] == a[0];
    var j :| 0 <= j < |a| && a[j] == b[0];
    assert forall k :: 0 < k < |b| ==> Before(b[0], b[k]);
  }

  /** Two sorted arrangements of the same rows are the same, when one of them has no equal keys. */
  lemma {:induction false} SortedOnce(a: seq<Row>, b: seq<Row>)
    requires Sorted(a) && StrictlySorted(b) && multiset(a) == multiset(b)
    ensures a == b
  {
    hide Before;
    if b == [] {
      assert |multiset(a)| == |a| == 0;
    } else {
      SameHead(a, b);
      WithoutHead(a);
      WithoutHead(b);
      SortedOnce(a[1..], b[1..]);
    }
  }

  lemma WithoutHead(a: seq<Row>)
    requires a != []
    ensures a == [a[0]] + a[1..] && multiset(a[1..]) == multiset(a) - multiset{a[0]}
  {
    assert a == [a[0]] + a[1..];
  }

  // ---- rows of streams ---------------------------------------------------------------

  function RowsOf(i: nat, stream: seq<Message>): (rows: seq<Row>)
    ensures |rows| == |stream|
  {
    seq(|stream|, k requires 0 <= k < |stream| => Row(stream[k].ts, i, k, stream[k]))
  }

  function AllRows(streams: seq<seq<Message>>): seq<Row> {
    if streams == [] then []
    else AllRows(streams[..|streams| - 1]) + RowsOf(|streams| - 1, streams[|streams| - 1])
  }

  lemma {:induction false} OfStreamConcat(a: seq<Row>, b: seq<Row>, i: nat)
    ensures OfStream(a + b, i) == OfStream(a, i) + OfStream(b, i)
  {
    if b == [] {
      assert a + b == a;
    } else {
      var init := b[..|b| - 1];
      OfStreamConcat(a, init, i);
      assert (a + b)[..|a + b| - 1] == a + init;
    }
  }

  lemma {:induction false} OfStreamUniform(rows: seq<Row>, i: nat, k: nat)
    requires forall x :: x in rows ==> x.stream == k
    ensures OfStream(rows, i) == if i == k then rows else []
  {
    if rows != [] {
      OfStreamUniform(rows[..|rows| - 1], i, k);
    }
  }

  lemma {:induction false} OfStreamAllRows(streams: seq<seq<Message>>, i: nat)
    ensures OfStream(AllRows(streams), i) == if i < |streams| then RowsOf(i, streams[i]) else []
  {
    if streams != [] {
      var n := |streams| - 1;
      OfStreamAllRows(streams[..n], i);
      OfStreamConcat(AllRows(streams[..n]), RowsOf(n, streams[n]), i);
      OfStreamUniform(RowsOf(n, streams[n]), i, n);
    }
  }

  /** However the sort arranges the rows, each chronological stream comes out in its own order. */
  lemma SortKeepsEachStream(streams: seq<seq<Message>>, merged: seq<Row>, i: nat)
    requires Sorted(merged) && multiset(merged) == multiset(AllRows(streams))
    requires i < |streams| && Chronological(streams[i])
    ensures OfStream(merged, i) == RowsOf(i, streams[i])
  {
    var a, b := OfStream(merged, i), RowsOf(i, streams[i]);
    OfStreamSorted(merged, i);
    OfStreamAllRows(streams, i);
    forall x
      ensures multiset(a)[x] == multiset(b)[x]
    {
      OfStreamCounts(merged, i, x);
      OfStreamCounts(AllRows(streams), i, x);
    }
    assert multiset(a) == multiset(b);
    SortedOnce(a, b);
  }

  function Messages(rows: seq<Row>): (tape: seq<Message>)
    ensures |tape| == |rows|
  {
    seq(|rows|, k requires 0 <= k < |rows| => rows[k].m)
  }

  lemma {:induction false} OnLocateIsStream(rows: seq<Row>, i: nat)
    requires forall x :: x in rows ==> x.m.locate == x.stream + 1
    ensures OnLocate(Messages(rows), i + 1) == Messages(OfStream(rows, i))
  {
    if rows != [] {
      var init, last := rows[..|rows| - 1], rows[|rows| - 1];
      OnLocateIsStream(init, i);
      assert Messages(rows)[..|rows| - 1] == Messages(init);
      assert last in rows;
    }
  }

  // ---- replay over one shared reference map ---------------------------------------------

  datatype Owned = Owned(locate: nat, order: Resting)

  /** Many books, one reference map: a reference alone decides which security a message touches. */
  datatype Shared = Shared(orders: map<nat, Owned>, queues: map<nat, map<PriceKey, seq<nat>>>, unknown: map<nat, nat>)

  const NOTHING: Shared := Shared(map[], map[], map[])

  function QueuesOf(s: Shared, locate: nat): map<PriceKey, seq<nat>> {
    if locate in s.queues then s.queues[locate] else map[]
  }

  function UnknownOf(s: Shared, locate: nat): nat {
    if locate in s.unknown then s.unknown[locate] else 0
  }

  function Unknown(s: Shared, locate: nat): Shared {
    s.(unknown := s.unknown[locate := UnknownOf(s, locate) + 1])
  }

  function SharedInsert(s: Shared, locate: nat, ref: nat, side: Side, price: int, shares: nat): Shared {
    var k, qs := PriceKey(side, price), QueuesOf(s, locate);
    var q := if k in qs then qs[k] else [];
    s.(orders := s.orders[ref := Owned(locate, Resting(side, price, shares))],
       queues := s.queues[locate := qs[k := q + [ref]]])
  }

  function SharedErase(s: Shared, locate: nat, ref: nat): Shared {
    if ref !in s.orders then Unknown(s, locate)
    else
      var Owned(home, o) := s.orders[ref];
      var qs := QueuesOf(s, home);
      var q := RemoveFirst(if KeyOf(o) in qs then qs[KeyOf(o)] else [], ref);
      s.(orders := s.orders - {ref},
         queues := s.queues[home := if q == [] then qs - {KeyOf(o)} else qs[KeyOf(o) := q]])
  }

  function SharedReduce(s: Shared, locate: nat, ref: nat, shares: nat): Shared {
    if ref !in s.orders then Unknown(s, locate)
    else if shares < s.orders[ref].order.shares then
      var Owned(home, o) := s.orders[ref];
      s.(orders := s.orders[ref := Owned(home, o.(shares := o.shares - shares))])
    else SharedErase(s, locate, ref)
  }

  function SharedSwap(s: Shared, locate: nat, ref: nat, newRef: nat, price: int, shares: nat): Shared {
    if ref !in s.orders then Unknown(s, locate)
    else
      var was := s.orders[ref];
      SharedInsert(SharedErase(s, locate, ref), was.locate, newRef, was.order.side, price, shares)
  }

  function SharedApply(s: Shared, m: Message): Shared {
    match m.body
    case AddOrder(ref, side, shares, _, price) => SharedInsert(s, m.locate, ref, side, price, shares)
    case AddOrderMpid(ref, side, shares, _, price, _) => SharedInsert(s, m.locate, ref, side, price, shares)
    case OrderExecuted(ref, shares, _) => SharedReduce(s, m.locate, ref, shares)
    case OrderExecutedPrice(ref, shares, _, _, _) => SharedReduce(s, m.locate, ref, shares)
    case OrderCancel(ref, shares) => SharedReduce(s, m.locate, ref, shares)
    case OrderDelete(ref) => SharedErase(s, m.locate, ref)
    case OrderReplace(ref, newRef, shares, price) => SharedSwap(s, m.locate, ref, newRef, price, shares)
    case _ => s
  }

  function SharedAfter(tape: seq<Message>): Shared {
    if tape == [] then NOTHING else SharedApply(SharedAfter(tape[..|tape| - 1]), tape[|tape| - 1])
  }

  /** One security's part of the shared state. */
  ghost function Project(s: Shared, locate: nat): Book {
    Book(map r | r in s.orders && s.orders[r].locate == locate :: s.orders[r].order,
         QueuesOf(s, locate), UnknownOf(s, locate))
  }

  predicate InRange(ref: nat, locate: nat) {
    locate >= 1 && (locate - 1) * REF_STRIDE <= ref < locate * REF_STRIDE
  }

  /** Every reference the message names for a book lies in its own security's range. */
  predicate RefsInRange(m: Message) {
    (HasRef(m.body) && !m.body.Trade? ==> InRange(m.body.ref, m.locate))
    && (m.body.OrderReplace? ==> InRange(m.body.newRef, m.locate))
  }

  ghost predicate Partitioned(s: Shared) {
    forall r :: r in s.orders ==> InRange(r, s.orders[r].locate)
  }

  lemma RangesDisjoint(ref: nat, a: nat, b: nat)
    requires InRange(ref, a) && InRange(ref, b)
    ensures a == b
  {
  }

  lemma InsertProjects(s: Shared, locate: nat, ref: nat, side: Side, price: int, shares: nat, l: nat)
    requires Partitioned(s) && InRange(ref, locate)
    ensures var s' := SharedInsert(s, locate, ref, side, price, shares);
      Partitioned(s') && Project(s', l)
        == if l == locate then Insert(Project(s, l), ref, side, price, shares) else Project(s, l)
  {
    var s' := SharedInsert(s, locate, ref, side, price, shares);
    if ref in s.orders { RangesDisjoint(ref, s.orders[ref].locate, locate); }
    if l == locate {
      assert Project(s', l).orders == Insert(Project(s, l), ref, side, price, shares).orders;
    } else {
      assert Project(s', l).orders == Project(s, l).orders;
    }
  }

  lemma EraseProjects(s: Shared, locate: nat, ref: nat, l: nat)
    requires Partitioned(s) && InRange(ref, locate)
    ensures var s' := SharedErase(s, locate, ref);
      Partitioned(s') && Project(s', l) == if l == locate then Erase(Project(s, l), ref) else Project(s, l)
  {
    var s' := SharedErase(s, locate, ref);
    if ref in s.orders {
      RangesDisjoint(ref, s.orders[ref].locate, locate);
      if l == locate {
        assert Project(s', l).orders == Project(s, l).orders - {ref};
        assert Project(s', l).queues == Erase(Project(s, l), ref).queues;
      } else {
        assert Project(s', l).orders == Project(s, l).orders;
      }
    }
  }

  lemma PartialProjects(s: Shared, locate: nat, ref: nat, shares: nat, l: nat)
    requires Partitioned(s) && ref in s.orders && s.orders[ref].locate == locate
    requires shares < s.orders[ref].order.shares
    ensures var s' := SharedReduce(s, locate, ref, shares);
      Partitioned(s') && Project(s', l) == if l == locate then Reduce(Project(s, l), ref, shares) else Project(s, l)
  {
    var s' := SharedReduce(s, locate, ref, shares);
    if l == locate {
      assert Project(s', l).orders == Reduce(Project(s, l), ref, shares).orders;
    } else {
      assert Project(s', l).orders == Project(s, l).orders;
    }
  }

  lemma ReduceProjects(s: Shared, locate: nat, ref: nat, shares: nat, l: nat)
    requires Partitioned(s) && InRange(ref, locate)
    ensures var s' := SharedReduce(s, locate, ref, shares);
      Partitioned(s') && Project(s', l) == if l == locate then Reduce(Project(s, l), ref, shares) else Project(s, l)
  {
    hide SharedErase, Erase;
    EraseProjects(s, locate, ref, l);
    if ref in s.orders {
      RangesDisjoint(ref, s.orders[ref].locate, locate);
      if shares < s.orders[ref].order.shares {
        PartialProjects(s, locate, ref, shares, l);
      }
    } else {
      UnknownProjects(s, locate, l);
    }
  }

  lemma UnknownProjects(s: Shared, locate: nat, l: nat)
    ensures var b := Project(s, l);
      Project(Unknown(s, locate), l) == if l == locate then b.(unknown := b.unknown + 1) else b
  {
  }

  lemma SwapProjects(s: Shared, locate: nat, ref: nat, newRef: nat, price: int, shares: nat, l: nat)
    requires Partitioned(s) && InRange(ref, locate) && InRange(newRef, locate)
    ensures var s' := SharedSwap(s, locate, ref, newRef, price, shares);
      Partitioned(s')
      && Project(s', l) == if l == locate then Swap(Project(s, l), ref, newRef, price, shares) else Project(s, l)
  {
    if ref in s.orders {
      RangesDisjoint(ref, s.orders[ref].locate, locate);
      EraseProjects(s, locate, ref, l);
      InsertProjects(SharedErase(s, locate, ref), locate, newRef, s.orders[ref].order.side, price, shares, l);
    }
  }

  lemma ApplyProjects(s: Shared, m: Message, l: nat)
    requires Partitioned(s) && RefsInRange(m)
    ensures Partitioned(SharedApply(s, m))
    ensures Project(SharedApply(s, m), l) == if l == m.locate then Apply(Project(s, l), m.body) else Project(s, l)
  {
    hide Project, Partitioned, InRange, SharedInsert, SharedErase, SharedReduce, SharedSwap;
    match m.body
    case AddOrder(ref, side, shares, _, price) => InsertProjects(s, m.locate, ref, side, price, shares, l);
    case AddOrderMpid(ref, side, shares, _, price, _) => InsertProjects(s, m.locate, ref, side, price, shares, l);
    case OrderExecuted(ref, shares, _) => ReduceProjects(s, m.locate, ref, shares, l);
    case OrderExecutedPrice(ref, shares, _, _, _) => ReduceProjects(s, m.locate, ref, shares, l);
    case OrderCancel(ref, shares) => ReduceProjects(s, m.locate, ref, shares, l);
    case OrderDelete(ref) => EraseProjects(s, m.locate, ref, l);
    case OrderReplace(ref, newRef, shares, price) => SwapProjects(s, m.locate, ref, newRef, price, shares, l);
    case _ =>
  }

  /** With disjoint reference ranges, each security's part of a shared replay is that security replayed alone. */
  lemma {:induction false} SharedReplayProjects(tape: seq<Message>, l: nat)
    requires forall m :: m in tape ==> RefsInRange(m)
    ensures Partitioned(SharedAfter(tape)) && Project(SharedAfter(tape), l) == Rebuild(OnLocate(tape, l))
  {
    if tape == [] {
      assert Project(NOTHING, l).orders == map[];
    } else {
      var init, last := tape[..|tape| - 1], tape[|tape| - 1];
      SharedReplayProjects(init, l);
      ApplyProjects(SharedAfter(init), last, l);
      var before := OnLocate(init, l);
      RebuildAppend(before, last);
    }
  }

  // ---- the builder ---------------------------------------------------------------------------

  /** Session events are the market's: every stream but the first loses its own. */
  predicate Kept(m: Message, i: nat) {
    i == 0 || !m.body.SystemEvent?
  }

  /** One generator's tape as it enters the merge. */
  function StampedStream(tape: seq<Message>, i: nat, symbol: Data): seq<Message> {
    if tape == [] then []
    else
      var last := tape[|tape| - 1];
      StampedStream(tape[..|tape| - 1], i, symbol)
      + if Kept(last, i) then [Stamped(last, i + 1, symbol, i * REF_STRIDE)] else []
  }

  function StampedStreams(tapes: seq<seq<Message>>, symbols: seq<Data>): (streams: seq<seq<Message>>)
    requires |symbols| == |tapes|
    ensures |streams| == |tapes|
  {
    seq(|tapes|, i requires 0 <= i < |tapes| => StampedStream(tapes[i], i, symbols[i]))
  }

  /** Restamp one built feed, payload by payload. */
  method StampFeed(data: Data, i: nat, symbol: Data, ghost tape: seq<Message>)
    returns (o: Outcome, stream: seq<Message>)
    requires (forall m :: m in tape ==> Encodable(m)) && data == EncodeFeed(tape) && |symbol| == 8
    ensures o.Pass? ==> stream == StampedStream(tape, i, symbol)
    ensures o.Pass? <==> forall m :: m in StampedStream(tape, i, symbol) ==> Encodable(m)
  {
    hide Encode, EncodeFeed, ParseFeed, Encodable, Stamped;
    FeedPayloads(tape);
    var payloads := Frames(data);
    stream := [];
    for k := 0 to |payloads|
      invariant stream == StampedStream(tape[..k], i, symbol)
      invariant forall m :: m in stream ==> Encodable(m)
    {
      var p := payloads[k];
      ghost var m := tape[k];
      assert tape[..k + 1][..k] == tape[..k];
      KindOf(m);
      if p[0] != Ch('S') || i == 0 {
        var r;
        o, r := Restamp(p, i + 1, symbol, i * REF_STRIDE, m);
        StampedKept(tape, i, symbol, k);
        if o.Raised? { return; }
        DecodeEncode(Stamped(m, i + 1, symbol, i * REF_STRIDE));
        stream := stream + [Decode(r).value];
      }
    }
    assert tape[..|tape|] == tape;
    return Pass, stream;
  }

  /** Each kept message is in the stamped stream, moved to its locate and references. */
  lemma {:induction false} StampedKept(tape: seq<Message>, i: nat, symbol: Data, k: nat)
    requires k < |tape| && Kept(tape[k], i)
    ensures Stamped(tape[k], i + 1, symbol, i * REF_STRIDE) in StampedStream(tape, i, symbol)
  {
    if k < |tape| - 1 {
      StampedKept(tape[..|tape| - 1], i, symbol, k);
    }
  }

  lemma FeedPayloads(tape: seq<Message>)
    requires forall m :: m in tape ==> Encodable(m)
    ensures Unframe(EncodeFeed(tape)) == Some(Payloads(tape))
  {
    var ps := Payloads(tape);
    forall p | p in ps
      ensures Framable(p)
    {
      var i :| 0 <= i < |ps| && ps[i] == p;
      HeaderRoundTrip(tape[i]);
      assert |p| <= 44;
      assert Pow256(2) == 65536;
    }
    UnframeFrameAll(ps);
  }

  /** Restamp every stream, sort all rows by (timestamp, stream, position), and frame the result. */
  method BuildMulti(feeds: seq<Data>, symbols: seq<Data>, ghost tapes: seq<seq<Message>>)
    returns (o: Outcome, out: Data, ghost merged: seq<Row>)
    requires |feeds| == |symbols| == |tapes|
    requires forall i :: 0 <= i < |feeds| ==> |symbols[i]| == 8
    requires forall i :: 0 <= i < |feeds| ==> forall m :: m in tapes[i] ==> Encodable(m)
    requires forall i :: 0 <= i < |feeds| ==> feeds[i] == EncodeFeed(tapes[i])
    ensures o.Pass? <==> forall i :: 0 <= i < |feeds| ==>
      forall m :: m in StampedStreams(tapes, symbols)[i] ==> Encodable(m)
    ensures o.Pass? ==> ParseFeed(out) == Some(Messages(merged))
    ensures o.Pass? ==> Sorted(merged) && multiset(merged) == multiset(AllRows(StampedStreams(tapes, symbols)))
    ensures o.Pass? ==> InOrder(Messages(merged))
  {
    hide Encode, EncodeFeed, ParseFeed, Encodable, StampedStream, Before, InOrder;
    out, merged := [], [];
    var streams: seq<seq<Message>> := [];
    var rows: seq<Row> := [];
    for i := 0 to |feeds|
      invariant streams == StampedStreams(tapes, symbols)[..i]
      invariant rows == AllRows(streams)
      invariant forall x :: x in rows ==> Encodable(x.m)
      invariant forall j :: 0 <= j < i ==> forall m :: m in streams[j] ==> Encodable(m)
    {
      var stamped;
      o, stamped := StampFeed(feeds[i], i, symbols[i], tapes[i]);
      assert StampedStream(tapes[i], i, symbols[i]) == StampedStreams(tapes, symbols)[i];
      if o.Raised? { return; }
      streams := streams + [stamped];
      assert streams[..i] == StampedStreams(tapes, symbols)[..i];
      rows := rows + RowsOf(i, stamped);
    }
    var sorted := SortRows(rows);
    merged := sorted;
    assert streams == StampedStreams(tapes, symbols);
    MergedInOrder(tapes, symbols, merged);
    forall k | 0 <= k < |merged|
      ensures Encodable(merged[k].m)
    {
      assert merged[k] in multiset(merged);
      assert merged[k] in rows;
    }
    out := WriteRows(sorted);
    o := Pass;
  }

  /** The last loop of the program: each row's payload, framed, in the order given. */
  method WriteRows(sorted: seq<Row>) returns (out: Data)
    requires forall k :: 0 <= k < |sorted| ==> Encodable(sorted[k].m)
    ensures ParseFeed(out) == Some(Messages(sorted))
  {
    hide Encode, EncodeFeed, ParseFeed, Encodable;
    out := [];
    ghost var tape: seq<Message> := [];
    EmptyFeed();
    for k := 0 to |sorted|
      invariant tape == Messages(sorted)[..k]
      invariant forall m :: m in tape ==> Encodable(m)
      invariant out == EncodeFeed(tape)
    {
      EncodeFeedAppend(tape, sorted[k].m);
      out := out + Frame(Encode(sorted[k].m));
      tape := tape + [sorted[k].m];
    }
    assert tape == Messages(sorted);
    ParseEncodeFeed(tape);
  }

  lemma EmptyFeed()
    ensures EncodeFeed([]) == []
  {
  }

  // ---- the merge theorem -----------------------------------------------------------------------

  /** Every reference a message names for a book is below one stride. */
  predicate NamesBelowStride(m: Message) {
    (HasRef(m.body) && !m.body.Trade? ==> m.body.ref < REF_STRIDE)
    && (m.body.OrderReplace? ==> m.body.newRef < REF_STRIDE)
  }

  /** What the merge asks of a stream. */
  predicate Mergeable(tape: seq<Message>) {
    Chronological(tape) && forall m :: m in tape ==> NamesBelowStride(m)
  }

  lemma LegalRefs(tape: seq<Message>, k: nat)
    requires Legal(tape) && k < |tape| && After(tape).nextRef <= REF_STRIDE
    ensures NamesBelowStride(tape[k])
  {
    LegalAt(tape, k);
    LegalBook(tape[..k]);
    NextRefGrows(tape, k, |tape|);
    NextRefGrows(tape, k + 1, |tape|);
    assert tape[..|tape|] == tape;
  }

  /** A generator's whole feed can be merged, closing messages included, if it issued no more than a stride. */
  lemma BuiltFeedIsMergeable(main: seq<Message>, t: nat)
    requires Legal(main) && After(main).lastTs <= t && After(main).nextRef <= REF_STRIDE
    ensures Mergeable(main + Closing(After(main).halted, t))
  {
    LegalChronological(main);
    forall m | m in main + Closing(After(main).halted, t)
      ensures NamesBelowStride(m)
    {
      if m in main {
        var k :| 0 <= k < |main| && main[k] == m;
        LegalRefs(main, k);
      }
    }
  }

  /** Restamping: still in time order, on one locate, and inside one range of references. */
  lemma {:induction false} StampedStreamShape(tape: seq<Message>, i: nat, symbol: Data)
    requires Mergeable(tape)
    ensures var s := StampedStream(tape, i, symbol);
      && Chronological(s)
      && (forall m :: m in s ==> m.locate == i + 1 && RefsInRange(m))
      && (forall k :: 0 <= k < |s| ==> tape != [] && s[k].ts <= tape[|tape| - 1].ts)
    decreases |tape|
  {
    if tape != [] {
      var init, last := tape[..|tape| - 1], tape[|tape| - 1];
      StampedStreamShape(init, i, symbol);
      assert last in tape;
      ShiftedInRange(last, i, symbol);
    }
  }

  lemma ShiftedInRange(m: Message, i: nat, symbol: Data)
    requires NamesBelowStride(m)
    ensures RefsInRange(Stamped(m, i + 1, symbol, i * REF_STRIDE))
  {
  }

  lemma {:induction false} RowsOfAll(streams: seq<seq<Message>>, x: Row)
    requires x in AllRows(streams)
    ensures x.stream < |streams| && x.index < |streams[x.stream]|
    ensures x.m == streams[x.stream][x.index] && x.ts == x.m.ts
  {
    var n := |streams| - 1;
    if x in RowsOf(n, streams[n]) {
    } else {
      RowsOfAll(streams[..n], x);
    }
  }

  lemma {:induction false} StampedLocates(tape: seq<Message>, i: nat, symbol: Data)
    ensures forall m :: m in StampedStream(tape, i, symbol) ==> m.locate == i + 1
  {
    if tape != [] { StampedLocates(tape[..|tape| - 1], i, symbol); }
  }

  /** In time order, and at one time security by security. */
  predicate InOrder(tape: seq<Message>) {
    forall j, k :: 0 <= j < k < |tape| ==>
      tape[j].ts < tape[k].ts || (tape[j].ts == tape[k].ts && tape[j].locate <= tape[k].locate)
  }

  /** The merged feed, whatever tapes went in, is in time order. */
  lemma MergedInOrder(tapes: seq<seq<Message>>, symbols: seq<Data>, merged: seq<Row>)
    requires |symbols| == |tapes|
    requires Sorted(merged) && multiset(merged) == multiset(AllRows(StampedStreams(tapes, symbols)))
    ensures InOrder(Messages(merged))
  {
    hide StampedStream;
    forall k | 0 <= k < |merged|
      ensures merged[k].ts == merged[k].m.ts && merged[k].m.locate == merged[k].stream + 1
    {
      var x, streams := merged[k], StampedStreams(tapes, symbols);
      assert x in multiset(merged);
      RowsOfAll(streams, x);
      StampedLocates(tapes[x.stream], x.stream, symbols[x.stream]);
      assert x.m in streams[x.stream];
    }
    forall j, k | 0 <= j < k < |merged|
      ensures merged[j].m.ts < merged[k].m.ts
        || (merged[j].m.ts == merged[k].m.ts && merged[j].m.locate <= merged[k].m.locate)
    {
      assert !Before(merged[k], merged[j]);
    }
  }

  lemma {:induction false} OnLocatePrefix(tape: seq<Message>, n: nat, locate: nat)
    requires n <= |tape|
    ensures OnLocate(tape[..n], locate) <= OnLocate(tape, locate)
    decreases |tape|
  {
    if n == |tape| {
      assert tape[..n] == tape;
    } else {
      assert tape[..|tape| - 1][..n] == tape[..n];
      OnLocatePrefix(tape[..|tape| - 1], n, locate);
    }
  }

  /** How far into its stream a start of the stamped stream reaches. */
  function Reached(tape: seq<Message>, i: nat, symbol: Data, start: seq<Message>): (k: nat)
    ensures k <= |tape|
    decreases |tape|
  {
    if tape == [] || start == StampedStream(tape, i, symbol) then |tape|
    else Reached(tape[..|tape| - 1], i, symbol, start)
  }

  /** How far into stream i the merged feed has come after n messages. */
  function Place(tape: seq<Message>, i: nat, symbol: Data, merged: seq<Message>, n: nat): (k: nat)
    requires n <= |merged|
    ensures k <= |tape|
  {
    Reached(tape, i, symbol, OnLocate(merged[..n], i + 1))
  }

  /**
   * The merge theorem. Whatever streams go in, each in time order and naming references below one stride, at
   * every point of the merged feed the shared replay holds for security i exactly the book that stream i had by
   * itself at the place the feed has reached in it, with every reference moved by the stream's offset; and at the
   * end that place is the end of the stream.
   */
  lemma MergeProjection(tapes: seq<seq<Message>>, symbols: seq<Data>, merged: seq<Row>, n: nat, i: nat)
    requires |symbols| == |tapes| && i < |tapes| && n <= |merged|
    requires forall j :: 0 <= j < |tapes| ==> Mergeable(tapes[j])
    requires Sorted(merged) && multiset(merged) == multiset(AllRows(StampedStreams(tapes, symbols)))
    ensures var k := Place(tapes[i], i, symbols[i], Messages(merged), n);
      && (n == |merged| ==> k == |tapes[i]|)
      && OnLocate(Messages(merged)[..n], i + 1) == StampedStream(tapes[i][..k], i, symbols[i])
      && Project(SharedAfter(Messages(merged)[..n]), i + 1) == Moved(Rebuild(tapes[i][..k]), i * REF_STRIDE)
    ensures OnLocate(Messages(merged)[..n], i + 1) <= StampedStream(tapes[i], i, symbols[i])
  {
    hide Mergeable, Before, Project, SharedAfter, Rebuild, Moved, RefsInRange, StampedStream, Sorted, Chronological;
    var tape := Messages(merged);
    var mine := OnLocate(tape[..n], i + 1);
    MergedRows(tapes, symbols, merged);
    MergedStream(tapes, symbols, merged, i);
    OnLocatePrefix(tape, n, i + 1);
    assert n == |merged| ==> tape[..n] == tape;
    forall m | m in tape[..n]
      ensures RefsInRange(m)
    {
      var k :| 0 <= k < n && tape[k] == m;
      assert merged[k] in merged;
    }
    SharedReplayProjects(tape[..n], i + 1);
    StampedPrefix(tapes[i], i, symbols[i], mine);
    StampedIsMoved(tapes[i][..Place(tapes[i], i, symbols[i], tape, n)], i, symbols[i]);
  }

  // ---- a stamped stream is its own stream under other references ---------------------------------

  function MovedQueue(q: seq<nat>, offset: nat): seq<nat> {
    seq(|q|, i requires 0 <= i < |q| => q[i] + offset)
  }

  function Shift(ref: nat, offset: nat): nat {
    ref + offset
  }

  /** The same orders, with every reference moved. */
  ghost function MovedOrders(orders: map<nat, Resting>, offset: nat): map<nat, Resting> {
    var keys := set r | r in orders :: Shift(r, offset);
    map r | r in keys :: if r >= offset && r - offset in orders then orders[r - offset] else Resting(Bid, 0, 0)
  }

  lemma MovedAt(orders: map<nat, Resting>, offset: nat, r: nat)
    ensures r in MovedOrders(orders, offset) <==> r >= offset && r - offset in orders
    ensures r in MovedOrders(orders, offset) ==> MovedOrders(orders, offset)[r] == orders[r - offset]
  {
    if r >= offset && r - offset in orders {
      assert r == Shift(r - offset, offset);
    }
  }

  /** The same book, with every reference moved. */
  ghost function Moved(b: Book, offset: nat): Book {
    Book(MovedOrders(b.orders, offset), map k | k in b.queues :: MovedQueue(b.queues[k], offset), b.unknown)
  }

  lemma MovedOrder(b: Book, ref: nat, offset: nat)
    ensures ref in b.orders <==> ref + offset in Moved(b, offset).orders
    ensures ref in b.orders ==> Moved(b, offset).orders[ref + offset] == b.orders[ref]
  {
    hide MovedOrders;
    MovedAt(b.orders, offset, ref + offset);
  }

  lemma MovedUpdate(orders: map<nat, Resting>, ref: nat, o: Resting, offset: nat)
    ensures MovedOrders(orders[ref := o], offset) == MovedOrders(orders, offset)[ref + offset := o]
  {
    hide MovedOrders;
    var one, two := MovedOrders(orders[ref := o], offset), MovedOrders(orders, offset)[ref + offset := o];
    forall r: nat
      ensures r in one <==> r in two
      ensures r in one ==> one[r] == two[r]
    {
      MovedAt(orders[ref := o], offset, r);
      MovedAt(orders, offset, r);
    }
  }

  lemma MovedWithout(orders: map<nat, Resting>, ref: nat, offset: nat)
    ensures MovedOrders(orders - {ref}, offset) == MovedOrders(orders, offset) - {ref + offset}
  {
    hide MovedOrders;
    var one, two := MovedOrders(orders - {ref}, offset), MovedOrders(orders, offset) - {ref + offset};
    forall r: nat
      ensures r in one <==> r in two
      ensures r in one ==> one[r] == two[r]
    {
      MovedAt(orders - {ref}, offset, r);
      MovedAt(orders, offset, r);
    }
  }

  lemma MovedInsert(b: Book, ref: nat, side: Side, price: int, shares: nat, offset: nat)
    ensures Moved(Insert(b, ref, side, price, shares), offset)
         == Insert(Moved(b, offset), ref + offset, side, price, shares)
  {
    hide MovedOrders;
    var k := PriceKey(side, price);
    var one := Moved(Insert(b, ref, side, price, shares), offset);
    var two := Insert(Moved(b, offset), ref + offset, side, price, shares);
    assert MovedQueue(Queue(b, k) + [ref], offset) == MovedQueue(Queue(b, k), offset) + [ref + offset];
    assert Queue(Moved(b, offset), k) == MovedQueue(Queue(b, k), offset);
    MovedUpdate(b.orders, ref, Resting(side, price, shares), offset);
    assert one.queues == two.queues;
  }

  lemma {:induction false} MovedRemove(q: seq<nat>, ref: nat, offset: nat)
    ensures MovedQueue(RemoveFirst(q, ref), offset) == RemoveFirst(MovedQueue(q, offset), ref + offset)
  {
    if q != [] {
      var moved := MovedQueue(q, offset);
      assert moved[1..] == MovedQueue(q[1..], offset) && moved[0] == q[0] + offset;
      MovedRemove(q[1..], ref, offset);
      assert MovedQueue([q[0]] + RemoveFirst(q[1..], ref), offset)
        == [q[0] + offset] + MovedQueue(RemoveFirst(q[1..], ref), offset);
    }
  }

  lemma MovedErase(b: Book, ref: nat, offset: nat)
    ensures Moved(Erase(b, ref), offset) == Erase(Moved(b, offset), ref + offset)
  {
    hide MovedOrders;
    MovedOrder(b, ref, offset);
    if ref in b.orders {
      var k := KeyOf(b.orders[ref]);
      MovedRemove(Queue(b, k), ref, offset);
      var one, two := Moved(Erase(b, ref), offset), Erase(Moved(b, offset), ref + offset);
      assert Queue(Moved(b, offset), k) == MovedQueue(Queue(b, k), offset);
      MovedWithout(b.orders, ref, offset);
      assert one.queues == two.queues;
    }
  }

  lemma MovedReduce(b: Book, ref: nat, shares: nat, offset: nat)
    ensures Moved(Reduce(b, ref, shares), offset) == Reduce(Moved(b, offset), ref + offset, shares)
  {
    hide Erase, MovedOrders;
    MovedOrder(b, ref, offset);
    MovedErase(b, ref, offset);
    if ref in b.orders && shares < b.orders[ref].shares {
      MovedUpdate(b.orders, ref, b.orders[ref].(shares := b.orders[ref].shares - shares), offset);
    }
  }

  lemma MovedSwap(b: Book, ref: nat, newRef: nat, price: int, shares: nat, offset: nat)
    ensures Moved(Swap(b, ref, newRef, price, shares), offset)
         == Swap(Moved(b, offset), ref + offset, newRef + offset, price, shares)
  {
    MovedOrder(b, ref, offset);
    if ref in b.orders {
      MovedErase(b, ref, offset);
      MovedInsert(Erase(b, ref), newRef, b.orders[ref].side, price, shares, offset);
      hide Erase, Insert, Moved;
    }
  }

  /** Restamping a message commutes with applying it: the moved book takes the moved message as the book took it. */
  lemma MovedApply(b: Book, body: Body, symbol: Data, offset: nat)
    ensures Moved(Apply(b, body), offset) == Apply(Moved(b, offset), ShiftRefs(body, symbol, offset))
  {
    hide Moved, Insert, Erase, Reduce, Swap;
    match body
    case AddOrder(ref, side, shares, _, price) => MovedInsert(b, ref, side, price, shares, offset);
    case AddOrderMpid(ref, side, shares, _, price, _) => MovedInsert(b, ref, side, price, shares, offset);
    case OrderExecuted(ref, shares, _) => MovedReduce(b, ref, shares, offset);
    case OrderExecutedPrice(ref, shares, _, _, _) => MovedReduce(b, ref, shares, offset);
    case OrderCancel(ref, shares) => MovedReduce(b, ref, shares, offset);
    case OrderDelete(ref) => MovedErase(b, ref, offset);
    case OrderReplace(ref, newRef, shares, price) => MovedSwap(b, ref, newRef, price, shares, offset);
    case _ =>
  }

  /** Restamping preserves the book: a stamped stream rebuilds its own stream's book under moved references. */
  lemma {:induction false} StampedIsMoved(tape: seq<Message>, i: nat, symbol: Data)
    ensures Rebuild(StampedStream(tape, i, symbol)) == Moved(Rebuild(tape), i * REF_STRIDE)
  {
    if tape == [] {
      assert MovedOrders(map[], i * REF_STRIDE) == map[] && Moved(EMPTY, i * REF_STRIDE).queues == map[];
    } else {
      var init, last := tape[..|tape| - 1], tape[|tape| - 1];
      StampedIsMoved(init, i, symbol);
      MovedApply(Rebuild(init), last.body, symbol, i * REF_STRIDE);
      hide Moved, ShiftRefs;
      if Kept(last, i) {
        RebuildAppend(StampedStream(init, i, symbol), Stamped(last, i + 1, symbol, i * REF_STRIDE));
      } else {
        assert StampedStream(init, i, symbol) + [] == StampedStream(init, i, symbol);
      }
    }
  }

  /** Any start of a stamped stream is the stamping of the stream as far as it reaches. */
  lemma {:induction false} StampedPrefix(tape: seq<Message>, i: nat, symbol: Data, start: seq<Message>)
    requires start <= StampedStream(tape, i, symbol)
    ensures start == StampedStream(tape[..Reached(tape, i, symbol, start)], i, symbol)
    decreases |tape|
  {
    if tape == [] || start == StampedStream(tape, i, symbol) {
      assert tape[..|tape|] == tape;
    } else {
      var init := tape[..|tape| - 1];
      assert start <= StampedStream(init, i, symbol);
      StampedPrefix(init, i, symbol, start);
      assert init[..Reached(init, i, symbol, start)] == tape[..Reached(init, i, symbol, start)];
    }
  }

  /** A longer start reaches no less far. */
  lemma {:induction false} ReachedGrows(
      tape: seq<Message>, i: nat, symbol: Data, start: seq<Message>, longer: seq<Message>)
    requires start <= longer <= StampedStream(tape, i, symbol)
    ensures Reached(tape, i, symbol, start) <= Reached(tape, i, symbol, longer)
    decreases |tape|
  {
    if tape == [] || longer == StampedStream(tape, i, symbol) {
    } else {
      var init := tape[..|tape| - 1];
      assert longer <= StampedStream(init, i, symbol);
      ReachedGrows(init, i, symbol, start, longer);
    }
  }

  lemma StreamShapes(tapes: seq<seq<Message>>, symbols: seq<Data>, j: nat)
    requires |symbols| == |tapes| && j < |tapes| && Mergeable(tapes[j])
    ensures var s := StampedStreams(tapes, symbols)[j];
      Chronological(s) && forall m: Message :: m in s ==> m.locate == j + 1 && RefsInRange(m)
  {
    StampedStreamShape(tapes[j], j, symbols[j]);
  }

  lemma MergedRows(tapes: seq<seq<Message>>, symbols: seq<Data>, merged: seq<Row>)
    requires |symbols| == |tapes|
    requires forall j :: 0 <= j < |tapes| ==> Mergeable(tapes[j])
    requires multiset(merged) == multiset(AllRows(StampedStreams(tapes, symbols)))
    ensures forall x :: x in merged ==> x.m.locate == x.stream + 1 && RefsInRange(x.m)
  {
    hide Mergeable, RefsInRange, StampedStream;
    var streams := StampedStreams(tapes, symbols);
    forall x | x in merged
      ensures x.m.locate == x.stream + 1 && RefsInRange(x.m)
    {
      assert x in multiset(merged);
      RowsOfAll(streams, x);
      StreamShapes(tapes, symbols, x.stream);
      assert x.m in streams[x.stream];
    }
  }

  lemma MergedStream(tapes: seq<seq<Message>>, symbols: seq<Data>, merged: seq<Row>, i: nat)
    requires |symbols| == |tapes| && i < |tapes|
    requires Mergeable(tapes[i])
    requires Sorted(merged) && multiset(merged) == multiset(AllRows(StampedStreams(tapes, symbols)))
    requires forall x :: x in merged ==> x.m.locate == x.stream + 1
    ensures OnLocate(Messages(merged), i + 1) == StampedStream(tapes[i], i, symbols[i])
  {
    hide Mergeable, Before, StampedStream, Sorted, Chronological;
    var streams := StampedStreams(tapes, symbols);
    StreamShapes(tapes, symbols, i);
    SortKeepsEachStream(streams, merged, i);
    OnLocateIsStream(merged, i);
    assert Messages(RowsOf(i, streams[i])) == streams[i];
  }

  // ---- the whole multi-symbol program --------------------------------------------------------------

  /** The digits of a number, at least as many as asked for. */
  function Digits(n: nat, least: nat): (s: Data)
    ensures |s| >= least
    decreases n, least
  {
    if n == 0 && least == 0 then []
    else Digits(n / 10, if least == 0 then 0 else least - 1) + [Ch('0') + (n % 10) as byte]
  }

  /** "SY" and at least four digits, cut to eight characters or padded to them. */
  function SymbolOf(i: nat): (s: Data)
    ensures |s| == 8
  {
    var name := [Ch('S'), Ch('Y')] + Digits(i, 4);
    if |name| >= 8 then name[..8] else name + seq(8 - |name|, _ => Ch(' '))
  }

  /** The number that digits spell. */
  function Spelled(d: Data): int {
    if d == [] then 0 else 10 * Spelled(d[..|d| - 1]) + (d[|d| - 1] as int - Ch('0') as int)
  }

  predicate IsDigit(c: byte) {
    Ch('0') <= c <= Ch('9')
  }

  lemma {:induction false} DigitsSpell(n: nat, least: nat)
    ensures Spelled(Digits(n, least)) == n && forall i :: 0 <= i < |Digits(n, least)| ==> IsDigit(Digits(n, least)[i])
    decreases n, least
  {
    if n > 0 || least > 0 {
      var init := Digits(n / 10, if least == 0 then 0 else least - 1);
      DigitsSpell(n / 10, if least == 0 then 0 else least - 1);
      assert Digits(n, least)[..|init|] == init;
    }
  }

  /** Ten to a power. */
  function Tens(k: nat): (n: nat)
    ensures n >= 1
  {
    if k == 0 then 1 else 10 * Tens(k - 1)
  }

  lemma {:induction false} FewDigits(n: nat, least: nat, most: nat)
    requires n < Tens(most) && least <= most
    ensures |Digits(n, least)| <= most
    decreases most
  {
    if most > 0 { FewDigits(n / 10, if least == 0 then 0 else least - 1, most - 1); }
  }

  /** A name of a security: its letters, the digits of its number, and blanks. */
  predicate Shows(name: Data, i: nat, digits: Data) {
    && |name| == 8 && name[..2] == [Ch('S'), Ch('Y')] && 4 <= |digits| <= 6 && Spelled(digits) == i
    && (forall k :: 0 <= k < |digits| ==> IsDigit(digits[k]) && name[2 + k] == digits[k])
    && forall k :: 2 + |digits| <= k < 8 ==> name[k] == Ch(' ')
  }

  /** A name shows its security's number as long as the number has six digits. */
  lemma SymbolShows(i: nat)
    requires i < 1000000
    ensures Shows(SymbolOf(i), i, Digits(i, 4))
  {
    DigitsSpell(i, 4);
    assert Tens(6) == 1000000;
    FewDigits(i, 4, 6);
  }

  lemma SameDigits(name: Data, i: nat, j: nat, d: Data, e: Data)
    requires Shows(name, i, d) && Shows(name, j, e)
    ensures i == j
  {
    if |d| == |e| { assert d == e; }
  }

  lemma {:induction false} DigitsEnough(n: nat, a: nat, b: nat)
    requires n >= Tens(a) && n >= Tens(b)
    ensures Digits(n, a) == Digits(n, b)
  {
    if n >= 10 { DigitsEnough(n / 10, if a == 0 then 0 else a - 1, if b == 0 then 0 else b - 1); }
  }

  /** Two securities share a name only past the millionth: the first one that does is cut to another's. */
  lemma SymbolsDiffer(i: nat, j: nat)
    ensures i < 1000000 && j < 1000000 && i != j ==> SymbolOf(i) != SymbolOf(j)
    ensures SymbolOf(1000000) == SymbolOf(100000)
  {
    if i < 1000000 && j < 1000000 && SymbolOf(i) == SymbolOf(j) {
      SymbolShows(i);
      SymbolShows(j);
      SameDigits(SymbolOf(i), i, j, Digits(i, 4), Digits(j, 4));
    }
    OnePastTheMillionth();
  }

  lemma OnePastTheMillionth()
    ensures SymbolOf(1000000) == SymbolOf(100000)
  {
    assert Tens(3) == 1000 && Tens(4) == 10000 && Tens(6) == 1000000;
    DigitsEnough(100000, 3, 4);
    FewDigits(100000, 4, 6);
    var d := Digits(100000, 4);
    assert Digits(1000000, 4) == d + [Ch('0')];
    hide Digits, Tens;
    AtLeastSix();
    assert ([Ch('S'), Ch('Y')] + (d + [Ch('0')]))[..8] == [Ch('S'), Ch('Y')] + d;
  }

  lemma AtLeastSix()
    ensures |Digits(100000, 4)| >= 6
  {
    assert Tens(6) == 1000000 && Tens(4) == 10000;
    DigitsEnough(100000, 4, 5);
    assert |Digits(100000, 5)| == |Digits(10000, 4)| + 1;
    DigitsEnough(10000, 4, 3);
    assert |Digits(10000, 3)| == |Digits(1000, 2)| + 1 && |Digits(1000, 2)| == |Digits(100, 1)| + 1;
    assert |Digits(100, 1)| == |Digits(10, 0)| + 1 && |Digits(10, 0)| == |Digits(1, 0)| + 1;
  }

  lemma NamesDiffer(names: seq<Data>)
    requires |names| <= 1000000 && forall i :: 0 <= i < |names| ==> names[i] == SymbolOf(i)
    ensures forall i :: 0 <= i < |names| ==> Shows(names[i], i, Digits(i, 4))
    ensures forall i, j :: 0 <= i < j < |names| ==> names[i] != names[j]
  {
    hide SymbolOf, Shows, Digits;
    forall i | 0 <= i < |names|
      ensures Shows(names[i], i, Digits(i, 4))
    {
      SymbolShows(i);
    }
    forall i, j | 0 <= i < j < |names|
      ensures names[i] != names[j]
    {
      SymbolsDiffer(i, j);
    }
  }

  /** How many messages each security's generator is asked for: an equal share, and 200 at least. */
  function Share(messages: nat, locates: nat): (n: nat)
    requires locates > 0
    ensures n >= 200 && (n > 200 ==> n * locates <= messages) && messages < (n + 1) * locates
  {
    var share := messages / locates;
    if share > 200 then share else 200
  }

  /** A tape issues no more references than it has messages. */
  lemma {:induction false} FewReferences(tape: seq<Message>)
    requires Legal(tape)
    ensures After(tape).nextRef <= |tape| + 1
  {
    if tape != [] {
      FewReferences(tape[..|tape| - 1]);
    }
  }

  lemma BuiltIsMergeable(main: seq<Message>, t: nat)
    requires Legal(main) && After(main).lastTs <= t && |main| < REF_STRIDE
    ensures Mergeable(main + Closing(After(main).halted, t))
  {
    FewReferences(main);
    BuiltFeedIsMergeable(main, t);
  }

  /**
   * Every security goes through its own stream: its messages in the merged feed are the stream's, stamped, as far
   * as the feed has come; its book is the stream's own at that place; and the place only moves on, to the end.
   */
  ghost predicate Faithful(tapes: seq<seq<Message>>, symbols: seq<Data>, merged: seq<Message>)
    requires |symbols| == |tapes|
  {
    forall i :: 0 <= i < |tapes| ==> Follows(tapes[i], i, symbols[i], merged)
  }

  ghost predicate Follows(tape: seq<Message>, i: nat, symbol: Data, merged: seq<Message>) {
    && (forall n :: 0 <= n <= |merged| ==> SameBook(tape, i, symbol, merged, n))
    && (forall n, n' :: 0 <= n <= n' <= |merged| ==>
          Place(tape, i, symbol, merged, n) <= Place(tape, i, symbol, merged, n'))
    && Place(tape, i, symbol, merged, |merged|) == |tape|
  }

  /** The part of the shared replay on locate i + 1 is the stream's own book, under moved references. */
  ghost predicate SameBook(tape: seq<Message>, i: nat, symbol: Data, merged: seq<Message>, n: nat)
    requires n <= |merged|
  {
    var k := Place(tape, i, symbol, merged, n);
    && OnLocate(merged[..n], i + 1) == StampedStream(tape[..k], i, symbol)
    && Project(SharedAfter(merged[..n]), i + 1) == Moved(Rebuild(tape[..k]), i * REF_STRIDE)
  }

  lemma MergedIsFaithful(tapes: seq<seq<Message>>, symbols: seq<Data>, merged: seq<Row>)
    requires |symbols| == |tapes| && forall j :: 0 <= j < |tapes| ==> Mergeable(tapes[j])
    requires Sorted(merged) && multiset(merged) == multiset(AllRows(StampedStreams(tapes, symbols)))
    ensures Faithful(tapes, symbols, Messages(merged))
  {
    hide Mergeable, Sorted, StampedStreams, Follows;
    forall i | 0 <= i < |tapes|
      ensures Follows(tapes[i], i, symbols[i], Messages(merged))
    {
      StreamIsFollowed(tapes, symbols, merged, i);
    }
  }

  lemma StreamIsFollowed(tapes: seq<seq<Message>>, symbols: seq<Data>, merged: seq<Row>, i: nat)
    requires |symbols| == |tapes| && i < |tapes| && forall j :: 0 <= j < |tapes| ==> Mergeable(tapes[j])
    requires Sorted(merged) && multiset(merged) == multiset(AllRows(StampedStreams(tapes, symbols)))
    ensures Follows(tapes[i], i, symbols[i], Messages(merged))
  {
    hide Mergeable, Sorted, StampedStreams, StampedStream, Project, SharedAfter, Moved, Rebuild, Reached;
    var tape := Messages(merged);
    forall n: nat | n <= |merged|
      ensures SameBook(tapes[i], i, symbols[i], tape, n)
    {
      MergeProjection(tapes, symbols, merged, n, i);
    }
    MergeProjection(tapes, symbols, merged, |merged|, i);
    forall n: nat, n': nat | n <= n' <= |merged|
      ensures Place(tapes[i], i, symbols[i], tape, n) <= Place(tapes[i], i, symbols[i], tape, n')
    {
      MergeProjection(tapes, symbols, merged, n', i);
      OnLocatePrefix(tape[..n'], n, i + 1);
      assert tape[..n'][..n] == tape[..n];
      ReachedGrows(tapes[i], i, symbols[i], OnLocate(tape[..n], i + 1), OnLocate(tape[..n'], i + 1));
    }
  }

  /** A generator's own tape: a legal run, and the closing messages behind it. */
  ghost predicate Built(tape: seq<Message>, main: seq<Message>, t: nat) {
    Legal(main) && After(main).lastTs <= t && tape == main + Closing(After(main).halted, t)
  }

  /** Its main loop stopped as soon as it had the messages it was asked for. */
  ghost predicate LongEnough(tape: seq<Message>, main: seq<Message>, t: nat, opening: nat, n: nat) {
    Built(tape, main, t) && StopsAt(main, opening, n, t)
  }

  ghost predicate HasLength(tape: seq<Message>, n: nat) {
    exists main, t: nat, opening: nat :: LongEnough(tape, main, t, opening, n)
  }

  ghost predicate IsBuilt(tape: seq<Message>) {
    exists main, t: nat :: Built(tape, main, t)
  }

  /** Every reference on the tape, a hidden trade's included, is below the stride. */
  predicate WellNamed(tape: seq<Message>) {
    forall m :: m in tape ==> NamesBelowStride(m) && (m.body.Trade? ==> m.body.ref < REF_STRIDE)
  }

  lemma BuiltMerges(tape: seq<Message>)
    requires IsBuilt(tape) && (|tape| < REF_STRIDE || WellNamed(tape))
    ensures Mergeable(tape)
  {
    hide Legal, After, Closing, NamesBelowStride;
    var main, t: nat :| Built(tape, main, t);
    if |tape| < REF_STRIDE {
      BuiltIsMergeable(main, t);
    } else {
      BuiltIsChronological(main, t);
    }
  }

  lemma BuiltIsChronological(main: seq<Message>, t: nat)
    requires Legal(main) && After(main).lastTs <= t
    ensures Chronological(main + Closing(After(main).halted, t))
  {
    hide Legal;
    LegalChronological(main);
  }

  lemma FewAreWellNamed(main: seq<Message>, t: nat, bound: nat)
    requires Legal(main) && After(main).lastTs <= t && After(main).nextRef <= bound < REF_STRIDE
    requires TradesNamed(main, bound)
    ensures WellNamed(main + Closing(After(main).halted, t))
  {
    hide Legal, After, NamesBelowStride;
    BuiltFeedIsMergeable(main, t);
    forall m | m in main + Closing(After(main).halted, t)
      ensures NamesBelowStride(m) && (m.body.Trade? ==> m.body.ref < REF_STRIDE)
    {
      if m in main {
        var k :| 0 <= k < |main| && main[k] == m;
        assert Named(main[k].body, bound);
      }
    }
  }

  lemma StampEncodable(m: Message, i: nat, symbol: Data)
    requires Encodable(m) && NamesBelowStride(m) && (m.body.Trade? ==> m.body.ref < REF_STRIDE)
    requires i < 0xFFFF && |symbol| == 8
    ensures Encodable(Stamped(m, i + 1, symbol, i * REF_STRIDE))
  {
    assert Pow256(2) == 0x1_0000 && Pow256(8) == 0x1_0000_0000_0000_0000;
    hide Pow256;
  }

  lemma {:induction false} StreamEncodable(tape: seq<Message>, i: nat, symbol: Data)
    requires WellNamed(tape) && (forall m :: m in tape ==> Encodable(m)) && i < 0xFFFF && |symbol| == 8
    ensures forall m :: m in StampedStream(tape, i, symbol) ==> Encodable(m)
  {
    hide Encodable, NamesBelowStride, Stamped;
    if tape != [] {
      StreamEncodable(tape[..|tape| - 1], i, symbol);
      StampEncodable(tape[|tape| - 1], i, symbol);
    }
  }

  /** The directory record of a built tape survives stamping, and carries its stream's locate. */
  lemma LocateIsStamped(tape: seq<Message>, i: nat, symbol: Data)
    requires |tape| >= 2 && tape[1].body.StockDirectory?
    requires forall m :: m in StampedStream(tape, i, symbol) ==> Encodable(m)
    ensures i < 0xFFFF
  {
    StampedKept(tape, i, symbol, 1);
    assert Encodable(Stamped(tape[1], i + 1, symbol, i * REF_STRIDE));
    assert Pow256(2) == 0x1_0000;
  }

  /** What one round of the program leaves behind: a symbol, and the bytes of a generator's tape. */
  ghost predicate Listed(feed: Data, symbol: Data, tape: seq<Message>) {
    && |symbol| == 8 && (forall m :: m in tape ==> Encodable(m)) && feed == EncodeFeed(tape)
    && IsBuilt(tape) && |tape| >= 2 && tape[1].body.StockDirectory?
  }

  /** One round of the program's first loop: security i's own generator run. */
  method BuildOne(i: nat, locates: nat, messages: nat, tieBurst: bool, gap: nat, fuel: nat)
    returns (r: Run, symbol: Data, ghost tape: seq<Message>)
    requires gap >= 1 && i < locates
    ensures r.Done? ==> Listed(r.data, symbol, tape) && symbol == SymbolOf(i)
    ensures r.Done? ==> HasLength(tape, Share(messages, locates))
    ensures Short(gap, fuel) ==> !r.Failed? && (r.Done? ==> WellNamed(tape))
  {
    hide Legal, After, Closing, EncodeFeed, ParseFeed, Encodable, Uncrossed, Allowed, WellNamed, TradesNamed, StopsAt;
    ghost var main, t, levels, refused, opening;
    r, main, t, levels, refused, opening := Build(Share(messages, locates), tieBurst, gap, fuel);
    symbol, tape := SymbolOf(i), main + Closing(After(main).halted, t);
    if r.Done? {
      assert Built(tape, main, t) && LongEnough(tape, main, t, opening, Share(messages, locates));
      if Short(gap, fuel) {
        ShortNames(gap, fuel);
        FewAreWellNamed(main, t, 61 + 5 * fuel);
      }
    }
  }

  lemma ListedHere(feeds: seq<Data>, symbols: seq<Data>, tapes: seq<seq<Message>>)
    requires |feeds| == |symbols| == |tapes|
    requires forall j :: 0 <= j < |feeds| ==> Listed(feeds[j], symbols[j], tapes[j])
    ensures forall j :: 0 <= j < |feeds| ==> |symbols[j]| == 8
    ensures forall j :: 0 <= j < |feeds| ==> forall m :: m in tapes[j] ==> Encodable(m)
    ensures forall j :: 0 <= j < |feeds| ==> feeds[j] == EncodeFeed(tapes[j])
    ensures forall j :: 0 <= j < |feeds| ==> IsBuilt(tapes[j]) && |tapes[j]| >= 2 && tapes[j][1].body.StockDirectory?
  {
    hide IsBuilt, Encodable, EncodeFeed;
  }

  /** The merge fails exactly on its 65536th security, if the streams' references are below the stride. */
  lemma MergeEncodes(tapes: seq<seq<Message>>, symbols: seq<Data>)
    requires |symbols| == |tapes| && forall j :: 0 <= j < |tapes| ==> |symbols[j]| == 8
    requires forall j :: 0 <= j < |tapes| ==> forall m :: m in tapes[j] ==> Encodable(m)
    requires forall j :: 0 <= j < |tapes| ==> |tapes[j]| >= 2 && tapes[j][1].body.StockDirectory?
    ensures (forall j :: 0 <= j < |tapes| ==> forall m :: m in StampedStreams(tapes, symbols)[j] ==> Encodable(m)) ==>
      |tapes| <= 0xFFFF
    ensures |tapes| <= 0xFFFF && (forall j :: 0 <= j < |tapes| ==> WellNamed(tapes[j])) ==>
      forall j :: 0 <= j < |tapes| ==> forall m :: m in StampedStreams(tapes, symbols)[j] ==> Encodable(m)
  {
    hide Encodable, WellNamed, StampedStream;
    if |tapes| > 0xFFFF {
      var j := |tapes| - 1;
      if forall m :: m in StampedStreams(tapes, symbols)[j] ==> Encodable(m) {
        LocateIsStamped(tapes[j], j, symbols[j]);
      }
    } else {
      forall j | 0 <= j < |tapes| && WellNamed(tapes[j])
        ensures forall m :: m in StampedStreams(tapes, symbols)[j] ==> Encodable(m)
      {
        StreamEncodable(tapes[j], j, symbols[j]);
      }
    }
  }

  lemma BuiltIsFaithful(tapes: seq<seq<Message>>, symbols: seq<Data>, merged: seq<Row>)
    requires |symbols| == |tapes|
    requires forall i :: 0 <= i < |tapes| ==> IsBuilt(tapes[i]) && (|tapes[i]| < REF_STRIDE || WellNamed(tapes[i]))
    requires Sorted(merged) && multiset(merged) == multiset(AllRows(StampedStreams(tapes, symbols)))
    ensures Faithful(tapes, symbols, Messages(merged))
  {
    hide IsBuilt, Mergeable, Sorted, StampedStreams, Faithful, WellNamed;
    forall j | 0 <= j < |tapes|
      ensures Mergeable(tapes[j])
    {
      BuiltMerges(tapes[j]);
    }
    MergedIsFaithful(tapes, symbols, merged);
  }

  /**
   * The program: one generator run for each security, then the merge. A finished feed parses to the sorted rows of
   * all the stamped streams, through which every security follows its own generator as long as no stream is as
   * long as the stride. Short runs never fail before the 65536th security, and no run gets past it.
   */
  method BuildMarket(locates: nat, messages: nat, tieBurst: bool, gap: nat, fuel: nat)
    returns (r: Run, ghost tapes: seq<seq<Message>>, ghost names: seq<Data>, ghost merged: seq<Row>)
    requires gap >= 1
    ensures r.Done? ==> |tapes| == |names| == locates <= 0xFFFF && ParseFeed(r.data) == Some(Messages(merged))
    ensures r.Done? ==>
      forall i :: 0 <= i < locates ==> IsBuilt(tapes[i]) && HasLength(tapes[i], Share(messages, locates))
    ensures r.Done? ==> forall i :: 0 <= i < locates ==> Shows(names[i], i, Digits(i, 4))
    ensures r.Done? ==> forall i, j :: 0 <= i < j < locates ==> names[i] != names[j]
    ensures r.Done? ==> Sorted(merged) && multiset(merged) == multiset(AllRows(StampedStreams(tapes, names)))
    ensures r.Done? ==> InOrder(Messages(merged))
    ensures r.Done? && (Short(gap, fuel) || forall i :: 0 <= i < locates ==> |tapes[i]| < REF_STRIDE) ==>
      Faithful(tapes, names, Messages(merged))
    ensures Short(gap, fuel) && r.Failed? ==> locates > 0xFFFF
  {
    hide EncodeFeed, ParseFeed, Encodable, Sorted, StampedStreams, IsBuilt, Listed, Faithful, WellNamed, Short;
    hide InOrder, HasLength, SymbolOf, Shows, Digits;
    tapes, names, merged := [], [], [];
    var feeds: seq<Data>, symbols: seq<Data> := [], [];
    for i := 0 to locates
      invariant |feeds| == |symbols| == |tapes| == i
      invariant forall j :: 0 <= j < i ==> Listed(feeds[j], symbols[j], tapes[j]) && symbols[j] == SymbolOf(j)
      invariant forall j :: 0 <= j < i ==> HasLength(tapes[j], Share(messages, locates))
      invariant Short(gap, fuel) ==> forall j :: 0 <= j < i ==> WellNamed(tapes[j])
    {
      var symbol;
      ghost var tape;
      r, symbol, tape := BuildOne(i, locates, messages, tieBurst, gap, fuel);
      if !r.Done? { return; }
      feeds, symbols, tapes := feeds + [r.data], symbols + [symbol], tapes + [tape];
    }
    names := symbols;
    var o, out;
    ListedHere(feeds, symbols, tapes);
    MergeEncodes(tapes, symbols);
    o, out, merged := BuildMulti(feeds, symbols, tapes);
    if o.Raised? { return Failed, tapes, names, merged; }
    NamesDiffer(symbols);
    if Short(gap, fuel) || forall i :: 0 <= i < locates ==> |tapes[i]| < REF_STRIDE {
      BuiltIsFaithful(tapes, symbols, merged);
    }
    return Done(out), tapes, names, merged;
  }
}
