/** The synthetic feed: resting orders in a map, and an index that picks or removes one in constant time. */
module SwapPool {
  import opened Bytes
  import opened Itch
  import opened Venue
  import opened Tape
  import Rng

  // ---- what a consumer of the finished feed may rely on -----------------------------------

  /** The security each reference was issued on. */
  function Home(tape: seq<Message>): map<nat, nat> {
    if tape == [] then map[] else Issue(Home(tape[..|tape| - 1]), tape[|tape| - 1])
  }

  function Issue(home: map<nat, nat>, m: Message): map<nat, nat> {
    match m.body
    case AddOrder(ref, _, _, _, _) => home[ref := m.locate]
    case OrderReplace(_, newRef, _, _) => home[newRef := m.locate]
    case _ => home
  }

  predicate OnItsOwn(home: map<nat, nat>, ref: nat, locate: nat) {
    ref in home && home[ref] == locate
  }

  /** A mutation names a resting order, on the security that issued it, and takes no more than it has. */
  predicate Known(b: Book, home: map<nat, nat>, m: Message) {
    match m.body
    case AddOrder(ref, _, shares, _, _) => ref !in home && shares >= 1
    case OrderExecuted(ref, n, _) => Live(b, ref, n) && OnItsOwn(home, ref, m.locate)
    case OrderCancel(ref, n) => Live(b, ref, n) && OnItsOwn(home, ref, m.locate)
    case OrderDelete(ref) => ref in b.orders && OnItsOwn(home, ref, m.locate)
    case OrderReplace(ref, newRef, shares, _) =>
      ref in b.orders && OnItsOwn(home, ref, m.locate) && newRef !in home && shares >= 1
    case _ => true
  }

  predicate WellFormed(tape: seq<Message>) {
    tape != [] ==>
      var init, m := tape[..|tape| - 1], tape[|tape| - 1];
      WellFormed(init) && Known(Rebuild(init), Home(init), m)
  }

  lemma {:induction false} WellFormedAt(tape: seq<Message>, k: nat)
    requires WellFormed(tape) && k < |tape|
    ensures Known(Rebuild(tape[..k]), Home(tape[..k]), tape[k])
  {
    if k < |tape| - 1 {
      WellFormedAt(tape[..|tape| - 1], k);
      assert tape[..|tape| - 1][..k] == tape[..k];
    }
  }

  /**
   * What a consumer of a well-formed feed may rely on, at every message: an execution or cancel takes between one
   * share and all of an order that rests, a delete or replace names one, all on the security that issued it, and
   * references are issued once.
   */
  lemma Reliable(tape: seq<Message>, k: nat)
    requires WellFormed(tape) && k < |tape|
    ensures var b, home, m := Rebuild(tape[..k]), Home(tape[..k]), tape[k];
      && (m.body.OrderExecuted? || m.body.OrderCancel? ==>
            m.body.ref in b.orders && 1 <= m.body.shares <= b.orders[m.body.ref].shares)
      && (m.body.OrderDelete? || m.body.OrderReplace? ==> m.body.ref in b.orders)
      && (m.body.OrderExecuted? || m.body.OrderCancel? || m.body.OrderDelete? || m.body.OrderReplace? ==>
            m.body.ref in home && home[m.body.ref] == m.locate)
      && (m.body.AddOrder? ==> m.body.ref !in home && m.body.shares >= 1)
      && (m.body.OrderReplace? ==> m.body.newRef !in home && m.body.shares >= 1)
  {
    WellFormedAt(tape, k);
  }

  // ---- rewriting the clock ------------------------------------------------------------------

  /** The same messages on the same securities, at other times. */
  predicate Retimed(a: seq<Message>, b: seq<Message>) {
    |a| == |b| && forall i :: 0 <= i < |a| ==> a[i].locate == b[i].locate && a[i].body == b[i].body
  }

  /** No consumer can tell a retimed feed from the original by the book it builds. */
  lemma {:induction false} RetimedMeansTheSame(a: seq<Message>, b: seq<Message>)
    requires Retimed(a, b)
    ensures Rebuild(a) == Rebuild(b) && Home(a) == Home(b) && (WellFormed(a) <==> WellFormed(b))
  {
    if a != [] {
      RetimedMeansTheSame(a[..|a| - 1], b[..|b| - 1]);
    }
  }

  // ---- the swap-remove index ------------------------------------------------------------------

  datatype Entry = Entry(locate: nat, shares: nat, pos: nat)

  /** The list and the map index each other: position i holds the reference that records i, and no other. */
  predicate Indexed(live: map<nat, Entry>, refs: seq<nat>) {
    && (forall i :: 0 <= i < |refs| ==> refs[i] in live && live[refs[i]].pos == i)
    && (forall r :: r in live ==> live[r].pos < |refs| && refs[live[r].pos] == r)
  }

  function Sizes(live: map<nat, Entry>): (sizes: map<nat, nat>)
    ensures sizes.Keys == live.Keys && forall r :: r in live ==> sizes[r] == live[r].shares
  {
    map r | r in live :: live[r].shares
  }

  function Homes(live: map<nat, Entry>): (homes: map<nat, nat>)
    ensures homes.Keys == live.Keys && forall r :: r in live ==> homes[r] == live[r].locate
  {
    map r | r in live :: live[r].locate
  }

  /** Whether every order has shares left in whole round lots, so that each has a size to draw from. */
  predicate RoundLots(sizes: map<nat, nat>) {
    forall r :: r in sizes ==> sizes[r] >= 100 && sizes[r] % 100 == 0
  }

  /** The list is as long as the map is large, and lists nothing twice. */
  lemma {:induction false} IndexedSize(live: map<nat, Entry>, refs: seq<nat>)
    requires Indexed(live, refs)
    ensures |refs| == |live| && forall i, j :: 0 <= i < j < |refs| ==> refs[i] != refs[j]
    decreases |refs|
  {
    if refs == [] {
      assert live == map[];
    } else {
      var last := refs[|refs| - 1];
      var rest := live - {last};
      assert forall i :: 0 <= i < |refs| - 1 ==> refs[i] in rest;
      IndexedSize(rest, refs[..|refs| - 1]);
      assert live.Keys == rest.Keys + {last};
    }
  }

  // ---- the table agrees with the tape ---------------------------------------------------------

  predicate Issued(home: map<nat, nat>, homes: map<nat, nat>, nextRef: nat) {
    && (forall r :: r in home ==> r < nextRef)
    && (forall r :: r in homes ==> OnItsOwn(home, r, homes[r]))
  }

  /**
   * The generator's table says what the consumer has rebuilt from the messages: the same live references,
   * shares and securities, and nothing on the tape was ever unknown.
   */
  ghost predicate Tabled(tape: seq<Message>, sizes: map<nat, nat>, homes: map<nat, nat>, nextRef: nat) {
    && WellFormed(tape)
    && Rests(Rebuild(tape), sizes, nextRef) && Rebuild(tape).unknown == 0
    && Issued(Home(tape), homes, nextRef) && homes.Keys == sizes.Keys && RoundLots(sizes)
  }

  /** What one message does to the sizes the generator keeps. */
  function SizesAfter(sizes: map<nat, nat>, body: Body): map<nat, nat> {
    match body
    case AddOrder(ref, _, n, _, _) => sizes[ref := n]
    case OrderExecuted(ref, n, _) => if ref in sizes then Less(sizes, ref, n) else sizes
    case OrderCancel(ref, n) => if ref in sizes then Less(sizes, ref, n) else sizes
    case OrderDelete(ref) => sizes - {ref}
    case OrderReplace(ref, newRef, n, _) => (sizes - {ref})[newRef := n]
    case _ => sizes
  }

  function HomesAfter(sizes: map<nat, nat>, homes: map<nat, nat>, m: Message): map<nat, nat> {
    match m.body
    case AddOrder(ref, _, _, _, _) => homes[ref := m.locate]
    case OrderExecuted(ref, n, _) => if ref in sizes && n >= sizes[ref] then homes - {ref} else homes
    case OrderCancel(ref, n) => if ref in sizes && n >= sizes[ref] then homes - {ref} else homes
    case OrderDelete(ref) => homes - {ref}
    case OrderReplace(ref, newRef, _, _) => (homes - {ref})[newRef := m.locate]
    case _ => homes
  }

  /** Every live order is on a security with a base price, which a replace draws its quote from. */
  predicate Quoted(homes: map<nat, nat>, quoted: set<nat>) {
    forall r :: r in homes ==> homes[r] in quoted
  }

  /** Whether the table allows a message: what the generator knows when it emits one. */
  predicate Emittable(sizes: map<nat, nat>, homes: map<nat, nat>, nextRef: nat, m: Message) {
    match m.body
    case SystemEvent(_) => true
    case StockDirectory(_) => true
    case AddOrder(ref, _, n, _, _) => ref == nextRef && n >= 100 && n % 100 == 0
    case OrderExecuted(ref, n, _) => Takes(sizes, homes, m.locate, ref, n)
    case OrderCancel(ref, n) => Takes(sizes, homes, m.locate, ref, n)
    case OrderDelete(ref) => ref in sizes && OnItsOwn(homes, ref, m.locate)
    case OrderReplace(ref, newRef, n, _) =>
      ref in sizes && OnItsOwn(homes, ref, m.locate) && newRef == nextRef && n >= 100 && n % 100 == 0
    case _ => false
  }

  predicate Takes(sizes: map<nat, nat>, homes: map<nat, nat>, locate: nat, ref: nat, n: nat) {
    ref in sizes && OnItsOwn(homes, ref, locate) && n >= 100 && n % 100 == 0 && n <= sizes[ref]
  }

  lemma BookFollows(b: Book, sizes: map<nat, nat>, homes: map<nat, nat>, nextRef: nat, m: Message)
    requires Rests(b, sizes, nextRef) && Emittable(sizes, homes, nextRef, m)
    ensures Rests(Apply(b, m.body), SizesAfter(sizes, m.body), NewRef(m.body, nextRef))
    ensures Apply(b, m.body).unknown == b.unknown
  {
    hide Rests, Erase, Reduce, Swap;
    match m.body
    case AddOrder(ref, side, n, _, price) => InsertRests(b, sizes, nextRef, side, price, n);
    case OrderExecuted(ref, n, _) => ReduceRests(b, sizes, nextRef, ref, n);
    case OrderCancel(ref, n) => ReduceRests(b, sizes, nextRef, ref, n);
    case OrderDelete(ref) => EraseRests(b, sizes, nextRef, ref);
    case OrderReplace(ref, _, n, price) => SwapRests(b, sizes, nextRef, ref, price, n);
    case _ =>
  }

  lemma KnownToConsumer(
      b: Book, home: map<nat, nat>, sizes: map<nat, nat>, homes: map<nat, nat>, nextRef: nat, m: Message)
    requires Rests(b, sizes, nextRef) && Issued(home, homes, nextRef) && Emittable(sizes, homes, nextRef, m)
    ensures Known(b, home, m)
  {
  }

  lemma LotsFollow(sizes: map<nat, nat>, homes: map<nat, nat>, nextRef: nat, m: Message)
    requires RoundLots(sizes) && Emittable(sizes, homes, nextRef, m)
    ensures RoundLots(SizesAfter(sizes, m.body))
  {
  }

  lemma HomesFollow(home: map<nat, nat>, sizes: map<nat, nat>, homes: map<nat, nat>, nextRef: nat, m: Message)
    requires Issued(home, homes, nextRef) && homes.Keys == sizes.Keys && Emittable(sizes, homes, nextRef, m)
    ensures Issued(Issue(home, m), HomesAfter(sizes, homes, m), NewRef(m.body, nextRef))
    ensures HomesAfter(sizes, homes, m).Keys == SizesAfter(sizes, m.body).Keys
  {
  }

  /** One step of the refinement: whatever the table allows, the tape stays in agreement with the table. */
  lemma EmitTabled(tape: seq<Message>, sizes: map<nat, nat>, homes: map<nat, nat>, nextRef: nat, m: Message)
    requires Tabled(tape, sizes, homes, nextRef) && Emittable(sizes, homes, nextRef, m)
    ensures Tabled(tape + [m], SizesAfter(sizes, m.body), HomesAfter(sizes, homes, m), NewRef(m.body, nextRef))
  {
    RebuildAppend(tape, m);
    BookFollows(Rebuild(tape), sizes, homes, nextRef, m);
    KnownToConsumer(Rebuild(tape), Home(tape), sizes, homes, nextRef, m);
    LotsFollow(sizes, homes, nextRef, m);
    HomesFollow(Home(tape), sizes, homes, nextRef, m);
    hide Rests, Known, Issued, Issue, Emittable, SizesAfter, HomesAfter, RoundLots, Apply;
  }

  lemma AddTabled(tape: seq<Message>, sizes: map<nat, nat>, homes: map<nat, nat>, nextRef: nat, m: Message)
    requires Tabled(tape, sizes, homes, nextRef) && m.body.AddOrder? && Emittable(sizes, homes, nextRef, m)
    ensures Tabled(tape + [m], sizes[nextRef := m.body.shares], homes[nextRef := m.locate], nextRef + 1)
  {
    EmitTabled(tape, sizes, homes, nextRef, m);
    hide Tabled;
  }

  lemma SwapTabled(tape: seq<Message>, sizes: map<nat, nat>, homes: map<nat, nat>, nextRef: nat, m: Message)
    requires Tabled(tape, sizes, homes, nextRef) && m.body.OrderReplace? && Emittable(sizes, homes, nextRef, m)
    ensures Tabled(tape + [m], (sizes - {m.body.ref})[nextRef := m.body.shares],
                   (homes - {m.body.ref})[nextRef := m.locate], nextRef + 1)
  {
    EmitTabled(tape, sizes, homes, nextRef, m);
    hide Tabled;
  }

  // ---- the generator --------------------------------------------------------------------------

  datatype Symbol = Symbol(locate: nat, name: Data)

  const OPEN: nat := 34200000000000
  const TWO48: nat := 0x1_0000_0000_0000

  /** A base price after one drift: two hundred either way in steps of a hundred, and never below the floor. */
  predicate Drifted(was: int, now: int) {
    now >= 10000 && (((now - was) % 100 == 0 && -200 <= now - was <= 200) || (now == 10000 && was < 10200))
  }

  /** A price within the band around its base, on the tick, or the least price there is. */
  predicate InBand(base: int, price: int) {
    price >= 100 && (price == 100 || (-20000 <= price - base <= 20000 && (price - base) % 100 == 0))
  }

  /** One to nineteen round lots. */
  predicate Lots(shares: nat) {
    100 <= shares <= 1900 && shares % 100 == 0
  }

  /** An add of the security's own name, under the given reference. */
  predicate AddsOrder(m: Message, symbol: Symbol, ref: nat, base: int) {
    && m.body.AddOrder? && m.locate == symbol.locate && m.body.ref == ref && m.body.stock == symbol.name
    && Lots(m.body.shares) && InBand(base, m.body.price)
  }

  /** The start of every feed: the session opens, each security is listed once, and trading starts. */
  predicate Listing(ms: seq<Message>, symbols: seq<Symbol>) {
    && |ms| == 2 + |symbols| && ms[0].locate == 0 && ms[0].body == SystemEvent(Ch('O'))
    && (forall i :: 0 <= i < |symbols| ==>
          ms[1 + i].locate == symbols[i].locate && ms[1 + i].body == StockDirectory(symbols[i].name))
    && ms[1 + |symbols|].locate == 0 && ms[1 + |symbols|].body == SystemEvent(Ch('Q'))
  }

  /** Then four adds for each security in turn, numbered in a row. */
  predicate WarmsUp(ms: seq<Message>, symbols: seq<Symbol>, first: nat) {
    |ms| == 4 * |symbols| && forall k :: 0 <= k < |ms| ==> WarmingAdd(ms[k], symbols[k / 4], first + k)
  }

  predicate WarmingAdd(m: Message, symbol: Symbol, ref: nat) {
    && m.body.AddOrder? && m.body.ref == ref && Lots(m.body.shares) && m.body.price >= 100
    && m.locate == symbol.locate && m.body.stock == symbol.name
  }

  /** The clock advances by one with every message, cut to 48 bits. */
  predicate Numbered(ms: seq<Message>) {
    forall i :: 0 <= i < |ms| ==> ms[i].ts == (OPEN + 1 + i) % TWO48
  }

  class Feed {
    var msgs: seq<Message>
    var ts: nat
    var nextRef: nat
    var nextMatch: nat
    var live: map<nat, Entry>
    var liveRefs: seq<nat>
    var base: map<nat, int>
    const symbols: seq<Symbol>

    ghost predicate Valid()
      reads this
    {
      && Indexed(live, liveRefs)
      && Tabled(msgs, Sizes(live), Homes(live), nextRef)
      && Quoted(Homes(live), base.Keys)
      && (forall s :: s in symbols ==> s.locate in base)
      && ts == OPEN + |msgs| && Numbered(msgs)
    }

    constructor (symbols: seq<Symbol>, base: map<nat, int>)
      requires forall s :: s in symbols ==> s.locate in base
      ensures Valid() && msgs == [] && this.symbols == symbols && nextRef == 1 && live == map[]
    {
      this.symbols, this.base := symbols, base;
      msgs, ts, nextRef, nextMatch, live, liveRefs := [], OPEN, 1, 1, map[], [];
    }

    // ---- the index

    method AddLive(ref: nat, locate: nat, shares: nat)
      requires Indexed(live, liveRefs) && ref !in live
      modifies `live, `liveRefs
      ensures Indexed(live, liveRefs)
      ensures live == old(live)[ref := Entry(locate, shares, |old(liveRefs)|)] && liveRefs == old(liveRefs) + [ref]
      ensures Sizes(live) == Sizes(old(live))[ref := shares] && Homes(live) == Homes(old(live))[ref := locate]
    {
      live := live[ref := Entry(locate, shares, |liveRefs|)];
      liveRefs := liveRefs + [ref];
    }

    /** The departing reference's slot takes the last one, whose recorded position follows it. */
    method DropLive(ref: nat)
      requires Indexed(live, liveRefs) && ref in live
      modifies `live, `liveRefs
      ensures Indexed(live, liveRefs) && |liveRefs| == |old(liveRefs)| - 1
      ensures ref == old(liveRefs)[|liveRefs|] ==> liveRefs == old(liveRefs)[..|liveRefs|]
      ensures live.Keys == old(live).Keys - {ref}
      ensures Sizes(live) == Sizes(old(live)) - {ref} && Homes(live) == Homes(old(live)) - {ref}
    {
      var pos := live[ref].pos;
      var last := liveRefs[|liveRefs| - 1];
      liveRefs := liveRefs[pos := last];
      live := live[last := live[last].(pos := pos)];
      liveRefs := liveRefs[..|liveRefs| - 1];
      live := live - {ref};
    }

    method SetShares(ref: nat, shares: nat)
      requires Indexed(live, liveRefs) && ref in live
      modifies `live
      ensures Indexed(live, liveRefs) && live == old(live)[ref := old(live)[ref].(shares := shares)]
    {
      live := live[ref := Entry(live[ref].locate, shares, live[ref].pos)];
    }

    // ---- the messages

    method Quote(locate: nat) returns (price: int)
      requires locate in base
      modifies `base
      ensures locate in base && base == old(base)[locate := base[locate]]
      ensures Drifted(old(base)[locate], base[locate])
      ensures InBand(base[locate], price)
    {
      var drift := Rng.RandInt(-2, 2);
      base := base[locate := base[locate] + drift * 100];
      if base[locate] < 10000 {
        base := base[locate := 10000];
      }
      var offset := Rng.RandInt(-200, 200);
      price := if base[locate] + offset * 100 > 100 then base[locate] + offset * 100 else 100;
    }

    method Head(locate: nat, body: Body) returns (m: Message)
      modifies `ts
      ensures m.locate == locate && m.body == body && ts == old(ts) + 1 && m.ts == ts % TWO48
    {
      ts := ts + 1;
      m := Message(locate, ts % TWO48, body);
    }

    method Announce(locate: nat, body: Body)
      requires Valid() && (body.SystemEvent? || body.StockDirectory?)
      modifies `msgs, `ts
      ensures Valid() && |msgs| == |old(msgs)| + 1 && msgs[..|old(msgs)|] == old(msgs)
      ensures msgs[|old(msgs)|].locate == locate && msgs[|old(msgs)|].body == body
    {
      hide Indexed, Tabled, Sizes, Homes;
      var m := Head(locate, body);
      EmitTabled(msgs, Sizes(live), Homes(live), nextRef, m);
      msgs := msgs + [m];
    }

    method Add(symbol: Symbol)
      requires Valid() && symbol in symbols
      modifies this
      ensures Valid() && |msgs| == |old(msgs)| + 1 && msgs[..|old(msgs)|] == old(msgs)
      ensures symbol.locate in base && base == old(base)[symbol.locate := base[symbol.locate]]
      ensures Drifted(old(base)[symbol.locate], base[symbol.locate]) && nextRef == old(nextRef) + 1
      ensures AddsOrder(msgs[|old(msgs)|], symbol, old(nextRef), base[symbol.locate])
      ensures liveRefs == old(liveRefs) + [old(nextRef)]
      ensures live == old(live)[old(nextRef) :=
        Entry(symbol.locate, msgs[|old(msgs)|].body.shares, |old(liveRefs)|)]
    {
      hide Indexed, Tabled, Sizes, Homes;
      ghost var sizes, homes := Sizes(live), Homes(live);
      var ref := nextRef;
      FreshRef(msgs, sizes, homes, ref);
      nextRef := nextRef + 1;
      var lots := Rng.RandInt(1, 19);
      var shares: nat := lots * 100;
      var price := Quote(symbol.locate);
      var side := Rng.Choice([Bid, Ask]);
      var m := Head(symbol.locate, AddOrder(ref, side, shares, symbol.name, price));
      AddTabled(msgs, sizes, homes, ref, m);
      hide Emittable, SizesAfter, HomesAfter;
      AddLive(ref, symbol.locate, shares);
      msgs := msgs + [m];
    }

    /** What follows an execution or a cancel: the order shrinks, or goes when nothing is left of it. */
    method TakeOff(ref: nat, n: nat)
      requires Indexed(live, liveRefs) && ref in live && n >= 1
      modifies `live, `liveRefs
      ensures Indexed(live, liveRefs)
      ensures Sizes(live) == Less(Sizes(old(live)), ref, n)
      ensures Homes(live) == if n >= old(live)[ref].shares then Homes(old(live)) - {ref} else Homes(old(live))
    {
      var shares := live[ref].shares;
      if n >= shares {
        DropLive(ref);
      } else {
        SetShares(ref, shares - n);
      }
    }

    method Execute(ref: nat)
      requires Valid() && ref in live
      modifies this
      ensures Valid() && |msgs| == |old(msgs)| + 1 && msgs[..|old(msgs)|] == old(msgs)
      ensures msgs[|old(msgs)|].locate == old(live)[ref].locate && msgs[|old(msgs)|].body.OrderExecuted?
      ensures var n := msgs[|old(msgs)|].body.shares;
        && msgs[|old(msgs)|].body == OrderExecuted(ref, n, old(nextMatch))
        && 100 <= n <= old(live)[ref].shares && n % 100 == 0 && Sizes(live) == Less(Sizes(old(live)), ref, n)
      ensures nextRef == old(nextRef) && nextMatch == old(nextMatch) + 1
    {
      hide Indexed, Tabled, Sizes, Homes;
      ghost var sizes, homes := Sizes(live), Homes(live);
      Lot(msgs, sizes, homes, nextRef, ref);
      var entry := live[ref];
      var lots := Rng.RandInt(1, entry.shares / 100);
      var n: nat := lots * 100;
      var m := Head(entry.locate, OrderExecuted(ref, n, nextMatch));
      nextMatch := nextMatch + 1;
      TakeOff(ref, n);
      EmitTabled(msgs, sizes, homes, nextRef, m);
      msgs := msgs + [m];
    }

    method Cancel(ref: nat)
      requires Valid() && ref in live
      modifies this
      ensures Valid() && |msgs| == |old(msgs)| + 1 && msgs[..|old(msgs)|] == old(msgs)
      ensures msgs[|old(msgs)|].locate == old(live)[ref].locate && msgs[|old(msgs)|].body.OrderCancel?
      ensures var n := msgs[|old(msgs)|].body.shares;
        && msgs[|old(msgs)|].body == OrderCancel(ref, n)
        && 100 <= n <= old(live)[ref].shares && n % 100 == 0 && Sizes(live) == Less(Sizes(old(live)), ref, n)
      ensures nextRef == old(nextRef) && nextMatch == old(nextMatch)
    {
      hide Indexed, Tabled, Sizes, Homes;
      ghost var sizes, homes := Sizes(live), Homes(live);
      Lot(msgs, sizes, homes, nextRef, ref);
      var entry := live[ref];
      var lots := Rng.RandInt(1, entry.shares / 100);
      var n: nat := lots * 100;
      var m := Head(entry.locate, OrderCancel(ref, n));
      TakeOff(ref, n);
      EmitTabled(msgs, sizes, homes, nextRef, m);
      msgs := msgs + [m];
    }

    method Delete(ref: nat)
      requires Valid() && ref in live
      modifies `msgs, `ts, `live, `liveRefs
      ensures Valid() && |msgs| == |old(msgs)| + 1 && msgs[..|old(msgs)|] == old(msgs)
      ensures msgs[|old(msgs)|].body == OrderDelete(ref) && msgs[|old(msgs)|].locate == old(live)[ref].locate
      ensures live.Keys == old(live).Keys - {ref} && |liveRefs| == |old(liveRefs)| - 1
      ensures ref == old(liveRefs)[|liveRefs|] ==> liveRefs == old(liveRefs)[..|liveRefs|]
    {
      hide Indexed, Tabled, Sizes, Homes;
      ghost var sizes, homes := Sizes(live), Homes(live);
      var m := Head(live[ref].locate, OrderDelete(ref));
      DropLive(ref);
      EmitTabled(msgs, sizes, homes, nextRef, m);
      msgs := msgs + [m];
    }

    method Replace(ref: nat)
      requires Valid() && ref in live
      modifies this
      ensures Valid() && |msgs| == |old(msgs)| + 1 && msgs[..|old(msgs)|] == old(msgs)
      ensures nextRef == old(nextRef) + 1 && msgs[|old(msgs)|].body.OrderReplace?
      ensures var m, at := msgs[|old(msgs)|], old(live)[ref].locate;
        && m.locate == at && m.body.ref == ref && m.body.newRef == old(nextRef) && Lots(m.body.shares)
        && at in base && Drifted(old(base)[at], base[at]) && InBand(base[at], m.body.price)
        && Sizes(live) == (Sizes(old(live)) - {ref})[old(nextRef) := m.body.shares]
        && Homes(live) == (Homes(old(live)) - {ref})[old(nextRef) := at]
    {
      hide Indexed, Tabled, Sizes, Homes;
      ghost var sizes, homes := Sizes(live), Homes(live);
      var locate, newRef := live[ref].locate, nextRef;
      FreshRef(msgs, sizes, homes, newRef);
      QuotedAgain(homes, base.Keys, ref, newRef, locate);
      hide Quoted, HomesAfter, SizesAfter;
      nextRef := nextRef + 1;
      var lots := Rng.RandInt(1, 19);
      var shares: nat := lots * 100;
      var price := Quote(locate);
      var m := Head(locate, OrderReplace(ref, newRef, shares, price));
      assert Emittable(sizes, homes, newRef, m);
      hide Emittable;
      DropLive(ref);
      AddLive(newRef, locate, shares);
      SwapTabled(msgs, sizes, homes, newRef, m);
      msgs := msgs + [m];
    }

    /** One turn of the main loop: exactly one message, whichever branch the draws choose. */
    method Turn()
      requires Valid() && symbols != []
      modifies this
      ensures Valid() && |msgs| == |old(msgs)| + 1 && msgs[..|old(msgs)|] == old(msgs)
      ensures var body := msgs[|old(msgs)|].body;
        if body.AddOrder? then body.ref == old(nextRef)
        else (body.OrderDelete? || body.OrderCancel? || body.OrderExecuted? || body.OrderReplace?)
             && body.ref in old(liveRefs)
    {
      hide Indexed, Tabled, Sizes, Homes;
      var grow := Rng.Chance();
      if liveRefs == [] || grow {
        var symbol := Rng.Choice(symbols);
        Add(symbol);
        return;
      }
      var i := Rng.RandInt(0, |liveRefs| - 1);
      var ref := liveRefs[i];
      InIndex(live, liveRefs, i);
      var roll := Rng.RandInt(0, 99);
      if roll < 35 {
        Delete(ref);
      } else if roll < 65 {
        Cancel(ref);
      } else if roll < 90 {
        Execute(ref);
      } else {
        Replace(ref);
      }
    }

    /**
     * The whole feed. It ends, it reaches the asked-for length, every mutation names an order the consumer
     * has, and the book the consumer is left with is empty.
     */
    method Build(total: nat) returns (ghost drained: nat)
      requires Valid() && msgs == [] && live == map[]
      requires symbols != [] || total <= 2
      modifies this
      ensures WellFormed(msgs) && Rebuild(msgs) == EMPTY && live == map[] && Numbered(msgs)
      ensures |msgs| >= 2 + 5 * |symbols| && Listing(msgs[..2 + |symbols|], symbols)
      ensures WarmsUp(msgs[2 + |symbols|..2 + 5 * |symbols|], symbols, old(nextRef))
      ensures |msgs| == (if total > 2 + 5 * |symbols| then total else 2 + 5 * |symbols|) + drained + 3
      ensures forall i :: |msgs| - 3 - drained <= i < |msgs| - 3 ==> msgs[i].body.OrderDelete?
      ensures msgs[|msgs| - 3].body == SystemEvent(Ch('M')) && msgs[|msgs| - 2].body == SystemEvent(Ch('E'))
      ensures msgs[|msgs| - 1].body == SystemEvent(Ch('C'))
    {
      hide Indexed, Tabled, Sizes, Homes, Feed.Valid, WellFormed, Rebuild;
      Open();
      ghost var opening := msgs;
      while |msgs| < total
        invariant Valid() && |msgs| >= |opening| && msgs[..|opening|] == opening
        invariant |msgs| <= total || |msgs| == |opening|
        decreases total - |msgs|
      {
        ghost var before := msgs;
        Turn();
        assert msgs[..|opening|] == msgs[..|before|][..|opening|];
      }
      drained := Drain();
      ghost var traded := msgs;
      Close();
      assert forall i :: 0 <= i < |traded| ==> msgs[i] == msgs[..|traded|][i];
      StillOpens(opening, msgs, symbols);
    }

    lemma StillOpens(opening: seq<Message>, ms: seq<Message>, symbols: seq<Symbol>)
      requires |opening| == 2 + 5 * |symbols| <= |ms|
      requires forall i :: 0 <= i < |opening| ==> ms[i] == opening[i]
      ensures ms[..2 + |symbols|] == opening[..2 + |symbols|]
      ensures ms[2 + |symbols|..2 + 5 * |symbols|] == opening[2 + |symbols|..]
    {
    }

    /** The session's opening messages, and four orders a security to begin with. */
    method Open()
      requires Valid() && msgs == []
      modifies this
      ensures Valid() && |msgs| == 2 + 5 * |symbols| && Listing(msgs[..2 + |symbols|], symbols)
      ensures WarmsUp(msgs[2 + |symbols|..], symbols, old(nextRef))
    {
      hide Indexed, Tabled, Sizes, Homes, Feed.Valid, Listing, WarmsUp;
      List();
      ghost var listed := msgs;
      WarmUp();
      assert msgs[..|listed|] == listed;
    }

    method List()
      requires Valid() && msgs == []
      modifies `msgs, `ts
      ensures Valid() && |msgs| == 2 + |symbols| && Listing(msgs, symbols)
    {
      hide Indexed, Tabled, Sizes, Homes, Feed.Valid;
      Announce(0, SystemEvent(Ch('O')));
      var i := 0;
      while i < |symbols|
        invariant Valid() && i <= |symbols| && |msgs| == 1 + i
        invariant msgs[0].locate == 0 && msgs[0].body == SystemEvent(Ch('O'))
        invariant forall j :: 0 <= j < i ==>
          msgs[1 + j].locate == symbols[j].locate && msgs[1 + j].body == StockDirectory(symbols[j].name)
      {
        ghost var before := msgs;
        Announce(symbols[i].locate, StockDirectory(symbols[i].name));
        assert forall j :: 0 <= j < |before| ==> msgs[j] == msgs[..|before|][j];
        i := i + 1;
      }
      ghost var before := msgs;
      Announce(0, SystemEvent(Ch('Q')));
      assert forall j :: 0 <= j < |before| ==> msgs[j] == msgs[..|before|][j];
    }

    method WarmUp()
      requires Valid()
      modifies this
      ensures Valid() && |msgs| == |old(msgs)| + 4 * |symbols| && msgs[..|old(msgs)|] == old(msgs)
      ensures WarmsUp(msgs[|old(msgs)|..], symbols, old(nextRef))
    {
      hide Indexed, Tabled, Sizes, Homes, Feed.Valid, WarmingAdd;
      ghost var start := |msgs|;
      var i := 0;
      while i < |symbols|
        invariant Valid() && i <= |symbols| && |msgs| == start + 4 * i && nextRef == old(nextRef) + 4 * i
        invariant msgs[..start] == old(msgs)
        invariant forall k :: 0 <= k < 4 * i ==> WarmingAdd(msgs[start + k], symbols[k / 4], old(nextRef) + k)
      {
        var n := 0;
        while n < 4
          invariant Valid() && n <= 4 && |msgs| == start + 4 * i + n && nextRef == old(nextRef) + 4 * i + n
          invariant msgs[..start] == old(msgs)
          invariant forall k :: 0 <= k < 4 * i + n ==>
            WarmingAdd(msgs[start + k], symbols[k / 4], old(nextRef) + k)
        {
          ghost var before := msgs;
          WarmingOrder(symbols[i]);
          assert forall j :: 0 <= j < |before| ==> msgs[j] == msgs[..|before|][j];
          assert (4 * i + n) / 4 == i;
          n := n + 1;
        }
        i := i + 1;
      }
    }

    /** One add of the warm-up. */
    method WarmingOrder(symbol: Symbol)
      requires Valid() && symbol in symbols
      modifies this
      ensures Valid() && |msgs| == |old(msgs)| + 1 && msgs[..|old(msgs)|] == old(msgs)
      ensures nextRef == old(nextRef) + 1 && WarmingAdd(msgs[|old(msgs)|], symbol, old(nextRef))
    {
      hide Indexed, Tabled, Sizes, Homes, Feed.Valid;
      Add(symbol);
    }

    method Close()
      requires Valid() && live == map[]
      modifies `msgs, `ts
      ensures WellFormed(msgs) && Rebuild(msgs) == EMPTY && Numbered(msgs)
      ensures |msgs| == |old(msgs)| + 3 && msgs[..|old(msgs)|] == old(msgs)
      ensures msgs[|msgs| - 3].body == SystemEvent(Ch('M')) && msgs[|msgs| - 2].body == SystemEvent(Ch('E'))
      ensures msgs[|msgs| - 1].body == SystemEvent(Ch('C'))
    {
      hide Indexed, Tabled, Sizes, Homes;
      Announce(0, SystemEvent(Ch('M')));
      ghost var one := msgs;
      Announce(0, SystemEvent(Ch('E')));
      ghost var two := msgs;
      assert one == two[..|one|];
      Announce(0, SystemEvent(Ch('C')));
      assert two == msgs[..|two|] && msgs[|one| - 1] == two[|one| - 1] == one[|one| - 1];
      assert msgs[..|old(msgs)|] == two[..|old(msgs)|] == one[..|old(msgs)|];
      EmptyTable(msgs, Sizes(live), Homes(live), nextRef);
    }

    /** Delete the last listed order until none is left. */
    method Drain() returns (ghost drained: nat)
      requires Valid()
      modifies `msgs, `ts, `live, `liveRefs
      ensures Valid() && live == map[] && drained == |old(liveRefs)|
      ensures |msgs| == |old(msgs)| + drained && msgs[..|old(msgs)|] == old(msgs)
      ensures forall i :: |old(msgs)| <= i < |msgs| ==>
        msgs[i].body == OrderDelete(old(liveRefs)[|msgs| - 1 - i])
    {
      hide Indexed, Tabled, Sizes, Homes;
      drained := 0;
      while liveRefs != []
        invariant Valid()
        invariant drained + |liveRefs| == |old(liveRefs)| && |msgs| == |old(msgs)| + drained
        invariant msgs[..|old(msgs)|] == old(msgs)
        invariant liveRefs == old(liveRefs)[..|liveRefs|]
        invariant forall i :: |old(msgs)| <= i < |msgs| ==>
          msgs[i].body == OrderDelete(old(liveRefs)[|old(liveRefs)| - 1 - (i - |old(msgs)|)])
        decreases |liveRefs|
      {
        InIndex(live, liveRefs, |liveRefs| - 1);
        ghost var before := msgs;
        Delete(liveRefs[|liveRefs| - 1]);
        drained := drained + 1;
        assert forall i :: |old(msgs)| <= i < |before| ==> msgs[i] == msgs[..|before|][i];
        assert msgs[..|old(msgs)|] == msgs[..|before|][..|old(msgs)|];
      }
      NoneIndexed(live, liveRefs);
    }

    /** Rewrite every timestamp from a clock that advances at least one nanosecond a message. */
    method Stamp(spread: bool) returns (ghost ticks: seq<nat>)
      modifies `msgs
      ensures Retimed(old(msgs), msgs)
      ensures !spread ==> msgs == old(msgs)
      ensures spread ==> |ticks| == |msgs| && forall i :: 0 <= i < |msgs| ==> msgs[i].ts == ticks[i] % TWO48
      ensures forall i :: 0 <= i < |ticks| ==> OPEN < ticks[i]
      ensures forall i, j :: 0 <= i < j < |ticks| ==> ticks[i] < ticks[j]
    {
      ticks := [];
      if msgs == [] || !spread {
        return;
      }
      var t := OPEN;
      var i := 0;
      while i < |msgs|
        invariant i <= |msgs| && |ticks| == i && t >= OPEN
        invariant Retimed(old(msgs), msgs)
        invariant forall k :: 0 <= k < i ==> msgs[k].ts == ticks[k] % TWO48 && OPEN < ticks[k] <= t
        invariant forall j, k :: 0 <= j < k < i ==> ticks[j] < ticks[k]
      {
        var gap := AtLeastOne();
        t := t + gap;
        msgs := msgs[i := msgs[i].(ts := t % TWO48)];
        ticks := ticks + [t];
        i := i + 1;
      }
    }

    /** The program: build, then restamp. The stamped feed is still well-formed, and still ends with no order left. */
    method Generate(total: nat, spread: bool) returns (ghost drained: nat, ghost ticks: seq<nat>)
      requires Valid() && msgs == [] && live == map[]
      requires symbols != [] || total <= 2
      modifies this
      ensures WellFormed(msgs) && Rebuild(msgs) == EMPTY
      ensures |msgs| == (if total > 2 + 5 * |symbols| then total else 2 + 5 * |symbols|) + drained + 3
      ensures spread ==> |ticks| == |msgs| && forall i :: 0 <= i < |msgs| ==> msgs[i].ts == ticks[i] % TWO48
      ensures forall i, j :: 0 <= i < j < |ticks| ==> ticks[i] < ticks[j]
    {
      hide WellFormed, Rebuild, Valid;
      drained := Build(total);
      ghost var built := msgs;
      ticks := Stamp(spread);
      RetimedMeansTheSame(built, msgs);
    }
  }

  /** The rounded exponential gap, raised to one: any positive number of nanoseconds. */
  method AtLeastOne() returns (gap: nat)
    ensures gap >= 1
  {
    gap :| gap >= 1;
  }

  // ---- what the hidden predicates give -------------------------------------------------------

  lemma Lot(tape: seq<Message>, sizes: map<nat, nat>, homes: map<nat, nat>, nextRef: nat, ref: nat)
    requires Tabled(tape, sizes, homes, nextRef) && ref in sizes
    ensures sizes[ref] >= 100 && sizes[ref] % 100 == 0
  {
  }

  lemma FreshRef(tape: seq<Message>, sizes: map<nat, nat>, homes: map<nat, nat>, nextRef: nat)
    requires Tabled(tape, sizes, homes, nextRef)
    ensures nextRef !in sizes
  {
  }

  lemma QuotedAgain(homes: map<nat, nat>, quoted: set<nat>, ref: nat, newRef: nat, locate: nat)
    requires Quoted(homes, quoted) && ref in homes && homes[ref] == locate
    ensures Quoted((homes - {ref})[newRef := locate], quoted) && locate in quoted
  {
  }

  lemma InIndex(live: map<nat, Entry>, refs: seq<nat>, i: nat)
    requires Indexed(live, refs) && i < |refs|
    ensures refs[i] in live
  {
  }

  lemma NoneIndexed(live: map<nat, Entry>, refs: seq<nat>)
    requires Indexed(live, refs) && refs == []
    ensures live == map[]
  {
  }

  lemma EmptyTable(tape: seq<Message>, sizes: map<nat, nat>, homes: map<nat, nat>, nextRef: nat)
    requires Tabled(tape, sizes, homes, nextRef) && sizes == map[]
    ensures WellFormed(tape) && Rebuild(tape) == EMPTY
  {
    NothingRests(Rebuild(tape), nextRef);
  }
}
