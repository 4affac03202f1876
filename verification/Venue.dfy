/**
 * The consumer a feed is written for: the reference book rebuilt from messages alone, the trading session
 * around it, and the rules a tape printed by a single venue obeys. Nothing here knows how a feed is made.
 */
module Venue {
  import opened Bytes
  import opened Itch

  datatype Resting = Resting(side: Side, price: int, shares: nat)

  datatype PriceKey = PriceKey(side: Side, price: int)

  /** A reference map, plus one first-in-first-out queue of references per populated price level. */
  datatype Book = Book(orders: map<nat, Resting>, queues: map<PriceKey, seq<nat>>, unknown: nat)

  const EMPTY: Book := Book(map[], map[], 0)

  function KeyOf(o: Resting): PriceKey {
    PriceKey(o.side, o.price)
  }

  function Queue(b: Book, k: PriceKey): seq<nat> {
    if k in b.queues then b.queues[k] else []
  }

  /** Drop the first occurrence of `ref`; a queue without it is unchanged. */
  function RemoveFirst(q: seq<nat>, ref: nat): seq<nat> {
    if q == [] then [] else if q[0] == ref then q[1..] else [q[0]] + RemoveFirst(q[1..], ref)
  }

  // ---- book mutation ------------------------------------------------------------

  function Insert(b: Book, ref: nat, side: Side, price: int, shares: nat): Book {
    var k := PriceKey(side, price);
    b.(orders := b.orders[ref := Resting(side, price, shares)], queues := b.queues[k := Queue(b, k) + [ref]])
  }

  function Erase(b: Book, ref: nat): Book {
    if ref !in b.orders then b.(unknown := b.unknown + 1)
    else
      var k := KeyOf(b.orders[ref]);
      var q := RemoveFirst(Queue(b, k), ref);
      b.(orders := b.orders - {ref}, queues := if q == [] then b.queues - {k} else b.queues[k := q])
  }

  /** Executions and partial cancels: the order leaves the book when nothing is left of it. */
  function Reduce(b: Book, ref: nat, shares: nat): Book {
    if ref !in b.orders then b.(unknown := b.unknown + 1)
    else if shares < b.orders[ref].shares then
      b.(orders := b.orders[ref := b.orders[ref].(shares := b.orders[ref].shares - shares)])
    else Erase(b, ref)
  }

  /** Delete then add: the new order inherits the side and goes to the back of its level. */
  function Swap(b: Book, ref: nat, newRef: nat, price: int, shares: nat): Book {
    if ref !in b.orders then b.(unknown := b.unknown + 1)
    else Insert(Erase(b, ref), newRef, b.orders[ref].side, price, shares)
  }

  function Apply(b: Book, body: Body): Book {
    match body
    case AddOrder(ref, side, shares, _, price) => Insert(b, ref, side, price, shares)
    case AddOrderMpid(ref, side, shares, _, price, _) => Insert(b, ref, side, price, shares)
    case OrderExecuted(ref, shares, _) => Reduce(b, ref, shares)
    case OrderExecutedPrice(ref, shares, _, _, _) => Reduce(b, ref, shares)
    case OrderCancel(ref, shares) => Reduce(b, ref, shares)
    case OrderDelete(ref) => Erase(b, ref)
    case OrderReplace(ref, newRef, shares, price) => Swap(b, ref, newRef, price, shares)
    case _ => b
  }

  // ---- the session around the book -----------------------------------------------

  /** What a listener has learned: its book, the numbers to expect next, and the halt it may be in. */
  datatype Session = Session(
    book: Book, nextRef: nat, nextMatch: nat, lastTs: nat, halted: bool, reopened: bool)

  const OPENING: Session := Session(EMPTY, 1, 1, 0, false, false)

  function NewRef(body: Body, otherwise: nat): nat {
    match body
    case AddOrder(ref, _, _, _, _) => ref + 1
    case AddOrderMpid(ref, _, _, _, _, _) => ref + 1
    case OrderReplace(_, newRef, _, _) => newRef + 1
    case _ => otherwise
  }

  predicate Prints(body: Body) {
    body.OrderExecuted? || body.OrderExecutedPrice? || body.Trade? || body.CrossTrade?
  }

  function Advance(s: Session, m: Message): Session {
    Session(
      Apply(s.book, m.body),
      NewRef(m.body, s.nextRef),
      if Prints(m.body) then s.nextMatch + 1 else s.nextMatch,
      m.ts,
      if m.body.TradingAction? then m.body.state == Ch('H') else s.halted,
      !m.body.TradingAction? && (s.reopened || (m.body.CrossTrade? && m.body.crossType == Ch('H'))))
  }

  /** The session after a whole tape. */
  function After(tape: seq<Message>): Session {
    if tape == [] then OPENING else Advance(After(tape[..|tape| - 1]), tape[|tape| - 1])
  }

  // ---- the rules -----------------------------------------------------------------

  /** Whether a price on `side` trades strictly before another. */
  predicate Ahead(side: Side, p: int, q: int) {
    if side.Bid? then p > q else p < q
  }

  /**
   * Price-time priority, said without queues: no order on this side has a better price, and no order at the
   * same price was entered earlier. References are issued in order, so an earlier order has a smaller one.
   */
  ghost predicate OldestAtBest(b: Book, ref: nat) {
    ref in b.orders &&
    forall r :: r in b.orders && b.orders[r].side == b.orders[ref].side ==>
      Ahead(b.orders[ref].side, b.orders[ref].price, b.orders[r].price)
      || (b.orders[r].price == b.orders[ref].price && ref <= r)
  }

  ghost predicate Uncrossed(b: Book) {
    forall r, r' :: r in b.orders && r' in b.orders && b.orders[r].side.Bid? && b.orders[r'].side.Ask? ==>
      b.orders[r].price < b.orders[r'].price
  }

  predicate Live(b: Book, ref: nat, shares: nat) {
    ref in b.orders && 1 <= shares <= b.orders[ref].shares
  }

  /** What one message may be, given everything printed before it. */
  ghost predicate Allowed(s: Session, m: Message) {
    && s.lastTs <= m.ts
    && (m.body.OrderExecuted? || m.body.OrderExecutedPrice? ==>
          !s.halted && OldestAtBest(s.book, m.body.ref) && Live(s.book, m.body.ref, m.body.shares))
    && (Prints(m.body) ==> m.body.match_ == s.nextMatch)
    && match m.body
       case AddOrder(ref, _, shares, _, _) => ref == s.nextRef && shares >= 1
       case AddOrderMpid(ref, _, shares, _, _, _) => ref == s.nextRef && shares >= 1
       case OrderCancel(ref, shares) => Live(s.book, ref, shares)
       case OrderDelete(ref) => ref in s.book.orders
       case OrderReplace(ref, newRef, shares, _) => ref in s.book.orders && newRef == s.nextRef && shares >= 1
       case Trade(_, _, _, _, _, _) => !s.halted
       case CrossTrade(_, _, _, _, crossType) =>
         if crossType == Ch('H') then s.halted && !s.reopened else !s.halted
       case TradingAction(_, state, _) => state == (if s.halted then Ch('T') else Ch('H'))
       case _ => true
  }

  /** A tape one venue could have printed: every message allowed where it stands, never crossed while trading. */
  ghost predicate Legal(tape: seq<Message>) {
    tape != [] ==>
      var init, m := tape[..|tape| - 1], tape[|tape| - 1];
      && Legal(init)
      && Allowed(After(init), m)
      && (!After(tape).halted ==> Uncrossed(After(tape).book))
  }

  // ---- what a book keeps ----------------------------------------------------------

  predicate Increasing(q: seq<nat>) {
    forall i, j :: 0 <= i < j < |q| ==> q[i] < q[j]
  }

  predicate Distinct(refs: seq<nat>) {
    forall i, j :: 0 <= i < j < |refs| ==> refs[i] != refs[j]
  }

  /** The map and the queues describe the same orders, and every queue is in order of arrival. */
  ghost predicate Consistent(b: Book) {
    && (forall r :: r in b.orders ==> b.orders[r].shares >= 1 && r in Queue(b, KeyOf(b.orders[r])))
    && (forall k, r :: r in Queue(b, k) ==> r in b.orders && KeyOf(b.orders[r]) == k)
    && (forall k :: Increasing(Queue(b, k)))
    && (forall k :: k in b.queues ==> b.queues[k] != [])
  }

  ghost predicate Below(b: Book, ref: nat) {
    forall r :: r in b.orders ==> r < ref
  }

  lemma {:induction false} RemoveFirstIncreasing(q: seq<nat>, ref: nat)
    requires Increasing(q)
    ensures Increasing(RemoveFirst(q, ref))
    ensures forall x :: x in RemoveFirst(q, ref) <==> x in q && x != ref
  {
    if q != [] {
      assert forall x :: x in q <==> x == q[0] || x in q[1..];
      if q[0] != ref {
        RemoveFirstIncreasing(q[1..], ref);
        var rest := RemoveFirst(q[1..], ref);
        forall j | 0 <= j < |rest|
          ensures q[0] < rest[j]
        {
          assert rest[j] in q[1..];
        }
      }
    }
  }

  lemma AppendIncreasing(q: seq<nat>, ref: nat)
    requires Increasing(q) && forall x :: x in q ==> x < ref
    ensures Increasing(q + [ref])
  {
    assert forall i :: 0 <= i < |q| ==> q[i] in q;
  }

  lemma QueuedIsLive(b: Book, k: PriceKey, r: nat)
    requires Consistent(b) && r in Queue(b, k)
    ensures r in b.orders && KeyOf(b.orders[r]) == k && b.orders[r].shares >= 1
  {
  }

  lemma OrderIsQueued(b: Book, ref: nat)
    requires Consistent(b) && ref in b.orders
    ensures ref in Queue(b, KeyOf(b.orders[ref]))
  {
  }

  lemma InsertQueues(b: Book, ref: nat, side: Side, price: int, shares: nat, k: PriceKey)
    ensures Queue(Insert(b, ref, side, price, shares), k)
         == if k == PriceKey(side, price) then Queue(b, k) + [ref] else Queue(b, k)
  {
  }

  lemma InsertConsistent(b: Book, ref: nat, side: Side, price: int, shares: nat)
    requires Consistent(b) && Below(b, ref) && shares >= 1
    ensures var b' := Insert(b, ref, side, price, shares); Consistent(b') && Below(b', ref + 1)
  {
    var b', at := Insert(b, ref, side, price, shares), PriceKey(side, price);
    forall k, r | r in Queue(b, k)
      ensures r in b.orders && r < ref
    {
      QueuedIsLive(b, k, r);
    }
    forall r | r in b'.orders
      ensures r in Queue(b', KeyOf(b'.orders[r]))
    {
      if r != ref {
        assert r in Queue(b, KeyOf(b.orders[r]));
      }
      InsertQueues(b, ref, side, price, shares, KeyOf(b'.orders[r]));
    }
    forall k, r | r in Queue(b', k)
      ensures r in b'.orders && KeyOf(b'.orders[r]) == k
    {
      InsertQueues(b, ref, side, price, shares, k);
      if r in Queue(b, k) {
        assert r < ref && b'.orders[r] == b.orders[r];
      } else {
        assert r == ref && k == at;
      }
    }
    forall k
      ensures Increasing(Queue(b', k))
    {
      InsertQueues(b, ref, side, price, shares, k);
      assert Increasing(Queue(b, k));
      forall r | r in Queue(b, k)
        ensures r < ref
      {
        QueuedIsLive(b, k, r);
      }
      AppendIncreasing(Queue(b, k), ref);
    }
  }

  lemma EraseQueues(b: Book, ref: nat, k: PriceKey)
    requires ref in b.orders
    ensures Queue(Erase(b, ref), k)
         == if k == KeyOf(b.orders[ref]) then RemoveFirst(Queue(b, k), ref) else Queue(b, k)
  {
  }

  lemma EraseConsistent(b: Book, ref: nat)
    requires Consistent(b) && ref in b.orders
    ensures Consistent(Erase(b, ref))
  {
    hide Queue, RemoveFirst, Increasing, Erase;
    var b' := Erase(b, ref);
    ErasedTable(b, ref);
    forall r | r in b'.orders
      ensures r in Queue(b', KeyOf(b'.orders[r]))
    {
      assert r in Queue(b, KeyOf(b.orders[r]));
      ErasedQueue(b, ref, KeyOf(b.orders[r]));
    }
    forall k, r | r in Queue(b', k)
      ensures r in b'.orders && KeyOf(b'.orders[r]) == k
    {
      ErasedQueue(b, ref, k);
      assert r in Queue(b, k);
    }
    forall k
      ensures Increasing(Queue(b', k))
    {
      ErasedQueue(b, ref, k);
    }
  }

  lemma ErasedTable(b: Book, ref: nat)
    requires Consistent(b) && ref in b.orders
    ensures var b' := Erase(b, ref);
      && b'.orders == b.orders - {ref}
      && forall k :: k in b'.queues ==> b'.queues[k] != []
  {
    hide RemoveFirst, Increasing;
  }

  /** What is left of a level: its own orders, in order, without the one that went. */
  lemma ErasedQueue(b: Book, ref: nat, k: PriceKey)
    requires Consistent(b) && ref in b.orders
    ensures var q := Queue(Erase(b, ref), k);
      Increasing(q) && forall r :: r in q <==> r in Queue(b, k) && r != ref
  {
    hide Queue, RemoveFirst, Increasing, Erase;
    EraseQueues(b, ref, k);
    assert Increasing(Queue(b, k));
    RemoveFirstIncreasing(Queue(b, k), ref);
  }

  lemma UnknownConsistent(b: Book)
    requires Consistent(b)
    ensures Consistent(b.(unknown := b.unknown + 1))
  {
    var b' := b.(unknown := b.unknown + 1);
    assert forall k :: Queue(b', k) == Queue(b, k);
    forall k
      ensures Increasing(Queue(b', k))
    {
      assert Increasing(Queue(b, k));
    }
  }

  lemma ReduceConsistent(b: Book, ref: nat, shares: nat)
    requires Consistent(b) && shares >= 1
    ensures var b' := Reduce(b, ref, shares); Consistent(b') && b'.orders.Keys <= b.orders.Keys
    ensures Reduce(b, ref, shares).unknown == b.unknown + if ref in b.orders then 0 else 1
  {
    if ref !in b.orders {
      UnknownConsistent(b);
    } else if shares < b.orders[ref].shares {
      var b' := Reduce(b, ref, shares);
      forall r | r in b'.orders
        ensures b'.orders[r].shares >= 1 && r in Queue(b', KeyOf(b'.orders[r]))
      {
        assert r in Queue(b, KeyOf(b.orders[r]));
      }
      assert forall k :: Queue(b', k) == Queue(b, k);
      forall k
        ensures Increasing(Queue(b', k))
      {
        assert Increasing(Queue(b, k));
      }
    } else {
      EraseConsistent(b, ref);
    }
  }

  ghost predicate Sound(s: Session) {
    Consistent(s.book) && Below(s.book, s.nextRef) && s.book.unknown == 0
  }

  lemma AdvanceSound(s: Session, m: Message)
    requires Sound(s) && Allowed(s, m)
    ensures Sound(Advance(s, m))
  {
    match m.body
    case AddOrder(ref, side, shares, _, price) => InsertConsistent(s.book, ref, side, price, shares);
    case AddOrderMpid(ref, side, shares, _, price, _) => InsertConsistent(s.book, ref, side, price, shares);
    case OrderExecuted(ref, shares, _) => ReduceConsistent(s.book, ref, shares);
    case OrderExecutedPrice(ref, shares, _, _, _) => ReduceConsistent(s.book, ref, shares);
    case OrderCancel(ref, shares) => ReduceConsistent(s.book, ref, shares);
    case OrderDelete(ref) => EraseConsistent(s.book, ref);
    case OrderReplace(ref, newRef, shares, price) =>
      EraseConsistent(s.book, ref);
      InsertConsistent(Erase(s.book, ref), newRef, s.book.orders[ref].side, price, shares);
    case _ =>
  }

  predicate Chronological(stream: seq<Message>) {
    forall i, j :: 0 <= i < j < |stream| ==> stream[i].ts <= stream[j].ts
  }

  /** A legal tape is in time order, and the session knows its last time. */
  lemma {:induction false} LegalChronological(tape: seq<Message>)
    requires Legal(tape)
    ensures Chronological(tape) && forall k :: 0 <= k < |tape| ==> tape[k].ts <= After(tape).lastTs
  {
    if tape != [] {
      LegalChronological(tape[..|tape| - 1]);
    }
  }

  /** A legal tape leaves a consistent book, holding only references already issued, and nothing unknown. */
  lemma {:induction false} LegalBook(tape: seq<Message>)
    requires Legal(tape)
    ensures Sound(After(tape))
  {
    if tape != [] {
      LegalBook(tape[..|tape| - 1]);
      AdvanceSound(After(tape[..|tape| - 1]), tape[|tape| - 1]);
    }
  }

  /** The head of the queue at the best price is the order that price-time priority names. */
  lemma FrontIsOldestAtBest(b: Book, k: PriceKey)
    requires Consistent(b) && Queue(b, k) != []
    requires forall r :: r in b.orders && b.orders[r].side == k.side ==> !Ahead(k.side, b.orders[r].price, k.price)
    ensures OldestAtBest(b, Queue(b, k)[0])
  {
    var ref := Queue(b, k)[0];
    assert ref in b.queues[k];
    forall r | r in b.orders && b.orders[r].side == k.side && b.orders[r].price == k.price
      ensures ref <= r
    {
      assert r in Queue(b, k);
    }
  }

  // ---- what a legal tape promises at every position --------------------------------

  lemma {:induction false} LegalPrefix(tape: seq<Message>, n: nat)
    requires Legal(tape) && n <= |tape|
    ensures Legal(tape[..n])
    decreases |tape|
  {
    if n < |tape| {
      LegalPrefix(tape[..|tape| - 1], n);
      assert tape[..|tape| - 1][..n] == tape[..n];
    } else {
      assert tape[..n] == tape;
    }
  }

  lemma LegalAt(tape: seq<Message>, i: nat)
    requires Legal(tape) && i < |tape|
    ensures Legal(tape[..i]) && Allowed(After(tape[..i]), tape[i])
    ensures After(tape[..i + 1]) == Advance(After(tape[..i]), tape[i])
    ensures !After(tape[..i + 1]).halted ==> Uncrossed(After(tape[..i + 1]).book)
  {
    LegalPrefix(tape, i + 1);
    assert tape[..i + 1][..i] == tape[..i];
  }

  /**
   * Every displayed execution, anywhere on a legal tape, takes shares from an order that is live at that
   * moment, at the best price of its side, and entered before every other order at that price.
   */
  lemma PriceTimePriority(tape: seq<Message>, i: nat, r: nat)
    requires Legal(tape) && i < |tape|
    requires tape[i].body.OrderExecuted? || tape[i].body.OrderExecutedPrice?
    ensures var b, ref := After(tape[..i]).book, tape[i].body.ref;
      && ref in b.orders && 1 <= tape[i].body.shares <= b.orders[ref].shares
      && Queue(b, KeyOf(b.orders[ref])) != [] && Queue(b, KeyOf(b.orders[ref]))[0] == ref
      && (r in b.orders && b.orders[r].side == b.orders[ref].side ==>
            !Ahead(b.orders[r].side, b.orders[r].price, b.orders[ref].price)
            && (b.orders[r].price == b.orders[ref].price ==> ref <= r))
  {
    LegalAt(tape, i);
    LegalBook(tape[..i]);
    var b, ref := After(tape[..i]).book, tape[i].body.ref;
    HeadOfQueue(b, ref);
    if r in b.orders && b.orders[r].side == b.orders[ref].side {
      assert Ahead(b.orders[r].side, b.orders[ref].price, b.orders[r].price)
             || (b.orders[r].price == b.orders[ref].price && ref <= r);
    }
  }

  lemma HeadOfQueue(b: Book, ref: nat)
    requires Consistent(b) && OldestAtBest(b, ref)
    ensures var q := Queue(b, KeyOf(b.orders[ref])); q != [] && q[0] == ref
  {
    var q := Queue(b, KeyOf(b.orders[ref]));
    assert ref in q && Increasing(q);
    var i :| 0 <= i < |q| && q[i] == ref;
    assert q[0] in q && KeyOf(b.orders[q[0]]) == KeyOf(b.orders[ref]);
    assert ref <= q[0];
  }

  /** No reference is issued twice, on one tape. */
  lemma {:induction false} ReferencesNeverReused(tape: seq<Message>, i: nat, j: nat)
    requires Legal(tape) && i < j < |tape|
    requires NewRef(tape[i].body, 0) > 0 && NewRef(tape[j].body, 0) > 0
    ensures NewRef(tape[i].body, 0) < NewRef(tape[j].body, 0)
  {
    LegalAt(tape, i);
    LegalAt(tape, j);
    NextRefGrows(tape, i + 1, j);
  }

  lemma {:induction false} NextRefGrows(tape: seq<Message>, i: nat, j: nat)
    requires Legal(tape) && i <= j <= |tape|
    ensures After(tape[..i]).nextRef <= After(tape[..j]).nextRef
    decreases j - i
  {
    if i < j {
      LegalAt(tape, i);
      NextRefGrows(tape, i + 1, j);
    }
  }

  /** From a halt to position j without a further trading action, the session is still halted. */
  lemma {:induction false} StaysHalted(tape: seq<Message>, i: nat, j: nat)
    requires Legal(tape) && i < j <= |tape|
    requires tape[i].body.TradingAction? && tape[i].body.state == Ch('H')
    requires forall k :: i < k < j ==> !tape[k].body.TradingAction?
    ensures After(tape[..j]).halted
    ensures After(tape[..j]).reopened <==>
      exists k :: i < k < j && tape[k].body.CrossTrade? && tape[k].body.crossType == Ch('H')
  {
    LegalAt(tape, j - 1);
    if i < j - 1 {
      StaysHalted(tape, i, j - 1);
    }
  }

  /**
   * Between an 'H' and the trading action that ends it nothing trades: no execution, no hidden trade, and no
   * cross except one reopening cross, which cannot be followed by a second.
   */
  lemma HaltSafety(tape: seq<Message>, i: nat, j: nat)
    requires Legal(tape) && i < j < |tape|
    requires tape[i].body.TradingAction? && tape[i].body.state == Ch('H')
    requires forall k :: i < k < j ==> !tape[k].body.TradingAction?
    ensures Prints(tape[j].body) ==>
      && tape[j].body.CrossTrade? && tape[j].body.crossType == Ch('H')
      && forall k :: i < k < j ==> !Prints(tape[k].body)
    ensures tape[j].body.TradingAction? ==>
      tape[j].body.state == Ch('T') && Uncrossed(After(tape[..j]).book)
  {
    LegalAt(tape, j);
    StaysHalted(tape, i, j);
    forall k | i < k < j && Prints(tape[k].body)
      ensures tape[k].body.CrossTrade? && tape[k].body.crossType == Ch('H')
    {
      LegalAt(tape, k);
      StaysHalted(tape, i, k);
    }
  }
}
