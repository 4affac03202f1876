/** The book-legal feed generator: per-price queues, a moving centre, halts and reopening crosses. */
module QueueFeed {
  import opened Wrappers
  import opened Bytes
  import opened Itch
  import opened Venue
  import opened Sample
  import Rng

  const LEVELS: int := 6

  /** `steps` ticks away from the centre, on the side's own side of it. */
  function StepFrom(center: int, side: Side, steps: int): int {
    if side.Bid? then center - steps * TICK else center + steps * TICK
  }

  predicate OnTick(price: int) {
    (price - MID) % TICK == 0
  }

  /** Whether an order rests on its own side of the centre, strictly. */
  predicate Clear(o: Resting, center: int) {
    if o.side.Bid? then o.price < center else center < o.price
  }

  ghost predicate OnGrid(b: Book) {
    forall r :: r in b.orders ==> OnTick(b.orders[r].price)
  }

  /** bids < centre < asks. */
  ghost predicate Around(b: Book, center: int) {
    forall r :: r in b.orders ==> Clear(b.orders[r], center)
  }

  /** The generator's own counters agree with what a listener expects next, and the book suits the centre. */
  ghost predicate Settled(s: Session, t: nat, nextRef: nat, match_: nat, center: int, halted: bool) {
    && s.nextRef == nextRef && s.nextMatch == match_ && s.lastTs <= t && s.halted == halted
    && OnGrid(s.book) && OnTick(center)
    && (!halted ==> Around(s.book, center))
  }

  /** What emitting `m` needs, and what it leaves settled. */
  ghost predicate Prepared(s: Session, m: Message) {
    Allowed(s, m) && (!Advance(s, m).halted ==> Uncrossed(Advance(s, m).book))
  }

  lemma SoundBook(s: Session)
    requires Sound(s)
    ensures Consistent(s.book) && Below(s.book, s.nextRef)
  {
  }

  lemma LegalGrows(tape: seq<Message>, m: Message)
    requires Legal(tape) && Prepared(After(tape), m)
    ensures Legal(tape + [m]) && After(tape + [m]) == Advance(After(tape), m)
  {
    hide Allowed, Advance, Uncrossed;
    assert (tape + [m])[..|tape|] == tape;
  }

  function AddBody(ref: nat, side: Side, shares: nat, price: int, mpid: bool): Body {
    if mpid then AddOrderMpid(ref, side, shares, SYMBOL, price, NSDQ)
    else AddOrder(ref, side, shares, SYMBOL, price)
  }

  lemma EnterSettles(s: Session, t: nat, nextRef: nat, match_: nat, center: int, halted: bool,
                     side: Side, shares: nat, price: int, mpid: bool)
    requires Settled(s, t, nextRef, match_, center, halted) && shares >= 1 && OnTick(price)
    requires !halted ==> Clear(Resting(side, price, shares), center)
    ensures var m := Message(LOC, t, AddBody(nextRef, side, shares, price, mpid)); var s' := Advance(s, m);
      && Prepared(s, m) && Settled(s', t, nextRef + 1, match_, center, halted) && s'.reopened == s.reopened
      && s'.book == Insert(s.book, nextRef, side, price, shares)
    ensures s.nextRef == nextRef
  {
    var b' := Insert(s.book, nextRef, side, price, shares);
    if !halted { AroundIsUncrossed(b', center); }
  }

  lemma ActionEncodable(t: nat, halted: bool)
    ensures Encodable(Message(LOC, t, TradingAction(SYMBOL, if halted then Ch('T') else Ch('H'), BLANK4))) == Fits(t, 6)
  {
  }

  lemma AddEncodable(t: nat, nextRef: nat, side: Side, shares: nat, price: int, mpid: bool)
    ensures Encodable(Message(LOC, t, AddBody(nextRef, side, shares, price, mpid)))
         == (Fits(t, 6) && Fits(nextRef, 8) && Fits(shares, 4) && Fits(price, 4))
  {
  }

  /** Whether `body` takes `qty` shares from `ref`, as an execution or a partial cancel. */
  predicate Takes(body: Body, ref: nat, qty: nat, match_: nat) {
    && (body.OrderExecuted? || body.OrderExecutedPrice? || body.OrderCancel?)
    && body.ref == ref && body.shares == qty
    && (!body.OrderCancel? ==> body.match_ == match_)
  }

  lemma StrikeSettles(s: Session, t: nat, nextRef: nat, match_: nat, center: int, halted: bool,
                      ref: nat, qty: nat, body: Body)
    requires Settled(s, t, nextRef, match_, center, halted) && Live(s.book, ref, qty)
    requires Takes(body, ref, qty, match_)
    requires !body.OrderCancel? ==> !halted && OldestAtBest(s.book, ref)
    ensures var m := Message(LOC, t, body); var s' := Advance(s, m);
      && Prepared(s, m) && s'.reopened == s.reopened
      && Settled(s', t, nextRef, if body.OrderCancel? then match_ else match_ + 1, center, halted)
      && s'.book == Reduce(s.book, ref, qty)
  {
    var b' := Reduce(s.book, ref, qty);
    if !halted { AroundIsUncrossed(b', center); }
  }

  lemma PullSettles(s: Session, t: nat, nextRef: nat, match_: nat, center: int, halted: bool, ref: nat)
    requires Settled(s, t, nextRef, match_, center, halted) && ref in s.book.orders
    ensures var m := Message(LOC, t, OrderDelete(ref)); var s' := Advance(s, m);
      && Prepared(s, m) && s'.reopened == s.reopened && s'.book == Erase(s.book, ref)
      && Settled(s', t, nextRef, match_, center, halted)
  {
    var b' := Erase(s.book, ref);
    if !halted { AroundIsUncrossed(b', center); }
  }

  lemma SwapSettles(s: Session, t: nat, nextRef: nat, match_: nat, center: int, halted: bool,
                    ref: nat, shares: nat, price: int)
    requires Settled(s, t, nextRef, match_, center, halted) && ref in s.book.orders && shares >= 1 && OnTick(price)
    requires !halted ==> Clear(Resting(s.book.orders[ref].side, price, shares), center)
    ensures var m := Message(LOC, t, OrderReplace(ref, nextRef, shares, price)); var s' := Advance(s, m);
      && Prepared(s, m) && s'.reopened == s.reopened
      && Settled(s', t, nextRef + 1, match_, center, halted)
      && s'.book == Insert(Erase(s.book, ref), nextRef, s.book.orders[ref].side, price, shares)
    ensures s.nextRef == nextRef && (Sound(s) ==> Consistent(Erase(s.book, ref)) && Below(Erase(s.book, ref), nextRef))
  {
    if Sound(s) { EraseConsistent(s.book, ref); }
    var b' := Swap(s.book, ref, nextRef, price, shares);
    if !halted { AroundIsUncrossed(b', center); }
  }

  /** A print away from the displayed book: a hidden trade, or a cross outside a halt. */
  predicate PrintsOffBook(body: Body, match_: nat) {
    (body.Trade? || (body.CrossTrade? && body.crossType != Ch('H'))) && body.match_ == match_
  }

  lemma PrintSettles(s: Session, t: nat, nextRef: nat, match_: nat, center: int, body: Body)
    requires Settled(s, t, nextRef, match_, center, false) && PrintsOffBook(body, match_)
    ensures var m := Message(LOC, t, body); var s' := Advance(s, m);
      && Prepared(s, m) && s'.reopened == s.reopened && s'.book == s.book
      && Settled(s', t, nextRef, match_ + 1, center, false)
  {
    AroundIsUncrossed(s.book, center);
  }

  lemma ReopenSettles(s: Session, t: nat, nextRef: nat, match_: nat, center: int, body: Body)
    requires Settled(s, t, nextRef, match_, center, true) && !s.reopened
    requires body.CrossTrade? && body.crossType == Ch('H') && body.match_ == match_
    ensures var m := Message(LOC, t, body); var s' := Advance(s, m);
      && Prepared(s, m) && s'.book == s.book && Settled(s', t, nextRef, match_ + 1, center, true)
  {
  }

  lemma ActionSettles(s: Session, t: nat, nextRef: nat, match_: nat, center: int, halted: bool)
    requires Settled(s, t, nextRef, match_, center, halted) && (halted ==> Around(s.book, center))
    ensures var m := Message(LOC, t, TradingAction(SYMBOL, if halted then Ch('T') else Ch('H'), BLANK4));
      var s' := Advance(s, m);
      && Prepared(s, m) && s'.book == s.book && !s'.reopened
      && Settled(s', t, nextRef, match_, center, !halted)
  {
    if halted { AroundIsUncrossed(s.book, center); }
  }

  lemma AroundIsUncrossed(b: Book, center: int)
    requires Around(b, center)
    ensures Uncrossed(b)
  {
  }

  ghost predicate NoneAhead(b: Book, side: Side, price: int) {
    forall r :: r in b.orders && b.orders[r].side == side ==> !Ahead(side, b.orders[r].price, price)
  }

  /**
   * When the centre steps one tick, only the touch can be in the way: an order that the new centre would no
   * longer clear rests exactly on it, and nothing on its side is ahead of it.
   */
  lemma OneStepReachesOnlyTheTouch(b: Book, center: int, newCenter: int, k: PriceKey)
    requires Consistent(b) && OnGrid(b) && OnTick(center) && Around(b, center)
    requires newCenter == center + TICK || newCenter == center - TICK
    requires Queue(b, k) != [] && !Clear(Resting(k.side, k.price, 1), newCenter)
    ensures k.price == newCenter && NoneAhead(b, k.side, k.price)
  {
    QueuedIsLive(b, k, Queue(b, k)[0]);
    forall r | r in b.orders && b.orders[r].side == k.side
      ensures !Ahead(k.side, b.orders[r].price, k.price)
    {
      assert OnTick(b.orders[r].price) && Clear(b.orders[r], center);
    }
  }

  /** `now` is what remains of `was` once the levels in `done` that the centre must clear are gone. */
  ghost predicate Swept(was: map<nat, Resting>, now: map<nat, Resting>, center: int, done: seq<PriceKey>) {
    && (forall r :: r in now ==> r in was && now[r] == was[r])
    && (forall r :: r in was ==> (r in now <==> Clear(was[r], center) || KeyOf(was[r]) !in done))
  }

  lemma SweepOne(was: map<nat, Resting>, now: map<nat, Resting>, next: map<nat, Resting>, center: int,
                 keys: seq<PriceKey>, i: nat)
    requires i < |keys| && Swept(was, now, center, keys[..i]) && next == Except(now, keys[i])
    requires !Clear(Resting(keys[i].side, keys[i].price, 1), center)
    ensures Swept(was, next, center, keys[..i + 1])
  {
    assert keys[..i + 1] == keys[..i] + [keys[i]];
  }

  lemma SweepStart(was: map<nat, Resting>, center: int, keys: seq<PriceKey>)
    ensures Swept(was, was, center, keys[..0])
  {
  }

  lemma SweepNone(was: map<nat, Resting>, b: Book, center: int, keys: seq<PriceKey>, i: nat)
    requires i < |keys| && Swept(was, b.orders, center, keys[..i]) && Consistent(b)
    requires Queue(b, keys[i]) == [] || Clear(Resting(keys[i].side, keys[i].price, 1), center)
    ensures Swept(was, b.orders, center, keys[..i + 1])
  {
    assert keys[..i + 1] == keys[..i] + [keys[i]];
    forall r | r in b.orders && KeyOf(b.orders[r]) == keys[i]
      ensures Clear(b.orders[r], center)
    {
      assert r in Queue(b, keys[i]);
    }
  }

  /** The orders that do not rest at one level. */
  ghost function Except(orders: map<nat, Resting>, k: PriceKey): map<nat, Resting> {
    map r | r in orders && KeyOf(orders[r]) != k :: orders[r]
  }

  lemma ExceptOne(orders: map<nat, Resting>, ref: nat, k: PriceKey)
    requires ref in orders && KeyOf(orders[ref]) == k
    ensures Except(orders - {ref}, k) == Except(orders, k) && |orders - {ref}| == |orders| - 1
  {
    assert (orders - {ref}).Keys == orders.Keys - {ref};
  }

  lemma ExceptNone(b: Book, k: PriceKey)
    requires Consistent(b) && Queue(b, k) == []
    ensures Except(b.orders, k) == b.orders
  {
    forall r | r in b.orders
      ensures KeyOf(b.orders[r]) != k
    {
      assert r in Queue(b, KeyOf(b.orders[r]));
    }
  }

  /** The orders strictly on their own side of the centre. */
  ghost function Cleared(orders: map<nat, Resting>, center: int): map<nat, Resting> {
    map r | r in orders && Clear(orders[r], center) :: orders[r]
  }

  /** Since `was`, the tape has grown by full-size executions only, all at one timestamp. */
  ghost predicate Executed(was: seq<Message>, now: seq<Message>, t: nat) {
    was <= now && forall i :: |was| <= i < |now| ==> now[i].body.OrderExecuted? && now[i].ts == t
  }

  function Deletes(t: nat, refs: seq<nat>): seq<Message> {
    seq(|refs|, i requires 0 <= i < |refs| => Message(LOC, t, OrderDelete(refs[i])))
  }

  /** The orders left when the first `n` references of a list are gone. */
  ghost function Without(orders: map<nat, Resting>, refs: seq<nat>, n: nat): map<nat, Resting>
    requires n <= |refs|
  {
    map r | r in orders && r !in refs[..n] :: orders[r]
  }

  /** Exactly the orders that crossed the centre, from the levels of a list of keys. */
  ghost predicate Crossing(b: Book, center: int, done: seq<PriceKey>, crossing: seq<nat>) {
    && Distinct(crossing)
    && forall r :: r in crossing <==> r in b.orders && !Clear(b.orders[r], center) && KeyOf(b.orders[r]) in done
  }

  lemma CrossingStart(b: Book, center: int, keys: seq<PriceKey>)
    ensures Crossing(b, center, keys[..0], [])
  {
  }

  lemma CrossingNext(b: Book, center: int, keys: seq<PriceKey>, i: nat, crossing: seq<nat>)
    requires Consistent(b) && i < |keys| && Crossing(b, center, keys[..i], crossing)
    requires forall j :: 0 <= j < i ==> keys[j] != keys[i]
    ensures var q := if Clear(Resting(keys[i].side, keys[i].price, 1), center) then [] else Queue(b, keys[i]);
      Crossing(b, center, keys[..i + 1], crossing + q)
  {
    var k := keys[i];
    var q := if Clear(Resting(k.side, k.price, 1), center) then [] else Queue(b, k);
    assert keys[..i + 1] == keys[..i] + [k];
    assert Increasing(Queue(b, k));
    forall r
      ensures r in crossing + q <==> r in b.orders && !Clear(b.orders[r], center) && KeyOf(b.orders[r]) in keys[..i + 1]
    {
      if r in q { QueuedIsLive(b, k, r); }
      if r in b.orders { assert r in Queue(b, KeyOf(b.orders[r])); }
    }
    forall x | x in q
      ensures x !in crossing
    {
      QueuedIsLive(b, k, x);
    }
    forall m, n | 0 <= m < n < |crossing + q|
      ensures (crossing + q)[m] != (crossing + q)[n]
    {
      if m < |crossing| <= n { assert q[n - |crossing|] in q; }
    }
  }

  lemma CrossingAll(b: Book, center: int, keys: seq<PriceKey>, crossing: seq<nat>)
    requires Consistent(b) && Crossing(b, center, keys, crossing)
    requires forall k :: k !in keys ==> Queue(b, k) == []
    ensures forall r :: r in crossing <==> r in b.orders && !Clear(b.orders[r], center)
    ensures Without(b.orders, crossing, |crossing|) == Cleared(b.orders, center)
  {
    forall r | r in b.orders
      ensures KeyOf(b.orders[r]) in keys
    {
      assert r in Queue(b, KeyOf(b.orders[r]));
    }
    assert crossing[..|crossing|] == crossing;
  }

  lemma WithoutNone(was: map<nat, Resting>, refs: seq<nat>)
    ensures Without(was, refs, 0) == was
  {
  }

  lemma ErasedOrders(b: Book, ref: nat)
    requires ref in b.orders
    ensures Erase(b, ref).orders == b.orders - {ref}
  {
  }

  lemma ClearedAround(b: Book, was: map<nat, Resting>, center: int)
    requires b.orders == Cleared(was, center)
    ensures Around(b, center)
  {
  }

  lemma WithoutNext(was: map<nat, Resting>, refs: seq<nat>, n: nat)
    requires n < |refs| && Distinct(refs) && refs[n] in was
    ensures refs[n] in Without(was, refs, n) && Without(was, refs, n)[refs[n]] == was[refs[n]]
    ensures Without(was, refs, n) - {refs[n]} == Without(was, refs, n + 1)
  {
    assert refs[..n + 1] == refs[..n] + [refs[n]];
  }

  lemma NoDeletes(tape: seq<Message>, t: nat, refs: seq<nat>)
    ensures tape + Deletes(t, refs[..0]) == tape
  {
  }

  lemma DeletesNext(tape: seq<Message>, t: nat, refs: seq<nat>, n: nat)
    requires n < |refs|
    ensures tape + Deletes(t, refs[..n + 1]) == (tape + Deletes(t, refs[..n])) + [Message(LOC, t, OrderDelete(refs[n]))]
  {
  }

  lemma ExecutedExtends(was: seq<Message>, now: seq<Message>, t: nat)
    ensures Executed(was, now, t) ==> was <= now
  {
  }

  lemma NothingExecuted(tape: seq<Message>, t: nat)
    ensures Executed(tape, tape, t)
  {
  }

  /** The two shapes of execution: at the resting price, or a 'C' that prints away from it. */
  predicate ExecutionShape(body: Body, resting: int) {
    body.OrderExecuted?
    || (body.OrderExecutedPrice?
        && ((body.price == resting && body.printable) || body.price - resting in {-2 * TICK, -TICK, TICK, 2 * TICK}))
  }

  /** A print strictly through a resting quote: below a bid or above an ask. */
  ghost predicate Through(b: Book, price: int) {
    exists r :: r in b.orders
      && (if b.orders[r].side.Bid? then price < b.orders[r].price else b.orders[r].price < price)
  }

  /** The message each band of the roll emits, with its sizes. */
  predicate OfRoll(roll: int, body: Body) {
    if roll < 450 then
      (body.AddOrder? || body.AddOrderMpid?) && (body.shares in {100, 200, 300, 500} || 1 <= body.shares <= 99)
    else if roll < 700 then body.OrderExecuted? || body.OrderExecutedPrice?
    else if roll < 920 then body.OrderDelete? || body.OrderCancel?
    else if roll < 960 then body.OrderReplace? && body.shares in {100, 200, 300}
    else if roll < 985 then body.Trade? && 1 <= body.shares <= 300
    else body.CrossTrade? && body.crossType in {Ch('O'), Ch('C')} && 1000 <= body.shares <= 50000
  }

  /** A tie burst: two to five adds of one side at one price behind the centre, of 100 or 200, numbered in a row. */
  predicate IsBurst(ms: seq<Message>, t: nat, first: nat, center: int) {
    && 2 <= |ms| <= 5 && ms[0].body.AddOrder?
    && (exists step :: 1 <= step <= LEVELS && ms[0].body.price == StepFrom(center, ms[0].body.side, step))
    && forall i :: 0 <= i < |ms| ==>
         && ms[i].body.AddOrder? && ms[i].body.shares in {100, 200}
         && ms[i] == Message(LOC, t, AddOrder(first + i, ms[0].body.side, ms[i].body.shares, SYMBOL, ms[0].body.price))
  }

  /** What a rolled turn emits: nothing, a tie burst if asked for, an aggressive add in a halt, or its band's one. */
  ghost predicate RolledShape(ms: seq<Message>, halted: bool, tieBurst: bool, t: nat, first: nat, center: int) {
    || ms == [] || (tieBurst && IsBurst(ms, t, first, center))
    || (|ms| == 1 && exists roll :: InBand(roll, halted) && OfRoll(roll, ms[0].body))
    || (halted && |ms| == 1 && IsAggressive(ms[0].body, first, center))
  }

  /** A roll, redrawn in a halt to the bands in which nothing trades. */
  predicate InBand(roll: int, halted: bool) {
    0 <= roll < 1000 && (halted ==> roll < 450 || 700 <= roll < 960)
  }

  /** An order of a halt, up to six steps through the centre. */
  predicate IsAggressive(body: Body, first: nat, center: int) {
    && body.AddOrder? && body.ref == first && body.shares in {100, 200, 300}
    && exists step :: -LEVELS <= step <= 0 && body.price == StepFrom(center, body.side, step)
  }

  /** A hidden trade carries no reference beyond the bound. */
  predicate Named(body: Body, bound: nat) {
    body.Trade? ==> body.ref <= bound
  }

  predicate TradesNamed(tape: seq<Message>, bound: nat) {
    forall i :: 0 <= i < |tape| ==> Named(tape[i].body, bound)
  }

  lemma NamedNext(was: seq<Message>, now: seq<Message>, bound: nat, bound': nat)
    requires TradesNamed(was, bound) && was <= now && bound <= bound'
    requires forall i :: |was| <= i < |now| ==> Named(now[i].body, bound')
    ensures TradesNamed(now, bound')
  {
    forall i | 0 <= i < |now|
      ensures Named(now[i].body, bound')
    {
      if i < |was| { assert now[i] == was[i] && Named(was[i].body, bound); }
    }
  }

  /** What `Touch` reports about one side. */
  ghost predicate IsTouch(b: Book, side: Side, best: Option<int>) {
    && (best.None? <==> forall k: PriceKey :: k.side == side ==> Queue(b, k) == [])
    && (best.Some? ==> Queue(b, PriceKey(side, best.value)) != [] && NoneAhead(b, side, best.value))
  }

  /** Since `was`, the tape has grown by one execution of an order at the touch of `side`. */
  ghost predicate OneExecution(was: seq<Message>, now: seq<Message>, b: Book, side: Side) {
    && |now| == |was| + 1 && was <= now
    && var body := now[|was|].body;
    && (body.OrderExecuted? || body.OrderExecutedPrice?)
    && body.ref in b.orders && b.orders[body.ref].side == side && ExecutionShape(body, b.orders[body.ref].price)
  }

  /** Since `was`, the tape has grown by one cancel of an order at a level, never of more than it holds. */
  ghost predicate OneCancel(was: seq<Message>, now: seq<Message>, b: Book, k: PriceKey) {
    && |now| == |was| + 1 && was <= now
    && var body := now[|was|].body;
    && (body.OrderDelete? || body.OrderCancel?) && body.ref in Queue(b, k) && body.ref in b.orders
    && (body.OrderCancel? ==> 1 <= body.shares <= b.orders[body.ref].shares
                              && (body.shares == b.orders[body.ref].shares ==> body.shares == 1))
  }

  lemma StepIsClear(center: int, side: Side, step: int)
    requires OnTick(center) && step >= 1
    ensures OnTick(StepFrom(center, side, step))
    ensures forall shares :: Clear(Resting(side, StepFrom(center, side, step), shares), center)
  {
    hide OnTick;
    TicksAway(center, if side.Bid? then -step else step);
  }

  lemma BehindOnTick(center: int, side: Side, step: int)
    requires OnTick(center)
    ensures OnTick(StepFrom(center, side, step))
  {
    hide OnTick;
    TicksAway(center, if side.Bid? then -step else step);
  }

  lemma TicksAway(price: int, n: int)
    requires OnTick(price)
    ensures OnTick(price + n * TICK)
  {
    assert price + n * TICK - MID == ((price - MID) / TICK + n) * TICK;
  }

  /** One side is empty, and the quotes of the other have moved past the default that the draw fell on. */
  predicate DefaultIsThrough(bid: Option<int>, ask: Option<int>, price: int) {
    || (bid.None? && ask.Some? && ask.value < MID - TICK && price == MID - TICK)
    || (ask.None? && bid.Some? && MID + TICK < bid.value && price == MID + TICK)
  }

  /** Where a hidden trade may print, given the touch on both sides; an empty side counts as one tick off MID. */
  predicate HiddenPrice(bid: Option<int>, ask: Option<int>, price: int) {
    var bestBid := if bid.Some? then bid.value else MID - TICK;
    var bestAsk := if ask.Some? then ask.value else MID + TICK;
    if bestAsk - bestBid >= 2 * TICK then bestBid < price < bestAsk else price == bestBid || price == bestAsk
  }

  /**
   * A hidden print is meant to stay at or inside the spread. It prints strictly through a resting quote exactly
   * when one side is empty, the other side's touch has drifted past the fixed default, and the default is drawn.
   */
  lemma HiddenPrintThrough(b: Book, center: int, bid: Option<int>, ask: Option<int>, price: int)
    requires Consistent(b) && OnGrid(b) && OnTick(center) && Around(b, center)
    requires IsTouch(b, Bid, bid) && IsTouch(b, Ask, ask) && HiddenPrice(bid, ask, price)
    ensures Through(b, price) <==> DefaultIsThrough(bid, ask, price)
  {
    if bid.Some? { TouchIsLive(b, Bid, bid.value); }
    if ask.Some? { TouchIsLive(b, Ask, ask.value); }
    forall r | r in b.orders
      ensures if b.orders[r].side.Bid? then bid.Some? && b.orders[r].price <= bid.value
              else ask.Some? && ask.value <= b.orders[r].price
    {
      assert r in Queue(b, KeyOf(b.orders[r]));
    }
  }

  lemma TouchIsLive(b: Book, side: Side, price: int)
    requires Consistent(b) && Queue(b, PriceKey(side, price)) != []
    ensures exists r :: r in b.orders && b.orders[r].side == side && b.orders[r].price == price
  {
    QueuedIsLive(b, PriceKey(side, price), Queue(b, PriceKey(side, price))[0]);
  }

  /** The messages before the book: market and security announcements. */
  lemma NoteSettles(s: Session, t: nat, nextRef: nat, match_: nat, center: int, body: Body)
    requires Settled(s, t, nextRef, match_, center, false) && (body.SystemEvent? || body.StockDirectory?)
    ensures var m := Message(LOC, t, body); var s' := Advance(s, m);
      && Prepared(s, m) && s'.reopened == s.reopened && s'.book == s.book
      && Settled(s', t, nextRef, match_, center, false)
  {
    AroundIsUncrossed(s.book, center);
  }

  /** What the program appends after its main loop. */
  function Closing(halted: bool, t: nat): seq<Message> {
    (if halted then [Message(LOC, t, TradingAction(SYMBOL, Ch('T'), BLANK4))] else [])
    + [Message(LOC, t, SystemEvent(Ch('M'))), Message(LOC, t, SystemEvent(Ch('C')))]
  }

  function FirstClosing(halted: bool, t: nat): Message {
    Closing(halted, t)[0]
  }

  lemma LegalSnoc(tape: seq<Message>, m: Message)
    ensures After(tape + [m]) == Advance(After(tape), m)
    ensures Legal(tape + [m]) <==> Legal(tape) && Prepared(After(tape), m)
  {
    assert (tape + [m])[..|tape|] == tape;
  }

  /**
   * The closing messages clear no crossed orders. They keep the tape legal exactly when the main loop did not
   * stop inside a halt, or stopped inside one with an uncrossed book.
   */
  lemma ClosingLegal(main: seq<Message>, t: nat)
    requires Legal(main) && After(main).lastTs <= t
    requires !After(main).halted ==> Uncrossed(After(main).book)
    ensures var s := After(main);
      Legal(main + Closing(s.halted, t)) <==> (s.halted ==> Uncrossed(s.book))
  {
    hide Legal, Allowed, Uncrossed;
    var s := After(main);
    var open := if s.halted then main + [Message(LOC, t, TradingAction(SYMBOL, Ch('T'), BLANK4))] else main;
    var m, c := SystemEvent(Ch('M')), SystemEvent(Ch('C'));
    if s.halted { ResumeLegal(main, t); }
    EventLegal(open, t, m);
    EventLegal(open + [Message(LOC, t, m)], t, c);
    assert main + Closing(s.halted, t) == open + [Message(LOC, t, m)] + [Message(LOC, t, c)];
  }

  lemma ResumeLegal(tape: seq<Message>, t: nat)
    requires Legal(tape) && After(tape).halted && After(tape).lastTs <= t
    ensures var tape' := tape + [Message(LOC, t, TradingAction(SYMBOL, Ch('T'), BLANK4))];
      && (Legal(tape') <==> Uncrossed(After(tape).book))
      && After(tape').lastTs == t && !After(tape').halted && After(tape').book == After(tape).book
  {
    LegalSnoc(tape, Message(LOC, t, TradingAction(SYMBOL, Ch('T'), BLANK4)));
  }

  lemma EventLegal(tape: seq<Message>, t: nat, event: Body)
    requires event.SystemEvent? && After(tape).lastTs <= t
    requires Legal(tape) && !After(tape).halted ==> Uncrossed(After(tape).book)
    ensures var tape' := tape + [Message(LOC, t, event)];
      && (Legal(tape') <==> Legal(tape))
      && After(tape').lastTs == t && After(tape').halted == After(tape).halted
      && After(tape').book == After(tape).book
  {
    LegalSnoc(tape, Message(LOC, t, event));
  }

  /** What a generator's level records: its queue, and how many shares each order has left. */
  datatype LevelState = LevelState(queue: seq<nat>, shares: map<nat, nat>)

  /** The generator's own levels are the consumer's, queue by queue and share by share. */
  ghost predicate Agree(levels: map<PriceKey, LevelState>, b: Book) {
    && (forall k :: k in levels ==> Holds(levels[k].queue, levels[k].shares, b, k))
    && (forall k :: k !in levels ==> Queue(b, k) == [])
  }

  /** How a run of the program ends: with a file, with an exception, or not within the iterations watched. */
  datatype Run = Done(data: Data) | Failed | StillRunning

  /** One more framed message at the end of a feed, or an exception. */
  method Append(data: Data, ghost tape: seq<Message>, m: Message) returns (o: Outcome, longer: Data)
    requires (forall x :: x in tape ==> Encodable(x)) && data == EncodeFeed(tape)
    ensures o.Pass? <==> Encodable(m)
    ensures o.Pass? ==> (forall x :: x in tape + [m] ==> Encodable(x)) && longer == EncodeFeed(tape + [m])
  {
    if !Encodable(m) {
      return Raised, data;
    }
    EncodeFeedAppend(tape, m);
    return Pass, data + Frame(Encode(m));
  }

  /**
   * The whole program, for every sequence of draws, watched for at most `fuel` iterations of its main loop.
   * A file it writes parses back to a legal tape, an opening and then `n` messages or what the turn that reaches
   * them brings more, followed by the closing ones.
   */
  method Build(n: nat, tieBurst: bool, gap: nat, fuel: nat)
    returns (r: Run, ghost main: seq<Message>, ghost t: nat, ghost levels: map<PriceKey, LevelState>,
             ghost refused: Option<Message>, ghost opening: nat)
    requires gap >= 1
    ensures Legal(main)
    ensures !r.Failed? ==> Agree(levels, After(main).book)
    ensures r.StillRunning? ==> t >= T0 + fuel && opening <= |main| < opening + n && Opens(main[..opening])
    ensures Short(gap, fuel) ==>
      !r.Failed? && After(main).nextRef <= 61 + 5 * fuel && TradesNamed(main, 61 + 5 * fuel)
    ensures r.Failed? <==> refused.Some?
    ensures r.Failed? ==> Allowed(After(main), refused.value) && !Encodable(refused.value)
    ensures r.Done? ==> StopsAt(main, opening, n, t) && After(main).lastTs <= t
    ensures r.Done? ==> |main| >= 2 && main[1].body == StockDirectory(SYMBOL)
    ensures r.Done? ==> forall m :: m in main + Closing(After(main).halted, t) ==> Encodable(m)
    ensures r.Done? ==> r.data == EncodeFeed(main + Closing(After(main).halted, t))
    ensures r.Done? ==> ParseFeed(r.data) == Some(main + Closing(After(main).halted, t))
    ensures r.Done? ==>
      (Legal(main + Closing(After(main).halted, t)) <==> (After(main).halted ==> Uncrossed(After(main).book)))
  {
    hide Feed.Wire, Feed.Mirrors, Feed.Stuck, Settled, Consistent, Below, After, Closing, ParseFeed, EncodeFeed;
    hide Encodable;
    hide Uncrossed, Stocked, Allowed, Legal, Agree, Fits, InReach, Laps, Short, Feed.Bounds, Feed.Begun, TradesNamed;
    hide Opens, LastTurn;
    levels, opening := map[], 0;
    var feed := new Feed();
    ghost var ample := Short(gap, fuel);
    RunIsAmple(gap, fuel, 0);
    var o := feed.Seed(gap);
    if o.Raised? {
      feed.Refuses();
      return Failed, feed.tape, feed.t, levels, feed.refused, opening;
    }
    feed.BoundedAfterSeed();
    feed.OpensWithoutTrades();
    feed.AllCounted();
    opening := |feed.tape|;
    ghost var last := opening;
    var steps := 0;
    while feed.emitted < n && steps < fuel
      invariant feed.Valid() && fresh(feed) && fresh(feed.repr)
      invariant T0 + steps <= feed.t <= T0 + Laps(gap, 60 + steps) && steps <= fuel
      invariant (ample ==> feed.Bounds(steps, 0)) && TradesNamed(feed.tape, feed.nextRef)
      invariant feed.seeded == opening && |feed.tape| == opening + feed.emitted && Opens(feed.tape[..opening])
      invariant if steps == 0 then feed.emitted == 0
                else opening <= last < opening + n && LastTurn(feed.tape, last, feed.t)
      invariant |feed.tape| >= 2 && feed.tape[1].body == StockDirectory(SYMBOL)
    {
      RunIsAmple(gap, fuel, steps);
      RunIsAmple(gap, fuel, steps + 1);
      LapsNext(gap, 60 + steps);
      FitsLess(feed.t + 40 * gap, T0 + Laps(gap, 60 + steps + 1), 6);
      last := |feed.tape|;
      ghost var was := feed.tape;
      o := feed.Iterate(tieBurst, gap, steps);
      if o.Raised? {
        feed.Refuses();
        return Failed, feed.tape, feed.t, levels, feed.refused, opening;
      }
      steps := steps + 1;
      feed.AllCounted();
      assert feed.tape[..opening] == was[..opening];
    }
    main, t, refused := feed.tape, feed.t, None;
    RunIsAmple(gap, fuel, steps);
    FitsLess(feed.t, T0 + Laps(gap, 60 + steps), 6);
    feed.Closes();
    if ample { feed.FewReferences(steps, fuel); }
    feed.Agrees();
    levels := feed.Recorded();
    if feed.emitted < n { return StillRunning, main, t, levels, None, opening; }
    var data;
    o, data := feed.Close();
    if o.Raised? {
      feed.ClosingRefused();
      return Failed, main, t, levels, Some(FirstClosing(feed.halted, t)), opening;
    }
    ParseEncodeFeed(main + Closing(feed.halted, t));
    return Done(data), main, t, levels, None, opening;
  }

  /**
   * A run that ends inside a halt with a crossing order resting: the file is written, and its closing 'T'
   * resumes trading over a crossed book.
   */
  method CrossedClose(gap: nat) returns (r: Run, ghost main: seq<Message>, ghost t: nat)
    requires 1 <= gap <= 1000000000
    ensures r.Done? && Legal(main)
    ensures ParseFeed(r.data) == Some(main + Closing(After(main).halted, t))
    ensures Crossed(After(main).book) && !Legal(main + Closing(After(main).halted, t))
  {
    hide Feed.Valid, Feed.Initial, Legal, After, Closing, ParseFeed, EncodeFeed, Encodable, Uncrossed, Crossed, Fits;
    var feed := new Feed();
    feed.CrossInHalt(gap);
    CrossedIsNot(feed.session.book);
    feed.Closes();
    main, t := feed.tape, feed.t;
    var o, data := feed.Close();
    ParseEncodeFeed(main + Closing(feed.halted, t));
    return Done(data), main, t;
  }

  /** The bid rests above the best ask: a crossed book, not merely a locked one. */
  lemma CrossedByInsert(b: Book, ask: nat, bid: nat)
    requires ask in b.orders && KeyOf(b.orders[ask]) == PriceKey(Ask, MID + TICK) && ask != bid
    ensures Crossed(Insert(b, bid, Bid, StepFrom(MID, Bid, -2), 100))
  {
    var b' := Insert(b, bid, Bid, MID + 2 * TICK, 100);
    assert bid in b'.orders && ask in b'.orders;
  }

  /** Some bid rests strictly above some ask. */
  ghost predicate Crossed(b: Book) {
    exists r, r' :: r in b.orders && r' in b.orders && b.orders[r].side.Bid? && b.orders[r'].side.Ask?
      && b.orders[r].price > b.orders[r'].price
  }

  lemma CrossedIsNot(b: Book)
    requires Crossed(b)
    ensures !Uncrossed(b)
  {
  }

  /** The most time that n draws can take. */
  ghost function Laps(gap: nat, n: nat): nat {
    40 * gap * n
  }

  lemma LapsNext(gap: nat, n: nat)
    ensures Laps(gap, n + 1) == Laps(gap, n) + 40 * gap && Laps(gap, 0) == 0
  {
  }

  lemma LapsAdd(gap: nat, n: nat, m: nat)
    ensures Laps(gap, n) + Laps(gap, m) == Laps(gap, n + m)
  {
  }

  lemma LapsUpTo(gap: nat, n: nat, m: nat)
    requires n <= m
    ensures Laps(gap, n) <= Laps(gap, m)
  {
    if n < m {
      LapsUpTo(gap, n, m - 1);
    }
  }

  /**
   * A run so short that nothing any of its draws can make outgrows a field: sixty orders at most in the opening,
   * then so many turns, each at most forty gaps after the one before and within a tick of the centre before it.
   */
  ghost predicate Short(gap: nat, fuel: nat) {
    InReach(fuel) && Fits(T0 + Laps(gap, 60 + fuel), 6)
  }

  lemma ShortNames(gap: nat, fuel: nat)
    requires Short(gap, fuel)
    ensures 61 + 5 * fuel < 0x1_0000
  {
  }

  /** Within the reach of the whole run, every part of it is. */
  lemma RunIsAmple(gap: nat, fuel: nat, steps: nat)
    requires steps <= fuel
    ensures Short(gap, fuel) ==> InReach(steps) && Fits(T0 + Laps(gap, 60 + steps), 6)
  {
    LapsUpTo(gap, 60 + steps, 60 + fuel);
    hide Laps;
  }

  lemma FitsLess(n: nat, m: nat, width: nat)
    requires n <= m
    ensures Fits(m, width) ==> Fits(n, width)
  {
  }

  /** The widths are ample for a short run: after up to 150 draws, and with few references issued. */
  lemma RunFits(gap: nat, laps: nat, at: nat, ref: nat)
    requires gap <= 1000000000 && laps <= 150 && at <= T0 + Laps(gap, laps) && ref <= 200
    ensures Fits(at, 6) && Fits(ref, 8) && Fits(200, 4) && Fits(100, 4) && Fits(MID + 2 * TICK, 4)
  {
    LapsUpTo(gap, laps, 150);
    assert Pow256(4) == 0x1_0000_0000 && Pow256(6) == 0x1_0000_0000_0000 && Pow256(8) == 0x1_0000_0000_0000_0000;
  }

  /**
   * A run whose reopening auction prints a volume that no one traded: thirty-nine orders of 200 shares each are entered
   * through the centre, and each is counted as 100 when it leaves.
   */
  method MisprintedAuction(gap: nat) returns (ghost before: seq<Message>, ghost t: nat, ghost crossing: seq<nat>)
    requires 1 <= gap <= 1000000000
    ensures Legal(before + Reopening(t, crossing, MID, 1)) && After(before).lastTs < t && crossing != []
    ensures forall r :: r in crossing ==> r in After(before).book.orders
    ensures Reopening(t, crossing, MID, 1)[0].body.shares != SharesOf(After(before).book.orders, crossing)
  {
    hide Feed.Valid, Feed.Initial, Legal, After, Reopening, SharesOf;
    var feed := new Feed();
    feed.DoubleInHalt(gap);
    feed.AfterTape();
    before := feed.tape;
    crossing := feed.Misprint(gap);
    t := feed.t;
    feed.AfterTape();
  }

  /** Where the clock can outrun its field in one wait, the opening's first order can already have no encoding. */
  method LateOpening(gap: nat) returns (o: Outcome, ghost refused: Message)
    requires gap >= 1 && !Fits(T0 + 40 * gap, 6)
    ensures o.Raised? && refused.ts == T0 + 40 * gap && !Encodable(refused)
  {
    hide Feed.Valid, Feed.Initial, Fits, Encodable;
    var feed := new Feed();
    o := feed.FirstOrderLate(gap);
    feed.Refuses();
    refused := feed.refused.value;
  }

  /** Every order at or through the centre holds two round lots. */
  ghost predicate DoubleLots(b: Book, center: int) {
    forall r :: r in b.orders && !Clear(b.orders[r], center) ==> b.orders[r].shares == 200
  }

  ghost predicate SomeCrosses(b: Book, center: int) {
    exists r :: r in b.orders && !Clear(b.orders[r], center)
  }

  lemma DoubleLotsNext(b: Book, ref: nat)
    requires DoubleLots(b, MID)
    ensures var b' := Insert(b, ref, Bid, StepFrom(MID, Bid, -2), 200); DoubleLots(b', MID) && SomeCrosses(b', MID)
  {
    var b' := Insert(b, ref, Bid, StepFrom(MID, Bid, -2), 200);
    assert ref in b'.orders;
  }

  lemma DoubleVolume(b: Book, crossing: seq<nat>, t: nat)
    requires DoubleLots(b, MID) && SomeCrosses(b, MID)
    requires forall r :: r in crossing <==> r in b.orders && !Clear(b.orders[r], MID)
    ensures crossing != [] && Reopening(t, crossing, MID, 1)[0].body.shares != SharesOf(b.orders, crossing)
  {
    var r :| r in b.orders && !Clear(b.orders[r], MID);
    assert r in crossing && b.orders[r].shares == 200;
    AuctionVolumeIff(b.orders, crossing, t, MID, 1);
  }

  lemma RoomLater(was: nat, t: nat, nextRef: nat, match_: nat, orders: map<nat, Resting>)
    requires RoomFor(was, nextRef, match_, orders) && Fits(t, 6)
    ensures RoomFor(t, nextRef, match_, orders)
  {
  }

  lemma ClearedIsSmall(b: Book, b': Book, center: int)
    requires SmallAndNear(b) && b'.orders == Cleared(b.orders, center)
    ensures SmallAndNear(b')
  {
  }

  /** The level one tick behind the centre after six steps up. */
  const HIGH_BID: PriceKey := PriceKey(Bid, MID + 5 * TICK)

  /** Above the outermost level of the opening no ask is left, and a bid behind the centre adds none. */
  lemma AsksAreGone(b: Book, ref: nat)
    requires SmallAndNear(b) && Around(b, MID + 6 * TICK) && Consistent(b) && Below(b, ref)
    ensures var b' := Insert(b, ref, Bid, StepFrom(MID + 6 * TICK, Bid, 1), 100);
      IsTouch(b', Ask, None) && ref in b'.orders && KeyOf(b'.orders[ref]) == HIGH_BID
  {
    var b' := Insert(b, ref, Bid, StepFrom(MID + 6 * TICK, Bid, 1), 100);
    InsertConsistent(b, ref, Bid, StepFrom(MID + 6 * TICK, Bid, 1), 100);
    forall k: PriceKey | k.side.Ask?
      ensures Queue(b', k) == []
    {
      if Queue(b', k) != [] { QueuedIsLive(b', k, Queue(b', k)[0]); }
    }
  }

  lemma BidAbove(b: Book, best: Option<int>)
    requires IsTouch(b, Bid, best) && IsTouch(b, Ask, None) && Consistent(b)
    requires exists ref :: ref in b.orders && KeyOf(b.orders[ref]) == HIGH_BID
    ensures HiddenPrice(best, None, MID + TICK) && DefaultIsThrough(best, None, MID + TICK)
  {
    var ref :| ref in b.orders && KeyOf(b.orders[ref]) == HIGH_BID;
    OrderIsQueued(b, ref);
    assert best.Some? && !Ahead(Bid, b.orders[ref].price, best.value);
  }

  lemma AddFits(was: nat, nextRef: nat, match_: nat, orders: map<nat, Resting>)
    requires RoomFor(was, nextRef, match_, orders)
    ensures Fits(nextRef, 8) && Fits(match_, 8) && Fits(StepFrom(MID + 6 * TICK, Bid, 1), 4)
  {
    assert Pow256(4) == 0x1_0000_0000;
  }

  lemma HiddenEncodable(t: nat, nextRef: nat, match_: nat)
    requires Fits(t, 6) && nextRef <= 62 && Fits(match_, 8)
    ensures Encodable(Message(LOC, t, Trade(nextRef, Bid, 100, SYMBOL, MID + TICK, match_)))
  {
    assert Pow256(2) == 0x1_0000 && Pow256(4) == 0x1_0000_0000 && Pow256(8) == 0x1_0000_0000_0000_0000;
  }

  /** No more orders than references issued. */
  lemma {:induction false} FewOrders(orders: map<nat, Resting>, bound: nat)
    requires forall r :: r in orders ==> r < bound
    ensures |orders| <= bound
    decreases bound
  {
    if bound > 0 {
      var rest := orders - {bound - 1};
      FewOrders(rest, bound - 1);
      assert |orders| == |orders.Keys| && |rest| == |rest.Keys|;
      assert orders.Keys <= rest.Keys + {bound - 1};
      assert orders.Keys == rest.Keys || orders.Keys == rest.Keys + {bound - 1};
    } else {
      assert orders == map[];
    }
  }

  /**
   * A run whose hidden trade goes through the best bid: six upward steps take out every ask, a bid follows the
   * centre up, and the empty side's default is still one tick above the price the day started at.
   */
  method HiddenPrintCanGoThrough(gap: nat) returns (ghost main: seq<Message>, ghost bid: Option<int>)
    requires 1 <= gap <= 1000000000
    ensures Legal(main) && main != [] && After(main).book == After(main[..|main| - 1]).book
    ensures var b, trade := After(main).book, main[|main| - 1].body;
      && IsTouch(b, Bid, bid) && IsTouch(b, Ask, None) && HiddenPrice(bid, None, MID + TICK)
      && trade.Trade? && trade.price == MID + TICK && Through(b, trade.price)
  {
    hide Feed.Valid, Feed.Initial, Legal, After, IsTouch, Through, HiddenPrice;
    var feed := new Feed();
    feed.ClimbPastAsks(gap);
    bid := feed.PrintDefault(gap);
    feed.AfterTape();
    main := feed.tape;
    assert main == main[..|main| - 1] + [main[|main| - 1]];
    assert After(main).book == After(main[..|main| - 1]).book by {
      TradeKeepsBook(main[..|main| - 1], main[|main| - 1]);
    }
  }

  lemma TradeKeepsBook(tape: seq<Message>, m: Message)
    requires m.body.Trade?
    ensures After(tape + [m]).book == After(tape).book
  {
    LegalSnoc(tape, m);
  }

  ghost predicate RoomFor(t: nat, nextRef: nat, match_: nat, orders: map<nat, Resting>) {
    && Fits(t, 6) && Fits(nextRef, 8) && Fits(match_ + |orders|, 8)
    && forall r :: r in orders ==> Fits(orders[r].shares, 4)
  }

  lemma RoomShrinks(t: nat, nextRef: nat, match_: nat, orders: map<nat, Resting>, ref: nat)
    requires RoomFor(t, nextRef, match_, orders) && ref in orders
    ensures RoomFor(t, nextRef, match_ + 1, orders - {ref})
  {
    OneFewer(orders, ref);
  }

  lemma ExecutionEncodable(t: nat, nextRef: nat, match_: nat, orders: map<nat, Resting>, ref: nat)
    requires RoomFor(t, nextRef, match_, orders) && ref in orders && ref < nextRef
    ensures Encodable(Message(LOC, t, OrderExecuted(ref, orders[ref].shares, match_)))
  {
    assert Fits(LOC, 2) by { assert Pow256(2) == 0x1_0000; }
    hide Pow256;
  }

  lemma OneFewer(orders: map<nat, Resting>, ref: nat)
    requires ref in orders
    ensures |orders - {ref}| + 1 == |orders|
  {
    assert (orders - {ref}).Keys == orders.Keys - {ref};
    assert |orders| == |orders.Keys| && |orders - {ref}| == |(orders - {ref}).Keys|;
  }

  /** Taking all the shares of an order takes the order. */
  lemma ReduceAll(b: Book, ref: nat)
    requires ref in b.orders
    ensures Reduce(b, ref, b.orders[ref].shares).orders == b.orders - {ref}
  {
  }

  function OtherSide(side: Side): Side {
    if side.Bid? then Ask else Bid
  }

  function SeedKey(side: Side, step: int): PriceKey {
    PriceKey(side, StepFrom(MID, side, step))
  }

  /** Every level the seeding loop has passed on one side holds two to five orders. */
  ghost predicate Stocked(b: Book, side: Side, upTo: int) {
    forall step :: 1 <= step <= upTo ==> 2 <= |Queue(b, SeedKey(side, step))| <= 5
  }

  /** From one level outwards, a side is still empty. */
  ghost predicate Bare(b: Book, side: Side, from: int) {
    forall step :: from <= step ==> Queue(b, SeedKey(side, step)) == []
  }

  /** Two books whose queues agree at every level but one. */
  ghost predicate OnlyAt(b: Book, b': Book, k: PriceKey) {
    forall k' :: k' != k ==> Queue(b', k') == Queue(b, k')
  }

  /** Two books whose queues agree on a side. */
  ghost predicate SameSide(b: Book, b': Book, side: Side) {
    forall k: PriceKey :: k.side == side ==> Queue(b', k) == Queue(b, k)
  }

  lemma OnlyAtItself(b: Book, k: PriceKey)
    ensures OnlyAt(b, b, k)
  {
  }

  lemma OnlyAtThen(b0: Book, b1: Book, b2: Book, k: PriceKey)
    requires OnlyAt(b0, b1, k) && OnlyAt(b1, b2, k)
    ensures OnlyAt(b0, b2, k)
  {
  }

  lemma NothingYet(b: Book, side: Side)
    ensures Stocked(b, side, 0) && SameSide(b, b, side)
    ensures Bare(EMPTY, side, 1)
  {
  }

  /** One more level stocked, and the other side left alone. */
  lemma StockedNext(b0: Book, b: Book, b': Book, side: Side, step: int)
    requires 1 <= step && Stocked(b, side, step - 1) && Bare(b, side, step) && SameSide(b0, b, OtherSide(side))
    requires OnlyAt(b, b', SeedKey(side, step)) && 2 <= |Queue(b', SeedKey(side, step))| <= 5
    ensures Stocked(b', side, step) && Bare(b', side, step + 1) && SameSide(b0, b', OtherSide(side))
  {
    hide Queue;
    forall other | other != step
      ensures SeedKey(side, other) != SeedKey(side, step)
    {
      StepsApart(side, other, step);
    }
  }

  lemma StepsApart(side: Side, i: int, j: int)
    requires i != j
    ensures SeedKey(side, i) != SeedKey(side, j)
  {
  }

  /** What one side has is not changed by stocking the other. */
  lemma KeptOnSide(b: Book, b': Book, side: Side, upTo: int, from: int)
    requires SameSide(b, b', side)
    ensures Stocked(b, side, upTo) ==> Stocked(b', side, upTo)
    ensures Bare(b, side, from) ==> Bare(b', side, from)
  {
    hide Queue;
  }

  lemma OneMoreQueued(b: Book, ref: nat, side: Side, step: int, shares: nat)
    ensures var b', k := Insert(b, ref, side, StepFrom(MID, side, step), shares), SeedKey(side, step);
      OnlyAt(b, b', k) && |Queue(b', k)| == |Queue(b, k)| + 1
  {
  }

  /** What the seeding loop leaves: small orders, no further than the outermost level from the starting price. */
  ghost predicate SmallAndNear(b: Book) {
    forall r :: r in b.orders ==>
      b.orders[r].shares <= 500 && MID - LEVELS * TICK <= b.orders[r].price <= MID + LEVELS * TICK
  }

  lemma InsertKeepsSmall(b: Book, ref: nat, side: Side, step: int, shares: nat)
    requires SmallAndNear(b) && 1 <= step <= LEVELS && shares <= 500
    ensures SmallAndNear(Insert(b, ref, side, StepFrom(MID, side, step), shares))
  {
  }

  /** The tape of the opening: three announcements, then adds alone, of the listed sizes and numbered from one. */
  predicate Opens(tape: seq<Message>) {
    && |tape| >= 3 && tape[0].body == SystemEvent(Ch('O')) && tape[1].body == StockDirectory(SYMBOL)
    && tape[2].body == SystemEvent(Ch('Q'))
    && forall i :: 3 <= i < |tape| ==>
         tape[i].body.AddOrder? && tape[i].body.ref == i - 2 && tape[i].body.shares in {100, 200, 300, 500}
  }

  predicate AllAt(tape: seq<Message>, t: nat) {
    forall i :: 0 <= i < |tape| ==> tape[i].ts == t
  }

  /** What a turn at time `t` put behind the first `last` messages: all its messages at that time, and no other's. */
  predicate LastTurn(tape: seq<Message>, last: nat, t: nat) {
    && last <= |tape|
    && (forall i :: 0 <= i < last ==> tape[i].ts < t)
    && forall i :: last <= i < |tape| ==> tape[i].ts == t
  }

  /** The turn that ends the main loop is the first to bring its messages to the number asked for. */
  predicate StopsAt(main: seq<Message>, opening: nat, n: nat, t: nat) {
    && opening <= |main| && Opens(main[..opening])
    && if n == 0 then |main| == opening
       else |main| - opening >= n && exists last :: opening <= last < opening + n && LastTurn(main, last, t)
  }

  lemma OpensOn(tape: seq<Message>, m: Message)
    requires Opens(tape) && m.body.AddOrder? && m.body.ref == |tape| - 2 && m.body.shares in {100, 200, 300, 500}
    ensures Opens(tape + [m])
  {
  }

  /** The reopening auction's messages: one cross print if anything crossed, its deletes, then the resume. */
  function Reopening(t: nat, crossing: seq<nat>, center: int, match_: nat): seq<Message> {
    (if crossing == [] then [] else
       [Message(LOC, t, CrossTrade(|crossing| * 100, SYMBOL, center, match_, Ch('H')))] + Deletes(t, crossing))
    + [Message(LOC, t, TradingAction(SYMBOL, Ch('T'), BLANK4))]
  }

  lemma ReopeningPrintsNoTrade(t: nat, crossing: seq<nat>, center: int, match_: nat)
    ensures forall i :: 0 <= i < |Reopening(t, crossing, center, match_)| ==>
      !Reopening(t, crossing, center, match_)[i].body.Trade?
  {
  }

  /** The shares that some orders hold between them. */
  function SharesOf(orders: map<nat, Resting>, refs: seq<nat>): nat
    requires forall r :: r in refs ==> r in orders
  {
    if refs == [] then 0 else SharesOf(orders, refs[..|refs| - 1]) + orders[refs[|refs| - 1]].shares
  }

  /** By how much orders larger than a round lot exceed it, and by how much smaller ones fall short. */
  function Surplus(orders: map<nat, Resting>, refs: seq<nat>): nat
    requires forall r :: r in refs ==> r in orders
  {
    if refs == [] then 0
    else
      var n := orders[refs[|refs| - 1]].shares;
      Surplus(orders, refs[..|refs| - 1]) + if n > 100 then n - 100 else 0
  }

  function Shortfall(orders: map<nat, Resting>, refs: seq<nat>): nat
    requires forall r :: r in refs ==> r in orders
  {
    if refs == [] then 0
    else
      var n := orders[refs[|refs| - 1]].shares;
      Shortfall(orders, refs[..|refs| - 1]) + if n < 100 then 100 - n else 0
  }

  lemma {:induction false} AuctionBalance(orders: map<nat, Resting>, refs: seq<nat>)
    requires forall r :: r in refs ==> r in orders
    ensures SharesOf(orders, refs) + Shortfall(orders, refs) == |refs| * 100 + Surplus(orders, refs)
  {
    if refs != [] {
      AuctionBalance(orders, refs[..|refs| - 1]);
    }
  }

  lemma {:induction false} BalancedSizes(orders: map<nat, Resting>, refs: seq<nat>)
    requires forall r :: r in refs ==> r in orders
    ensures Surplus(orders, refs) == 0 <==> forall r :: r in refs ==> orders[r].shares <= 100
    ensures Shortfall(orders, refs) == 0 <==> forall r :: r in refs ==> orders[r].shares >= 100
  {
    if refs != [] {
      var init, last := refs[..|refs| - 1], refs[|refs| - 1];
      BalancedSizes(orders, init);
      assert refs == init + [last];
    }
  }

  /**
   * The auction's printed volume is the shares its orders take out of the book exactly when, over the orders at
   * or through the centre, what the larger ones have above a round lot makes up for what the odd lots lack. With
   * no odd lot among them, or nothing but odd lots and round ones, that is when every one is a single round lot.
   */
  lemma AuctionVolumeIff(orders: map<nat, Resting>, crossing: seq<nat>, t: nat, center: int, match_: nat)
    requires crossing != [] && forall r :: r in crossing ==> r in orders
    ensures var auction := Reopening(t, crossing, center, match_)[0].body;
      && auction.CrossTrade?
      && (auction.shares == SharesOf(orders, crossing) <==> Surplus(orders, crossing) == Shortfall(orders, crossing))
      && ((forall r :: r in crossing ==> orders[r].shares >= 100) ==>
            (auction.shares == SharesOf(orders, crossing) <==> forall r :: r in crossing ==> orders[r].shares == 100))
      && ((forall r :: r in crossing ==> orders[r].shares <= 100) ==>
            (auction.shares == SharesOf(orders, crossing) <==> forall r :: r in crossing ==> orders[r].shares == 100))
  {
    AuctionBalance(orders, crossing);
    BalancedSizes(orders, crossing);
  }

  /** One order of another size among single round lots is enough to make the printed volume wrong. */
  lemma OneOtherSize(orders: map<nat, Resting>, crossing: seq<nat>, j: nat, t: nat, center: int, match_: nat)
    requires j < |crossing| && forall r :: r in crossing ==> r in orders
    requires forall i :: 0 <= i < |crossing| && i != j ==> orders[crossing[i]].shares == 100
    ensures Reopening(t, crossing, center, match_)[0].body.shares == SharesOf(orders, crossing)
       <==> orders[crossing[j]].shares == 100
  {
    AuctionVolumeIff(orders, crossing, t, center, match_);
    forall r | r in crossing
      ensures orders[r].shares == 100 || r == crossing[j]
    {
      var i :| 0 <= i < |crossing| && crossing[i] == r;
    }
    assert crossing[j] in crossing;
    hide Reopening, SharesOf;
  }

  // ---- how far a run can get ----------------------------------------------------------------

  /**
   * What k turns of the loop can have done, and i adds since: a turn moves the centre one tick at most, prints
   * once besides the executions that take whole orders, and issues five references at most.
   */
  ghost predicate Bounded(nextRef: nat, match_: nat, center: int, orders: map<nat, Resting>, k: nat, i: nat) {
    && nextRef <= 61 + 5 * k + i && match_ + |orders| <= nextRef + k + 1
    && MID - k * TICK <= center <= MID + k * TICK
    && forall r :: r in orders ==> NearOrder(orders[r], k)
  }

  predicate NearOrder(o: Resting, k: nat) {
    o.shares <= 500 && MID - (k + LEVELS) * TICK <= o.price <= MID + (k + LEVELS) * TICK
  }

  /** After so many turns the furthest price that a turn can print, two ticks past the outermost order, is positive. */
  predicate InReach(k: nat) {
    (k + LEVELS + 2) * TICK <= MID
  }

  lemma BoundedFits(nextRef: nat, match_: nat, center: int, orders: map<nat, Resting>, k: nat, i: nat)
    requires Bounded(nextRef, match_, center, orders, k, i) && InReach(k) && i <= 5
    ensures Fits(nextRef, 8) && Fits(100 * nextRef, 8) && Fits(match_, 8) && Fits(match_ + |orders|, 8)
    ensures Fits(center, 4) && Fits(LOC, 2)
    ensures forall side, step :: -LEVELS <= step <= LEVELS ==> Fits(StepFrom(center, side, step), 4)
    ensures forall price :: MID - (k + LEVELS + 2) * TICK <= price <= MID + (k + LEVELS + 2) * TICK ==> Fits(price, 4)
    ensures forall n: int :: 0 <= n <= 50000 ==> Fits(n, 4) && Fits(n, 8)
  {
    assert Pow256(2) == 0x1_0000 && Pow256(4) == 0x1_0000_0000 && Pow256(8) == 0x1_0000_0000_0000_0000;
    hide Pow256;
  }

  /** What is left of some orders: none is new, none has moved, and none has grown. */
  ghost predicate Lesser(now: map<nat, Resting>, was: map<nat, Resting>) {
    && now.Keys <= was.Keys
    && forall r :: r in now ==> now[r].price == was[r].price && now[r].shares <= was[r].shares
  }

  /** A turn that enters nothing. */
  lemma TurnBounded(nextRef: nat, match_: nat, match': nat, center: int, center': int,
                    was: map<nat, Resting>, now: map<nat, Resting>, k: nat, i: nat)
    requires Bounded(nextRef, match_, center, was, k, i) && i <= 5 && Lesser(now, was)
    requires match' + |now| <= match_ + |was| + 1 && center - TICK <= center' <= center + TICK
    ensures Bounded(nextRef, match', center', now, k + 1, 0)
  {
  }

  lemma LesserIsFewer(now: map<nat, Resting>, was: map<nat, Resting>)
    requires Lesser(now, was)
    ensures |now| <= |was|
  {
    KeysAreFewer(now.Keys, was.Keys);
    assert |now| == |now.Keys| && |was| == |was.Keys|;
  }

  lemma KeysAreFewer(a: set<nat>, b: set<nat>)
    requires a <= b
    ensures |a| <= |b|
  {
    assert b == a + (b - a);
  }

  lemma ReducedIsLesser(b: Book, ref: nat, qty: nat)
    requires ref in b.orders
    ensures Lesser(Reduce(b, ref, qty).orders, b.orders) && Lesser(Erase(b, ref).orders, b.orders)
  {
  }

  lemma ClearedIsLesser(orders: map<nat, Resting>, center: int)
    ensures Lesser(Cleared(orders, center), orders)
  {
  }

  /** One more order, no further than the levels around the centre. */
  lemma AddBounded(nextRef: nat, match_: nat, center: int, b: Book, k: nat, i: nat, side: Side, step: int, shares: nat)
    requires Bounded(nextRef, match_, center, b.orders, k, i) && -LEVELS <= step <= LEVELS && shares <= 500
    ensures Bounded(nextRef + 1, match_, center,
                    Insert(b, nextRef, side, StepFrom(center, side, step), shares).orders, k, i + 1)
  {
    var now := Insert(b, nextRef, side, StepFrom(center, side, step), shares).orders;
    assert now.Keys == b.orders.Keys + {nextRef} && |now| == |now.Keys| && |b.orders| == |b.orders.Keys|;
  }

  /** An order that takes another's place. */
  lemma SwapBounded(nextRef: nat, match_: nat, center: int, b: Book, k: nat,
                    ref: nat, side: Side, step: int, shares: nat)
    requires Bounded(nextRef, match_, center, b.orders, k, 0) && ref in b.orders
    requires -LEVELS <= step <= LEVELS && shares <= 500
    ensures Bounded(nextRef + 1, match_, center,
                    Insert(Erase(b, ref), nextRef, side, StepFrom(center, side, step), shares).orders, k + 1, 0)
  {
    hide Erase, Insert;
    ReducedIsLesser(b, ref, 0);
    var b1 := Erase(b, ref);
    LesserIsFewer(b1.orders, b.orders);
    BoundedStill(nextRef, match_, center, b.orders, b1.orders, k, 0);
    AddBounded(nextRef, match_, center, b1, k, 0, side, step, shares);
    NextTurn(nextRef + 1, match_, center, Insert(b1, nextRef, side, StepFrom(center, side, step), shares).orders, k, 1);
  }

  lemma BoundedStill(nextRef: nat, match_: nat, center: int,
                     was: map<nat, Resting>, now: map<nat, Resting>, k: nat, i: nat)
    requires Bounded(nextRef, match_, center, was, k, i) && Lesser(now, was) && |now| <= |was|
    ensures Bounded(nextRef, match_, center, now, k, i)
  {
  }

  lemma NextTurn(nextRef: nat, match_: nat, center: int, orders: map<nat, Resting>, k: nat, i: nat)
    requires Bounded(nextRef, match_, center, orders, k, i) && i <= 5
    ensures Bounded(nextRef, match_, center, orders, k + 1, 0)
  {
  }

  lemma ExecutionFits(t: nat, nextRef: nat, match_: nat, center: int, orders: map<nat, Resting>, k: nat,
                      ref: nat, qty: nat, body: Body)
    requires Bounded(nextRef, match_, center, orders, k, 0) && InReach(k) && Fits(t, 6)
    requires ref in orders && ref < nextRef && qty <= orders[ref].shares && Takes(body, ref, qty, match_)
    requires !body.OrderCancel? ==> ExecutionShape(body, orders[ref].price)
    ensures Encodable(Message(LOC, t, body))
  {
    BoundedFits(nextRef, match_, center, orders, k, 0);
    RefFits(ref, nextRef);
    assert NearOrder(orders[ref], k);
    hide Fits;
  }

  lemma RefFits(ref: nat, nextRef: nat)
    requires ref <= nextRef && Fits(nextRef, 8)
    ensures Fits(ref, 8)
  {
  }

  lemma ReplaceFits(t: nat, nextRef: nat, match_: nat, center: int, orders: map<nat, Resting>, k: nat,
                    ref: nat, shares: nat, side: Side, step: int)
    requires Bounded(nextRef, match_, center, orders, k, 0) && InReach(k) && Fits(t, 6)
    requires ref < nextRef && shares <= 500 && -LEVELS <= step <= LEVELS
    ensures Encodable(Message(LOC, t, OrderReplace(ref, nextRef, shares, StepFrom(center, side, step))))
  {
    BoundedFits(nextRef, match_, center, orders, k, 0);
    RefFits(ref, nextRef);
    hide Fits, StepFrom;
  }

  lemma DeleteFits(t: nat, nextRef: nat, match_: nat, center: int, orders: map<nat, Resting>, k: nat, ref: nat)
    requires Bounded(nextRef, match_, center, orders, k, 0) && InReach(k) && Fits(t, 6) && ref < nextRef
    ensures Encodable(Message(LOC, t, OrderDelete(ref)))
  {
    BoundedFits(nextRef, match_, center, orders, k, 0);
    RefFits(ref, nextRef);
    hide Fits;
  }

  /** Two prints off the book: at a price no further out than the orders. */
  lemma PrintFits(t: nat, nextRef: nat, match_: nat, center: int, orders: map<nat, Resting>, k: nat,
                  shares: nat, price: int, crossType: byte)
    requires Bounded(nextRef, match_, center, orders, k, 0) && InReach(k) && Fits(t, 6) && shares <= 50000
    requires MID - (k + LEVELS) * TICK <= price <= MID + (k + LEVELS) * TICK
    ensures Encodable(Message(LOC, t, Trade(nextRef, Bid, shares, SYMBOL, price, match_)))
    ensures Encodable(Message(LOC, t, CrossTrade(shares, SYMBOL, price, match_, crossType)))
  {
    BoundedFits(nextRef, match_, center, orders, k, 0);
    hide Fits;
  }

  lemma TouchIsNear(nextRef: nat, match_: nat, center: int, b: Book, k: nat, side: Side, best: Option<int>)
    requires Bounded(nextRef, match_, center, b.orders, k, 0) && Consistent(b) && IsTouch(b, side, best)
    ensures best.Some? ==> MID - (k + LEVELS) * TICK <= best.value <= MID + (k + LEVELS) * TICK
  {
    if best.Some? {
      TouchIsLive(b, side, best.value);
      var r :| r in b.orders && b.orders[r].side == side && b.orders[r].price == best.value;
      assert NearOrder(b.orders[r], k);
    }
  }

  lemma HiddenIsNear(nextRef: nat, match_: nat, center: int, b: Book, k: nat,
                     bid: Option<int>, ask: Option<int>, price: int)
    requires Bounded(nextRef, match_, center, b.orders, k, 0) && Consistent(b)
    requires IsTouch(b, Bid, bid) && IsTouch(b, Ask, ask) && HiddenPrice(bid, ask, price)
    ensures MID - (k + LEVELS) * TICK <= price <= MID + (k + LEVELS) * TICK
  {
    TouchIsNear(nextRef, match_, center, b, k, Bid, bid);
    TouchIsNear(nextRef, match_, center, b, k, Ask, ask);
    hide IsTouch, Consistent, Bounded;
  }

  /** The opening leaves what no turn has touched. */
  lemma SmallIsBounded(nextRef: nat, b: Book)
    requires SmallAndNear(b) && Below(b, nextRef) && nextRef <= 61
    ensures Bounded(nextRef, 1, MID, b.orders, 0, 0)
  {
    FewOrders(b.orders, nextRef);
  }

  /** Everything a reopening auction encodes fits, whatever crossed. */
  predicate AuctionFits(t: nat, nextRef: nat, center: int, match_: nat) {
    Fits(t, 6) && Fits(100 * nextRef, 8) && Fits(center, 4) && Fits(match_, 8)
  }

  lemma SmallAuctionFits(t: nat, nextRef: nat)
    requires Fits(t, 6) && nextRef <= 101
    ensures AuctionFits(t, nextRef, MID, 1)
  {
    assert Pow256(4) == 0x1_0000_0000 && Pow256(8) == 0x1_0000_0000_0000_0000;
  }

  lemma DeleteEncodable(t: nat, nextRef: nat, ref: nat)
    requires Fits(t, 6) && Fits(100 * nextRef, 8) && ref < nextRef
    ensures Encodable(Message(LOC, t, OrderDelete(ref)))
  {
    assert Fits(LOC, 2) by { assert Pow256(2) == 0x1_0000; }
    hide Pow256;
  }

  /** Distinct references below a bound are no more than the bound. */
  lemma {:induction false} FewBelow(refs: seq<nat>, bound: nat)
    requires Distinct(refs) && forall r :: r in refs ==> r < bound
    ensures |refs| <= bound
    decreases bound
  {
    if refs != [] {
      assert refs[0] in refs;
      if k :| 0 <= k < |refs| && refs[k] == bound - 1 {
        var rest := refs[..k] + refs[k + 1..];
        forall i | 0 <= i < |rest|
          ensures rest[i] < bound - 1
        {
          var j := if i < k then i else i + 1;
          assert rest[i] == refs[j] && refs[j] in refs && refs[j] != refs[k];
        }
        FewBelow(rest, bound - 1);
      } else {
        FewBelow(refs, bound - 1);
      }
    }
  }

  /** One price level's queue and share map say what the consumer's book says about that level. */
  ghost predicate Holds(queue: seq<nat>, shares: map<nat, nat>, b: Book, k: PriceKey) {
    && queue == Queue(b, k)
    && (forall r :: r in shares <==> r in queue)
    && (forall r :: r in queue ==> r in b.orders && shares[r] == b.orders[r].shares)
  }

  /** What adding at the back of one level does to that level, and to every other. */
  lemma InsertTouchesOneLevel(queue: seq<nat>, shares: map<nat, nat>, b: Book, ref: nat, k: PriceKey, n: nat, b': Book)
    requires Consistent(b) && Below(b, ref) && Holds(queue, shares, b, k)
    requires b' == Insert(b, ref, k.side, k.price, n)
    ensures Holds(queue + [ref], shares[ref := n], b', k)
    ensures forall j :: j != k ==> Queue(b', j) == Queue(b, j)
    ensures forall r :: r in b.orders && KeyOf(b.orders[r]) != k ==> r in b'.orders && b'.orders[r] == b.orders[r]
  {
    InsertQueues(b, ref, k.side, k.price, n, k);
    forall j | j != k
      ensures Queue(b', j) == Queue(b, j)
    {
      InsertQueues(b, ref, k.side, k.price, n, j);
    }
    forall r | r in queue
      ensures r < ref
    {
      QueuedIsLive(b, k, r);
    }
  }

  lemma EraseTouchesOneLevel(queue: seq<nat>, shares: map<nat, nat>, b: Book, ref: nat, k: PriceKey, b': Book)
    requires Consistent(b) && ref in b.orders && k == KeyOf(b.orders[ref]) && Holds(queue, shares, b, k)
    requires b' == Erase(b, ref)
    ensures Holds(RemoveFirst(queue, ref), shares - {ref}, b', k)
    ensures forall j :: j != k ==> Queue(b', j) == Queue(b, j)
    ensures forall r :: r in b.orders && KeyOf(b.orders[r]) != k ==> r in b'.orders && b'.orders[r] == b.orders[r]
  {
    assert Increasing(Queue(b, k));
    RemoveFirstIncreasing(queue, ref);
    EraseQueues(b, ref, k);
    forall j | j != k
      ensures Queue(b', j) == Queue(b, j)
    {
      EraseQueues(b, ref, j);
    }
  }

  lemma PartialTouchesOneLevel(
      queue: seq<nat>, shares: map<nat, nat>, b: Book, ref: nat, qty: nat, k: PriceKey, b': Book)
    requires Consistent(b) && Live(b, ref, qty) && qty < b.orders[ref].shares
    requires k == KeyOf(b.orders[ref]) && Holds(queue, shares, b, k)
    requires b' == Reduce(b, ref, qty)
    ensures ref in queue && Holds(queue, shares[ref := shares[ref] - qty], b', k)
    ensures forall j :: Queue(b', j) == Queue(b, j)
    ensures forall r :: r in b.orders && KeyOf(b.orders[r]) != k ==> r in b'.orders && b'.orders[r] == b.orders[r]
  {
    assert ref in Queue(b, k);
  }

  /** A price level's FIFO: the references, oldest first, and the shares of each. */
  class Level {
    var queue: seq<nat>
    var shares: map<nat, nat>

    constructor ()
      ensures queue == [] && shares == map[]
    {
      queue, shares := [], map[];
    }

    method Add(ref: nat, n: nat)
      modifies this
      ensures queue == old(queue) + [ref] && shares == old(shares)[ref := n]
    {
      queue := queue + [ref];
      shares := shares[ref := n];
    }

    method Remove(ref: nat)
      modifies this
      ensures queue == RemoveFirst(old(queue), ref) && shares == old(shares) - {ref}
    {
      shares := shares - {ref};
      queue := RemoveFirst(queue, ref);
    }

    method SetShares(ref: nat, n: nat)
      modifies this
      ensures queue == old(queue) && shares == old(shares)[ref := n]
    {
      shares := shares[ref := n];
    }
  }

  class Feed {
    var t: nat
    var match_: nat
    var nextRef: nat
    var center: int
    var levels: map<PriceKey, Level>
    var keys: seq<PriceKey>          // the dictionary's insertion order
    var out: Data
    var emitted: nat
    var halted: bool
    var resumeAt: nat

    ghost var tape: seq<Message>     // what `out` says
    ghost var session: Session       // what a listener has learned from it
    ghost var repr: set<Level>
    ghost var seeded: nat            // messages before the main loop
    ghost var ticked: nat            // messages before the clock last moved
    ghost var refused: Option<Message>  // what the encoder raised on

    /** The bytes are the tape's encoding, and the tape is legal so far. */
    ghost predicate Wire()
      reads `out, `tape, `session, `t, `ticked
    {
      && (forall m :: m in tape ==> Encodable(m))
      && out == EncodeFeed(tape)
      && Legal(tape)
      && session == After(tape)
      && ticked <= |tape| && AllAt(tape[ticked..], t)
    }

    /** Why a run stops with an exception: the tape is legal and would stay so, but the next message has no encoding. */
    ghost predicate Stuck()
      reads `out, `tape, `session, `refused, `t, `ticked
    {
      Wire() && refused.Some? && refused.value.ts == t && Allowed(session, refused.value) && !Encodable(refused.value)
    }

    /** Each key has its own level object. */
    ghost predicate Layout()
      reads `levels, `keys, `repr
    {
      && (forall k :: k in keys <==> k in levels)
      && (forall i, j :: 0 <= i < j < |keys| ==> keys[i] != keys[j])
      && (forall k :: k in levels ==> levels[k] in repr)
      && (forall j, k :: j in levels && k in levels && j != k ==> levels[j] != levels[k])
    }

    /** The generator's levels hold exactly the book `b`, queue by queue. */
    ghost predicate Mirrors(b: Book)
      reads `levels, `keys, `repr, repr
    {
      && Layout()
      && (forall k :: k in levels ==> Holds(levels[k].queue, levels[k].shares, b, k))
      && (forall k :: k !in levels ==> Queue(b, k) == [])
    }

    /** Everything that holds between two messages of every run. */
    ghost predicate Valid()
      reads this, repr
    {
      WeaklyValid() && !session.reopened
    }

    /** The same, also between a reopening cross and its trading action. */
    ghost predicate WeaklyValid()
      reads this, repr
    {
      && Wire()
      && Sound(session)
      && Mirrors(session.book)
      && Settled(session, t, nextRef, match_, center, halted)
      && |tape| == seeded + emitted
    }

    /** What stays put while messages are emitted: the clock, the centre and the halt. */
    ghost function Setting(): (nat, int, bool, nat, nat, nat)
      reads this
    {
      (t, center, halted, resumeAt, seeded, ticked)
    }

    constructor ()
      ensures Initial() && emitted == 0 && seeded == 0
    {
      t, match_, nextRef, center := T0, 1, 1, MID;
      levels, keys, out := map[], [], [];
      emitted, halted, resumeAt := 0, false, 0;
      tape, session, repr, seeded, ticked, refused := [], OPENING, {}, 0, 0, None;
    }

    /** Append one framed message, or raise when a field does not fit. */
    method Emit(body: Body) returns (o: Outcome)
      requires Wire() && Sound(session) && Prepared(session, Message(LOC, t, body))
      modifies this`out, this`tape, this`session, this`emitted, this`refused
      ensures o.Raised? ==> Stuck()
      ensures Wire() && Sound(session)
      ensures o.Pass? <==> Encodable(Message(LOC, t, body))
      ensures var m := Message(LOC, t, body);
        if o.Pass? then tape == old(tape) + [m] && session == Advance(old(session), m) && emitted == old(emitted) + 1
        else tape == old(tape) && session == old(session) && emitted == old(emitted)
    {
      hide Legal, After, EncodeFeed, Encodable, Allowed, Advance, Uncrossed, Sound, Frame, Encode;
      var m := Message(LOC, t, body);
      if !Encodable(m) {
        refused := Some(m);
        return Raised;
      }
      out := out + Frame(Encode(m));
      EncodeFeedAppend(tape, m);
      AdvanceSound(session, m);
      LegalGrows(tape, m);
      assert (tape + [m])[ticked..] == tape[ticked..] + [m];
      tape, session := tape + [m], Advance(session, m);
      emitted := emitted + 1;
      return Pass;
    }

    /** The level at a price, created empty on first use. */
    method Lvl(side: Side, price: int, ghost b: Book) returns (level: Level)
      requires Mirrors(b)
      modifies this`levels, this`keys, this`repr
      ensures Mirrors(b)
      ensures PriceKey(side, price) in levels && level == levels[PriceKey(side, price)]
      ensures old(repr) <= repr && fresh(repr - old(repr))
    {
      var k := PriceKey(side, price);
      if k !in levels {
        level := new Level();
        levels := levels[k := level];
        keys := keys + [k];
        repr := repr + {level};
      }
      level := levels[k];
    }

    /** Changing one level's object, and the book at that level only, keeps the mirror. */
    lemma OneLevelChanged(b: Book, b': Book, k: PriceKey)
      requires Layout() && Consistent(b)
      requires k in levels && Holds(levels[k].queue, levels[k].shares, b', k)
      requires forall j :: j in levels && j != k ==> Holds(levels[j].queue, levels[j].shares, b, j)
      requires forall j :: j !in levels ==> Queue(b, j) == []
      requires forall j :: j != k ==> Queue(b', j) == Queue(b, j)
      requires forall r :: r in b.orders && KeyOf(b.orders[r]) != k ==> r in b'.orders && b'.orders[r] == b.orders[r]
      ensures Mirrors(b')
    {
      forall j | j in levels && j != k
        ensures Holds(levels[j].queue, levels[j].shares, b', j)
      {
        assert Holds(levels[j].queue, levels[j].shares, b, j);
        forall r | r in levels[j].queue
          ensures r in b'.orders && levels[j].shares[r] == b'.orders[r].shares
        {
          QueuedIsLive(b, j, r);
        }
      }
    }

    /** The back of a level's queue takes a new order. */
    method AddTo(level: Level, ref: nat, n: nat, ghost k: PriceKey, ghost b: Book, ghost b': Book)
      requires Mirrors(b) && Consistent(b) && Below(b, ref)
      requires k in levels && level == levels[k]
      requires b' == Insert(b, ref, k.side, k.price, n)
      modifies repr
      ensures Mirrors(b')
    {
      assert Holds(level.queue, level.shares, b, k);
      InsertTouchesOneLevel(level.queue, level.shares, b, ref, k, n, b');
      level.Add(ref, n);
      OneLevelChanged(b, b', k);
    }

    /** The same, creating the level if the price is new. */
    method AddAt(side: Side, price: int, ref: nat, n: nat, ghost b: Book, ghost b': Book)
      requires Mirrors(b) && Consistent(b) && Below(b, ref)
      requires b' == Insert(b, ref, side, price, n)
      modifies this`levels, this`keys, this`repr, repr
      ensures Mirrors(b')
      ensures old(repr) <= repr && fresh(repr - old(repr))
    {
      var level := Lvl(side, price, b);
      AddTo(level, ref, n, PriceKey(side, price), b, b');
    }

    /** An order leaves its level, wherever it stands in the queue. */
    method DropFrom(level: Level, ref: nat, ghost k: PriceKey, ghost b: Book, ghost b': Book)
      requires Mirrors(b) && Consistent(b) && ref in b.orders
      requires k == KeyOf(b.orders[ref]) && k in levels && level == levels[k]
      requires b' == Erase(b, ref)
      modifies repr
      ensures Mirrors(b')
    {
      assert Holds(level.queue, level.shares, b, k);
      EraseTouchesOneLevel(level.queue, level.shares, b, ref, k, b');
      level.Remove(ref);
      OneLevelChanged(b, b', k);
    }

    /** One order leaves its level and another joins the back of a level. */
    method DropAndAdd(level: Level, ref: nat, side: Side, price: int, newRef: nat, n: nat,
                      ghost b: Book, ghost b1: Book, ghost b2: Book)
      requires Mirrors(b) && Consistent(b) && ref in b.orders
      requires KeyOf(b.orders[ref]) in levels && level == levels[KeyOf(b.orders[ref])]
      requires b1 == Erase(b, ref) && Consistent(b1) && Below(b1, newRef)
      requires b2 == Insert(b1, newRef, side, price, n)
      modifies this`levels, this`keys, this`repr, repr
      ensures Mirrors(b2)
      ensures old(repr) <= repr && fresh(repr - old(repr))
    {
      hide Mirrors, Consistent, Below, Erase, Insert;
      DropFrom(level, ref, KeyOf(b.orders[ref]), b, b1);
      AddAt(side, price, newRef, n, b1, b2);
    }

    /** Shares leave an order; the order goes when none are left. */
    method TakeFrom(level: Level, ref: nat, qty: nat, ghost k: PriceKey, ghost b: Book, ghost b': Book)
      requires Mirrors(b) && Consistent(b) && Live(b, ref, qty)
      requires k == KeyOf(b.orders[ref]) && k in levels && level == levels[k]
      requires b' == Reduce(b, ref, qty)
      modifies repr
      ensures Mirrors(b')
    {
      assert Holds(level.queue, level.shares, b, k);
      assert ref in Queue(b, k);
      var have := level.shares[ref];
      if qty >= have {
        DropFrom(level, ref, k, b, b');
      } else {
        PartialTouchesOneLevel(level.queue, level.shares, b, ref, qty, k, b');
        level.SetShares(ref, have - qty);
        OneLevelChanged(b, b', k);
      }
    }

    // ---- one message, with its effect on the levels -----------------------------

    /** 'A' or 'F': a new order joins the back of its level. */
    method Enter(side: Side, shares: nat, price: int, mpid: bool) returns (o: Outcome)
      requires Valid() && shares >= 1 && OnTick(price)
      requires !halted ==> Clear(Resting(side, price, shares), center)
      modifies this, repr
      ensures o.Raised? ==> Stuck()
      ensures old(repr) <= repr && fresh(repr - old(repr))
      ensures Setting() == old(Setting())
      ensures o.Pass? ==>
        Valid() && tape == old(tape) + [Message(LOC, t, AddBody(old(nextRef), side, shares, price, mpid))]
      ensures match_ == old(match_)
      ensures o.Pass? ==> nextRef == old(nextRef) + 1
      ensures o.Pass? ==> session.book == Insert(old(session.book), old(nextRef), side, price, shares)
      ensures Fits(t, 6) && Fits(old(nextRef), 8) && Fits(shares, 4) && Fits(price, 4) ==> o.Pass?
    {
      hide Stuck, Wire, Mirrors, Settled, Prepared, Advance, Consistent, Below, Erase, Insert, Reduce, Encodable;
      hide OldestAtBest, Fits, AddBody, Clear, OnTick, Sound;
      ghost var b := session.book;
      SoundBook(session);
      ghost var b' := Insert(b, nextRef, side, price, shares);
      EnterSettles(session, t, nextRef, match_, center, halted, side, shares, price, mpid);
      AddEncodable(t, nextRef, side, shares, price, mpid);
      :- Emit(AddBody(nextRef, side, shares, price, mpid));
      AddAt(side, price, nextRef, shares, b, b');
      nextRef := nextRef + 1;
      return Pass;
    }

    /** 'E', 'C' or 'X': shares leave one order. */
    method Strike(level: Level, ref: nat, qty: nat, body: Body) returns (o: Outcome)
      requires Valid()
      requires Takes(body, ref, qty, match_)
      requires Live(session.book, ref, qty)
      requires KeyOf(session.book.orders[ref]) in levels && level == levels[KeyOf(session.book.orders[ref])]
      requires !body.OrderCancel? ==> !halted && OldestAtBest(session.book, ref)
      modifies this, repr
      ensures o.Raised? ==> Stuck()
      ensures repr == old(repr) && levels == old(levels) && keys == old(keys)
      ensures Setting() == old(Setting())
      ensures o.Pass? ==> Valid() && tape == old(tape) + [Message(LOC, t, body)]
      ensures o.Pass? ==> session.book == Reduce(old(session.book), ref, qty)
      ensures nextRef == old(nextRef) && (o.Pass? ==> match_ == old(match_) + if body.OrderCancel? then 0 else 1)
      ensures Encodable(Message(LOC, t, body)) ==> o.Pass?
    {
      hide Stuck, Wire, Mirrors, Settled, Prepared, Advance, Consistent, Below, Erase, Insert, Reduce, Encodable;
      hide OldestAtBest, Sound;
      ghost var b := session.book;
      SoundBook(session);
      ghost var b' := Reduce(b, ref, qty);
      StrikeSettles(session, t, nextRef, match_, center, halted, ref, qty, body);
      :- Emit(body);
      TakeFrom(level, ref, qty, KeyOf(b.orders[ref]), b, b');
      if !body.OrderCancel? {
        match_ := match_ + 1;
      }
      return Pass;
    }

    /** 'D': one order leaves. */
    method Pull(level: Level, ref: nat) returns (o: Outcome)
      requires WeaklyValid() && ref in session.book.orders
      requires KeyOf(session.book.orders[ref]) in levels && level == levels[KeyOf(session.book.orders[ref])]
      modifies this, repr
      ensures o.Raised? ==> Stuck()
      ensures repr == old(repr) && levels == old(levels) && keys == old(keys)
      ensures Setting() == old(Setting())
      ensures o.Pass? ==> WeaklyValid() && session.reopened == old(session.reopened)
      ensures o.Pass? ==> tape == old(tape) + [Message(LOC, t, OrderDelete(ref))]
      ensures o.Pass? ==> session.book == Erase(old(session.book), ref)
      ensures nextRef == old(nextRef) && match_ == old(match_)
      ensures Encodable(Message(LOC, t, OrderDelete(ref))) ==> o.Pass?
    {
      hide Stuck, Wire, Mirrors, Settled, Prepared, Advance, Consistent, Below, Erase, Insert, Reduce, Encodable;
      hide OldestAtBest, Sound;
      ghost var b := session.book;
      SoundBook(session);
      ghost var b' := Erase(b, ref);
      PullSettles(session, t, nextRef, match_, center, halted, ref);
      :- Emit(OrderDelete(ref));
      DropFrom(level, ref, KeyOf(b.orders[ref]), b, b');
      return Pass;
    }

    /** 'U': one order leaves and its replacement joins the back of a level on the same side. */
    method SwapOrder(level: Level, ref: nat, side: Side, shares: nat, price: int) returns (o: Outcome)
      requires Valid() && ref in session.book.orders && side == session.book.orders[ref].side
      requires shares >= 1 && OnTick(price) && Clear(Resting(side, price, shares), center)
      requires KeyOf(session.book.orders[ref]) in levels && level == levels[KeyOf(session.book.orders[ref])]
      modifies this, repr
      ensures o.Raised? ==> Stuck()
      ensures old(repr) <= repr && fresh(repr - old(repr))
      ensures Setting() == old(Setting())
      ensures o.Pass? ==>
        Valid() && tape == old(tape) + [Message(LOC, t, OrderReplace(ref, old(nextRef), shares, price))]
      ensures match_ == old(match_) && (o.Pass? ==> nextRef == old(nextRef) + 1)
      ensures o.Pass? ==>
        session.book == Insert(Erase(old(session.book), ref), old(nextRef), side, price, shares)
      ensures Encodable(Message(LOC, t, OrderReplace(ref, old(nextRef), shares, price))) ==> o.Pass?
    {
      hide Stuck, Wire, Mirrors, Settled, Prepared, Advance, Consistent, Below, Erase, Insert, Reduce, Encodable;
      hide OldestAtBest, Sound;
      ghost var b := session.book;
      SoundBook(session);
      ghost var b1 := Erase(b, ref);
      ghost var b' := Insert(b1, nextRef, side, price, shares);
      SwapSettles(session, t, nextRef, match_, center, halted, ref, shares, price);
      hide OnTick, Clear;
      :- Emit(OrderReplace(ref, nextRef, shares, price));
      DropAndAdd(level, ref, side, price, nextRef, shares, b, b1, b');
      nextRef := nextRef + 1;
      return Pass;
    }

    /** 'P', or 'Q' outside a halt: a print that moves no displayed order. */
    method PrintOff(body: Body) returns (o: Outcome)
      requires Valid() && !halted && PrintsOffBook(body, match_)
      modifies `out, `tape, `session, `emitted, `refused, `match_
      ensures o.Raised? ==> Stuck()
      ensures o.Pass? ==> Valid() && tape == old(tape) + [Message(LOC, t, body)]
      ensures o.Pass? ==> session.book == old(session.book) && match_ == old(match_) + 1
      ensures Encodable(Message(LOC, t, body)) ==> o.Pass?
    {
      hide Stuck, Wire, Mirrors, Settled, Prepared, Advance, Consistent, Below, Encodable;
      PrintSettles(session, t, nextRef, match_, center, body);
      :- Emit(body);
      match_ := match_ + 1;
      return Pass;
    }

    // ---- queries ------------------------------------------------------------------

    /** The levels that hold an order, in insertion order. */
    method Populated() returns (live: seq<PriceKey>)
      requires Mirrors(session.book)
      ensures forall k :: k in live <==> Queue(session.book, k) != []
    {
      live := [];
      for i := 0 to |keys|
        invariant forall k :: k in live <==> k in keys[..i] && Queue(session.book, k) != []
      {
        var level := levels[keys[i]];
        assert Holds(level.queue, level.shares, session.book, keys[i]);
        if level.queue != [] {
          live := live + [keys[i]];
        }
      }
      assert keys[..|keys|] == keys;
    }

    /** The best price on one side: populated, and nothing on the side is ahead of it. None if the side is empty. */
    method Touch(side: Side) returns (best: Option<int>)
      requires Mirrors(session.book) && Consistent(session.book)
      ensures IsTouch(session.book, side, best)
    {
      var live := Populated();
      best := None;
      for i := 0 to |live|
        invariant best.None? <==> forall k :: k in live[..i] ==> k.side != side
        invariant best.Some? ==> PriceKey(side, best.value) in live
        invariant best.Some? ==> forall k :: k in live[..i] && k.side == side ==> !Ahead(side, k.price, best.value)
      {
        var k := live[i];
        if k.side == side && (best.None? || Ahead(side, k.price, best.value)) {
          best := Some(k.price);
        }
      }
      assert live[..|live|] == live;
      forall r | best.Some? && r in session.book.orders && session.book.orders[r].side == side
        ensures !Ahead(side, session.book.orders[r].price, best.value)
      {
        assert r in Queue(session.book, KeyOf(session.book.orders[r]));
        assert KeyOf(session.book.orders[r]) in live;
      }
    }

    // ---- the centre takes a step ----------------------------------------------------

    /** Every field of an execution of a resting order fits, for as long as such executions go on. */
    ghost predicate Room()
      reads `t, `nextRef, `match_, `session
    {
      RoomFor(t, nextRef, match_, session.book.orders)
    }

    /** What k whole turns, and i adds since, can have brought about. */
    ghost predicate Bounds(k: nat, i: nat)
      reads `nextRef, `match_, `center, `session
    {
      Bounded(nextRef, match_, center, session.book.orders, k, i)
    }

    /** After k turns, nothing that one more turn can print is too large or too small for its field. */
    ghost predicate Ample(k: nat)
      reads `t, `nextRef, `match_, `center, `session
    {
      Bounds(k, 0) && InReach(k) && Fits(t, 6)
    }

    lemma AmpleIsRoom(k: nat)
      requires Ample(k)
      ensures Room() && AuctionFits(t, nextRef, center, match_)
    {
      BoundedFits(nextRef, match_, center, session.book.orders, k, 0);
      hide Pow256;
    }

    lemma BoundsAdd(turn: nat, i: nat, side: Side, step: int, shares: nat)
      requires Bounds(turn, i) && InReach(turn) && i <= 5 && -LEVELS <= step <= LEVELS && shares <= 500
      ensures Fits(nextRef, 8) && Fits(shares, 4) && Fits(StepFrom(center, side, step), 4)
      ensures Bounded(nextRef + 1, match_, center,
                      Insert(session.book, nextRef, side, StepFrom(center, side, step), shares).orders, turn, i + 1)
    {
      hide Insert, Fits, StepFrom;
      BoundedFits(nextRef, match_, center, session.book.orders, turn, i);
      AddBounded(nextRef, match_, center, session.book, turn, i, side, step, shares);
    }

    /** An add that an ample turn can always encode, and what it leaves. */
    lemma AmpleAdd(k: nat, side: Side, step: int, shares: nat)
      requires Ample(k) && -LEVELS <= step <= LEVELS && shares <= 500
      ensures Fits(t, 6) && Fits(nextRef, 8) && Fits(shares, 4) && Fits(StepFrom(center, side, step), 4)
      ensures Bounded(nextRef + 1, match_, center,
                      Insert(session.book, nextRef, side, StepFrom(center, side, step), shares).orders, k + 1, 0)
    {
      hide Insert, Fits, StepFrom;
      BoundedFits(nextRef, match_, center, session.book.orders, k, 0);
      AddBounded(nextRef, match_, center, session.book, k, 0, side, step, shares);
      NextTurn(nextRef + 1, match_, center,
               Insert(session.book, nextRef, side, StepFrom(center, side, step), shares).orders, k, 1);
    }

    lemma AmpleIdle(turn: nat)
      requires Ample(turn)
      ensures Bounds(turn + 1, 0)
    {
      NextTurn(nextRef, match_, center, session.book.orders, turn, 0);
    }

    lemma IssuedBefore(ref: nat)
      requires Valid() && ref in session.book.orders
      ensures ref < nextRef
    {
      assert Below(session.book, nextRef);
    }

    lemma AmpleStrike(turn: nat, ref: nat, qty: nat, body: Body)
      requires Valid() && Ample(turn) && Live(session.book, ref, qty) && Takes(body, ref, qty, match_)
      requires !body.OrderCancel? ==> ExecutionShape(body, session.book.orders[ref].price)
      ensures Encodable(Message(LOC, t, body))
      ensures Bounded(nextRef, match_ + if body.OrderCancel? then 0 else 1, center,
                      Reduce(session.book, ref, qty).orders, turn + 1, 0)
    {
      IssuedBefore(ref);
      hide Valid, Bounded, Reduce, Fits, Takes, ExecutionShape, Encodable;
      ghost var b := session.book;
      ExecutionFits(t, nextRef, match_, center, b.orders, turn, ref, qty, body);
      ReducedIsLesser(b, ref, qty);
      LesserIsFewer(Reduce(b, ref, qty).orders, b.orders);
      TurnBounded(nextRef, match_, match_ + if body.OrderCancel? then 0 else 1, center, center,
                  b.orders, Reduce(b, ref, qty).orders, turn, 0);
    }

    lemma AmplePull(turn: nat, ref: nat)
      requires Valid() && Ample(turn) && ref in session.book.orders
      ensures Encodable(Message(LOC, t, OrderDelete(ref)))
      ensures Bounded(nextRef, match_, center, Erase(session.book, ref).orders, turn + 1, 0)
    {
      IssuedBefore(ref);
      hide Valid, Bounded, Erase, Fits, Encodable;
      ghost var b := session.book;
      DeleteFits(t, nextRef, match_, center, b.orders, turn, ref);
      ReducedIsLesser(b, ref, 0);
      LesserIsFewer(Erase(b, ref).orders, b.orders);
      TurnBounded(nextRef, match_, match_, center, center, b.orders, Erase(b, ref).orders, turn, 0);
    }

    lemma AmpleSwap(turn: nat, ref: nat, side: Side, step: int, shares: nat)
      requires Valid() && Ample(turn) && ref in session.book.orders && -LEVELS <= step <= LEVELS && shares <= 500
      ensures Encodable(Message(LOC, t, OrderReplace(ref, nextRef, shares, StepFrom(center, side, step))))
      ensures Bounded(nextRef + 1, match_, center,
                      Insert(Erase(session.book, ref), nextRef, side, StepFrom(center, side, step), shares).orders,
                      turn + 1, 0)
    {
      IssuedBefore(ref);
      hide Valid, Bounded, Erase, Insert, Fits, Encodable, StepFrom;
      ReplaceFits(t, nextRef, match_, center, session.book.orders, turn, ref, shares, side, step);
      SwapBounded(nextRef, match_, center, session.book, turn, ref, side, step, shares);
    }

    lemma AmpleCross(turn: nat, side: Side, price: int, shares: nat, crossType: byte)
      requires Valid() && Ample(turn) && shares <= 50000 && IsTouch(session.book, side, Some(price))
      ensures Encodable(Message(LOC, t, CrossTrade(shares, SYMBOL, price, match_, crossType)))
      ensures Bounded(nextRef, match_ + 1, center, session.book.orders, turn + 1, 0)
    {
      assert Consistent(session.book);
      hide Valid, Bounded, Fits, Encodable, IsTouch, Consistent;
      ghost var b := session.book;
      TouchIsNear(nextRef, match_, center, b, turn, side, Some(price));
      PrintFits(t, nextRef, match_, center, b.orders, turn, shares, price, crossType);
      TurnBounded(nextRef, match_, match_ + 1, center, center, b.orders, b.orders, turn, 0);
    }

    lemma AmplePrint(turn: nat, bid: Option<int>, ask: Option<int>, shares: nat, price: int)
      requires Valid() && Ample(turn) && shares <= 50000
      requires IsTouch(session.book, Bid, bid) && IsTouch(session.book, Ask, ask) && HiddenPrice(bid, ask, price)
      ensures Encodable(Message(LOC, t, Trade(nextRef, Bid, shares, SYMBOL, price, match_)))
      ensures Bounded(nextRef, match_ + 1, center, session.book.orders, turn + 1, 0)
    {
      assert Consistent(session.book);
      hide Valid, Bounded, Fits, Encodable, IsTouch, Consistent, HiddenPrice;
      ghost var b := session.book;
      HiddenIsNear(nextRef, match_, center, b, turn, bid, ask, price);
      PrintFits(t, nextRef, match_, center, b.orders, turn, shares, price, 0);
      TurnBounded(nextRef, match_, match_ + 1, center, center, b.orders, b.orders, turn, 0);
    }

    /** Execute the front order of a level at the touch, in full. */
    method TakeFront(level: Level, k: PriceKey) returns (o: Outcome)
      requires Valid() && !halted && k in levels && level == levels[k] && level.queue != []
      requires NoneAhead(session.book, k.side, k.price)
      modifies this, repr
      ensures o.Raised? ==> Stuck()
      ensures old(Room()) ==> o.Pass? && Room()
      ensures nextRef == old(nextRef)
      ensures o.Pass? ==> match_ + |session.book.orders| == old(match_ + |session.book.orders|)
      ensures repr == old(repr) && levels == old(levels) && keys == old(keys)
      ensures Setting() == old(Setting())
      ensures o.Pass? ==> Valid() && Executed(old(tape), tape, t)
      ensures o.Pass? ==> NoneAhead(session.book, k.side, k.price)
      ensures o.Pass? ==> Queue(old(session.book), k) != []
      ensures o.Pass? ==> var ref := Queue(old(session.book), k)[0];
        ref in old(session.book.orders) && KeyOf(old(session.book.orders[ref])) == k
        && session.book.orders == old(session.book.orders) - {ref}
    {
      hide Stuck, Wire, Settled, Encodable, Legal, Below, Consistent, OldestAtBest, RoomFor, Reduce;
      var ref := level.queue[0];
      assert Holds(level.queue, level.shares, session.book, k);
      QueuedIsLive(session.book, k, ref);
      FrontIsOldestAtBest(session.book, k);
      ghost var b := session.book;
      ghost var body := OrderExecuted(ref, level.shares[ref], match_);
      if Room() {
        RoomEncodes(ref);
        RoomShrinks(t, nextRef, match_, b.orders, ref);
      }
      ReduceAll(b, ref);
      OneFewer(b.orders, ref);
      :- Strike(level, ref, level.shares[ref], OrderExecuted(ref, level.shares[ref], match_));
      return Pass;
    }

    lemma RoomEncodes(ref: nat)
      requires WeaklyValid() && Room() && ref in session.book.orders
      ensures Encodable(Message(LOC, t, OrderExecuted(ref, session.book.orders[ref].shares, match_)))
    {
      hide Wire, Mirrors, Consistent, OnGrid, Around, OnTick, Encodable;
      assert Below(session.book, nextRef);
      ExecutionEncodable(t, nextRef, match_, session.book.orders, ref);
    }

    /** Execute a whole level at the touch, front first. */
    method TakeOut(k: PriceKey) returns (o: Outcome)
      requires Valid() && !halted && k in levels && NoneAhead(session.book, k.side, k.price)
      modifies this, repr
      ensures o.Raised? ==> Stuck()
      ensures old(Room()) ==> o.Pass? && Room()
      ensures nextRef == old(nextRef)
      ensures o.Pass? ==> match_ + |session.book.orders| == old(match_ + |session.book.orders|)
      ensures repr == old(repr) && levels == old(levels) && keys == old(keys)
      ensures Setting() == old(Setting())
      ensures o.Pass? ==> Valid() && Executed(old(tape), tape, t)
      ensures o.Pass? ==> session.book.orders == Except(old(session.book.orders), k)
    {
      assert Executed(tape, tape, t);
      hide Stuck, Room, Wire, Settled, Encodable, Legal, Below, Except, Consistent, NoneAhead, Executed;
      var level := levels[k];
      ghost var was := session.book.orders;
      while level.queue != []
        invariant Valid() && repr == old(repr) && levels == old(levels) && keys == old(keys)
        invariant Setting() == old(Setting()) && (old(Room()) ==> Room()) && nextRef == old(nextRef)
        invariant match_ + |session.book.orders| == old(match_ + |session.book.orders|)
        invariant NoneAhead(session.book, k.side, k.price)
        invariant Executed(old(tape), tape, t)
        invariant Except(session.book.orders, k) == Except(was, k)
        decreases |session.book.orders|
      {
        ghost var before := session.book;
        ghost var sofar := tape;
        :- TakeFront(level, k);
        ExecutedThen(old(tape), sofar, tape, t);
        ExceptOne(before.orders, Queue(before, k)[0], k);
      }
      assert Holds(level.queue, level.shares, session.book, k);
      ExceptNone(session.book, k);
      return Pass;
    }

    lemma ExecutedThen(a: seq<Message>, b: seq<Message>, c: seq<Message>, at: nat)
      requires Executed(a, b, at) && Executed(b, c, at)
      ensures Executed(a, c, at)
    {
    }

    /** Take out one level if the new centre would not clear it. */
    method SweepLevel(i: nat, newCenter: int, ghost was: map<nat, Resting>) returns (o: Outcome)
      requires Valid() && !halted && i < |keys|
      requires newCenter == center + TICK || newCenter == center - TICK
      requires Swept(was, session.book.orders, newCenter, keys[..i])
      modifies this, repr
      ensures o.Raised? ==> Stuck()
      ensures old(Room()) ==> o.Pass? && Room()
      ensures nextRef == old(nextRef)
      ensures o.Pass? ==> match_ + |session.book.orders| == old(match_ + |session.book.orders|)
      ensures repr == old(repr) && levels == old(levels) && keys == old(keys)
      ensures Setting() == old(Setting())
      ensures o.Pass? ==> Valid() && Executed(old(tape), tape, t)
      ensures o.Pass? ==> Swept(was, session.book.orders, newCenter, keys[..i + 1])
    {
      hide Stuck, Room, Wire, Encodable, Legal, Below, Swept, Consistent, Except, Executed;
      ghost var now := session.book.orders;
      var k := keys[i];
      var level := levels[k];
      assert Holds(level.queue, level.shares, session.book, k);
      if level.queue != [] && !Clear(Resting(k.side, k.price, 1), newCenter) {
        OneStepReachesOnlyTheTouch(session.book, center, newCenter, k);
        :- TakeOut(k);
        SweepOne(was, now, session.book.orders, newCenter, keys, i);
      } else {
        SweepNone(was, session.book, newCenter, keys, i);
        NothingExecuted(tape, t);
      }
      return Pass;
    }

    /** Step the centre one tick, by executing what stands in the way and nothing else. */
    method MoveCenter(direction: int) returns (o: Outcome)
      requires Valid() && !halted && (direction == 1 || direction == -1)
      modifies this, repr
      ensures o.Raised? ==> Stuck()
      ensures old(Room()) ==> o.Pass? && Room()
      ensures nextRef == old(nextRef)
      ensures o.Pass? ==> match_ + |session.book.orders| == old(match_ + |session.book.orders|)
      ensures repr == old(repr) && levels == old(levels)
      ensures o.Pass? ==> Valid() && center == old(center) + direction * TICK
      ensures t == old(t) && !halted && seeded == old(seeded) && ticked == old(ticked)
      ensures o.Pass? ==> Executed(old(tape), tape, t)
      ensures o.Pass? ==> session.book.orders == Cleared(old(session.book.orders), center)
    {
      hide Stuck, Room, Wire, Encodable, Legal, Below, Consistent, Cleared, Mirrors, Executed;
      var newCenter := center + direction * TICK;
      ghost var was := session.book.orders;
      :- SweepAll(newCenter);
      SweptAll(session.book, was, newCenter);
      center := newCenter;
      return Pass;
    }

    /** Every level that the new centre would not clear is taken out, level by level. */
    method SweepAll(newCenter: int) returns (o: Outcome)
      requires Valid() && !halted && (newCenter == center + TICK || newCenter == center - TICK)
      modifies this, repr
      ensures o.Raised? ==> Stuck()
      ensures old(Room()) ==> o.Pass? && Room()
      ensures nextRef == old(nextRef)
      ensures o.Pass? ==> match_ + |session.book.orders| == old(match_ + |session.book.orders|)
      ensures repr == old(repr) && levels == old(levels) && keys == old(keys)
      ensures Setting() == old(Setting())
      ensures o.Pass? ==> Valid() && Executed(old(tape), tape, t)
      ensures o.Pass? ==> Swept(old(session.book.orders), session.book.orders, newCenter, keys)
    {
      ghost var was := session.book.orders;
      NothingExecuted(tape, t);
      hide Stuck, Room, Valid, Swept, Executed;
      SweepStart(was, newCenter, keys);
      for i := 0 to |keys|
        invariant Valid() && repr == old(repr) && levels == old(levels) && keys == old(keys)
        invariant Setting() == old(Setting()) && (old(Room()) ==> Room()) && nextRef == old(nextRef)
        invariant match_ + |session.book.orders| == old(match_ + |session.book.orders|)
        invariant Executed(old(tape), tape, t)
        invariant Swept(was, session.book.orders, newCenter, keys[..i])
      {
        ghost var sofar := tape;
        :- SweepLevel(i, newCenter, was);
        ExecutedThen(old(tape), sofar, tape, t);
      }
      assert keys[..|keys|] == keys;
      return Pass;
    }

    lemma SweptAll(b: Book, was: map<nat, Resting>, newCenter: int)
      requires Mirrors(b) && Consistent(b) && Swept(was, b.orders, newCenter, keys)
      ensures b.orders == Cleared(was, newCenter) && Around(b, newCenter)
    {
      forall r | r in b.orders
        ensures Clear(b.orders[r], newCenter)
      {
        assert r in Queue(b, KeyOf(b.orders[r]));
        assert KeyOf(b.orders[r]) in keys;
      }
    }

    // ---- halts and the reopening ------------------------------------------------------

    /** 'H': the trading action that starts a halt, or ends one over an uncrossed book. */
    method Action() returns (o: Outcome)
      requires WeaklyValid() && (halted ==> Around(session.book, center))
      modifies `out, `tape, `session, `emitted, `refused, `halted
      ensures o.Raised? ==> Stuck()
      ensures o.Pass? ==> Valid() && halted == !old(halted) && session.book == old(session.book)
      ensures Fits(t, 6) ==> o.Pass?
      ensures o.Pass? ==>
        tape == old(tape) + [Message(LOC, t, TradingAction(SYMBOL, if old(halted) then Ch('T') else Ch('H'), BLANK4))]
    {
      hide Stuck, Wire, Mirrors, Settled, Prepared, Advance, Consistent, Below, Encodable;
      ActionSettles(session, t, nextRef, match_, center, halted);
      ActionEncodable(t, halted);
      :- Emit(TradingAction(SYMBOL, if halted then Ch('T') else Ch('H'), BLANK4));
      halted := !halted;
      return Pass;
    }

    method EnterHalt(span: nat) returns (o: Outcome)
      requires Valid() && !halted && 40 <= span <= 200
      modifies `out, `tape, `session, `emitted, `refused, `halted, `resumeAt
      ensures o.Raised? ==> Stuck()
      ensures o.Pass? ==> Valid() && halted && session.book == old(session.book) && resumeAt == old(emitted) + span
      ensures Fits(t, 6) ==> o.Pass?
      ensures o.Pass? ==> tape == old(tape) + [Message(LOC, t, TradingAction(SYMBOL, Ch('H'), BLANK4))]
    {
      hide Stuck, Wire, Mirrors, Settled, Consistent, Below;
      resumeAt := emitted + span;
      :- Action();
      return Pass;
    }

    /** The references of every order at or through the centre, level by level. */
    method GatherCrossing() returns (crossing: seq<nat>)
      requires Mirrors(session.book) && Consistent(session.book)
      ensures Distinct(crossing)
      ensures forall r :: r in crossing <==> r in session.book.orders && !Clear(session.book.orders[r], center)
      ensures Without(session.book.orders, crossing, |crossing|) == Cleared(session.book.orders, center)
    {
      hide Clear, Without, Cleared, Consistent;
      crossing := [];
      CrossingStart(session.book, center, keys);
      for i := 0 to |keys|
        invariant Crossing(session.book, center, keys[..i], crossing)
      {
        var k := keys[i];
        var level := levels[k];
        assert Holds(level.queue, level.shares, session.book, k);
        CrossingNext(session.book, center, keys, i, crossing);
        assert crossing + [] == crossing;
        if level.queue != [] && !Clear(Resting(k.side, k.price, 1), center) {
          crossing := crossing + level.queue;
        }
      }
      assert keys[..|keys|] == keys;
      CrossingAll(session.book, center, keys, crossing);
    }

    /** Search the levels for the one that holds a live order. */
    method FindLevel(ref: nat) returns (level: Level)
      requires Mirrors(session.book) && Consistent(session.book) && ref in session.book.orders
      ensures KeyOf(session.book.orders[ref]) in levels && level == levels[KeyOf(session.book.orders[ref])]
    {
      hide Consistent, RemoveFirst;
      ghost var home := KeyOf(session.book.orders[ref]);
      OrderIsQueued(session.book, ref);
      assert Holds(levels[home].queue, levels[home].shares, session.book, home);
      var i := 0;
      level := levels[keys[0]];
      while ref !in level.shares
        invariant i < |keys| && level == levels[keys[i]]
        invariant home in keys[i..]
        decreases |keys| - i
      {
        assert keys[i] != home;
        i := i + 1;
        level := levels[keys[i]];
      }
      assert Holds(level.queue, level.shares, session.book, keys[i]);
      QueuedIsLive(session.book, keys[i], ref);
    }

    /** Live references are few enough, and their auction's fields fit. */
    lemma RefsAreFew(crossing: seq<nat>)
      requires WeaklyValid() && AuctionFits(t, nextRef, center, match_) && Distinct(crossing)
      requires forall r :: r in crossing ==> r in session.book.orders
      ensures Encodable(Message(LOC, t, CrossTrade(|crossing| * 100, SYMBOL, center, match_, Ch('H'))))
      ensures forall r :: r in crossing ==> r < nextRef
    {
      assert Below(session.book, nextRef);
      hide Wire, Mirrors, Consistent, OnGrid, Around;
      FewBelow(crossing, nextRef);
      assert Fits(LOC, 2) by { assert Pow256(2) == 0x1_0000; }
      hide Pow256;
    }

    /** Print the reopening cross, then delete every order that crossed. */
    method Uncross(crossing: seq<nat>) returns (o: Outcome)
      requires Valid() && halted && crossing != [] && Distinct(crossing)
      requires forall r :: r in crossing ==> r in session.book.orders
      modifies this, repr
      ensures o.Raised? ==> Stuck()
      ensures nextRef == old(nextRef) && (o.Pass? ==> match_ == old(match_) + 1)
      ensures AuctionFits(t, old(nextRef), center, old(match_)) ==> o.Pass?
      ensures repr == old(repr) && levels == old(levels)
      ensures Setting() == old(Setting())
      ensures o.Pass? ==> WeaklyValid()
      ensures o.Pass? ==> session.book.orders == Without(old(session.book.orders), crossing, |crossing|)
      ensures o.Pass? ==>
        var auction := Message(LOC, t, CrossTrade(|crossing| * 100, SYMBOL, center, old(match_), Ch('H')));
        tape == old(tape) + [auction] + Deletes(t, crossing)
    {
      hide Stuck, Wire, Mirrors, Settled, Prepared, Advance, Consistent, Below, Encodable, Without, Fits, Distinct;
      ghost var fits := AuctionFits(t, nextRef, center, match_);
      if fits { RefsAreFew(crossing); }
      var auction := CrossTrade(|crossing| * 100, SYMBOL, center, match_, Ch('H'));
      ReopenSettles(session, t, nextRef, match_, center, auction);
      :- Emit(auction);
      match_ := match_ + 1;
      :- DeleteAll(crossing, fits);
      return Pass;
    }

    /** A delete for each of some live orders, in order. */
    method DeleteAll(crossing: seq<nat>, ghost fits: bool) returns (o: Outcome)
      requires WeaklyValid() && Distinct(crossing) && forall r :: r in crossing ==> r in session.book.orders
      requires fits ==> Fits(t, 6) && Fits(100 * nextRef, 8)
      modifies this, repr
      ensures o.Raised? ==> Stuck()
      ensures repr == old(repr) && levels == old(levels) && Setting() == old(Setting())
      ensures nextRef == old(nextRef) && match_ == old(match_)
      ensures fits ==> o.Pass?
      ensures o.Pass? ==> WeaklyValid() && tape == old(tape) + Deletes(t, crossing)
      ensures o.Pass? ==> session.book.orders == Without(old(session.book.orders), crossing, |crossing|)
    {
      hide Stuck, Wire, Settled, Prepared, Advance, Below, Encodable, Without, Erase, Fits, Deletes;
      ghost var was, start := session.book.orders, tape;
      WithoutNone(was, crossing);
      NoDeletes(start, t, crossing);
      for i := 0 to |crossing|
        invariant WeaklyValid() && repr == old(repr) && levels == old(levels) && keys == old(keys)
        invariant Setting() == old(Setting()) && nextRef == old(nextRef) && match_ == old(match_)
        invariant session.book.orders == Without(was, crossing, i)
        invariant tape == start + Deletes(t, crossing[..i])
      {
        WithoutNext(was, crossing, i);
        DeletesNext(start, t, crossing, i);
        if fits { LiveDeleteEncodable(crossing[i]); }
        :- DeleteOne(crossing[i]);
      }
      assert crossing[..|crossing|] == crossing;
      return Pass;
    }

    lemma LiveDeleteEncodable(ref: nat)
      requires WeaklyValid() && ref in session.book.orders && Fits(t, 6) && Fits(100 * nextRef, 8)
      ensures Encodable(Message(LOC, t, OrderDelete(ref)))
    {
      hide Wire, Mirrors, Consistent, OnGrid, Around;
      assert Below(session.book, nextRef);
      DeleteEncodable(t, nextRef, ref);
    }

    method DeleteOne(ref: nat) returns (o: Outcome)
      requires WeaklyValid() && ref in session.book.orders
      modifies this, repr
      ensures o.Raised? ==> Stuck()
      ensures repr == old(repr) && levels == old(levels) && keys == old(keys)
      ensures nextRef == old(nextRef) && match_ == old(match_)
      ensures Setting() == old(Setting())
      ensures Encodable(Message(LOC, t, OrderDelete(ref))) ==> o.Pass?
      ensures o.Pass? ==> WeaklyValid() && session.book.orders == old(session.book.orders) - {ref}
      ensures o.Pass? ==> tape == old(tape) + [Message(LOC, t, OrderDelete(ref))]
    {
      hide Stuck, Wire, Mirrors, Settled, Consistent, Below, Encodable;
      var level := FindLevel(ref);
      ErasedOrders(session.book, ref);
      :- Pull(level, ref);
      return Pass;
    }

    /** The resume: one cross if anything crossed, its deletes, and only then the 'T'. */
    method Resume() returns (o: Outcome, ghost crossing: seq<nat>)
      requires Valid() && halted && emitted >= resumeAt
      modifies this, repr
      ensures o.Raised? ==> Stuck()
      ensures AuctionFits(t, old(nextRef), center, old(match_)) ==> o.Pass?
      ensures nextRef == old(nextRef) && (o.Pass? ==> match_ <= old(match_) + 1)
      ensures repr == old(repr) && levels == old(levels)
      ensures Distinct(crossing)
      ensures forall r ::
        r in crossing <==> r in old(session.book.orders) && !Clear(old(session.book.orders[r]), center)
      ensures t == old(t) && center == old(center) && seeded == old(seeded) && ticked == old(ticked)
      ensures o.Pass? ==> Valid() && !halted
      ensures o.Pass? ==> session.book.orders == Cleared(old(session.book.orders), center)
      ensures o.Pass? ==> tape == old(tape) + Reopening(t, crossing, center, old(match_)) && tape != old(tape)
    {
      hide Stuck, Wire, Mirrors, Settled, Prepared, Advance, Consistent, Below, Encodable, Without, Cleared;
      var refs := GatherCrossing();
      crossing := refs;
      ghost var was := session.book.orders;
      if refs != [] {
        o := Uncross(refs);
        if o.Raised? { return; }
      } else {
        WithoutNone(was, refs);
      }
      ClearedAround(session.book, was, center);
      o := Action();
    }

    // ---- the other branches of the main loop ----------------------------------------------

    /** Time passes between messages. */
    method Tick(gap: nat)
      requires Valid() && gap >= 1
      modifies `t, `ticked
      ensures Valid() && old(t) < t <= old(t) + 40 * gap && ticked == |tape|
    {
      hide Valid;
      var far := Rng.Chance();
      var dt: nat;
      if far {
        dt := Rng.RandInt(gap, gap * 40);
      } else {
        dt := Rng.RandInt(1, gap);
      }
      Wait(gap, dt);
    }

    /** The same, once the time is drawn. */
    method Wait(ghost gap: nat, dt: nat)
      requires Valid() && 1 <= dt <= gap * 40
      modifies `t, `ticked
      ensures Valid() && t == old(t) + dt && ticked == |tape|
    {
      hide Stuck, Mirrors, Consistent, Below, Legal, After, EncodeFeed, Encodable;
      t, ticked := t + dt, |tape|;
    }

    /** Several adds at one price and one timestamp. */
    method TieBurst(side: Side, step: int, sizes: seq<nat>, ghost turn: nat) returns (o: Outcome)
      requires Valid() && 1 <= step <= LEVELS && forall n :: n in sizes ==> n >= 1
      modifies this, repr
      ensures o.Raised? ==> Stuck()
      ensures old(repr) <= repr && fresh(repr - old(repr))
      ensures Setting() == old(Setting())
      ensures o.Pass? ==> Valid() && old(tape) <= tape && |tape| == |old(tape)| + |sizes|
      ensures o.Pass? ==> forall i :: 0 <= i < |sizes| ==>
        tape[|old(tape)| + i]
        == Message(LOC, t, AddOrder(old(nextRef) + i, side, sizes[i], SYMBOL, StepFrom(center, side, step)))
      ensures o.Pass? ==> nextRef == old(nextRef) + |sizes|
      ensures old(Ample(turn)) && |sizes| <= 5 && (forall n :: n in sizes ==> n <= 500) ==>
        o.Pass? && Bounds(turn + 1, 0)
    {
      hide Stuck, Wire, Mirrors, Settled, Consistent, Below, Encodable, Bounded, Fits, Insert, Clear;
      var price := StepFrom(center, side, step);
      CenterOnTick();
      StepIsClear(center, side, step);
      ghost var ample := Ample(turn) && |sizes| <= 5 && forall n :: n in sizes ==> n <= 500;
      for i := 0 to |sizes|
        invariant Valid() && old(repr) <= repr && fresh(repr - old(repr))
        invariant Setting() == old(Setting())
        invariant old(tape) <= tape && |tape| == |old(tape)| + i && nextRef == old(nextRef) + i
        invariant forall j :: 0 <= j < i ==>
          tape[|old(tape)| + j] == Message(LOC, t, AddOrder(old(nextRef) + j, side, sizes[j], SYMBOL, price))
        invariant ample ==> Bounds(turn, i) && InReach(turn) && Fits(t, 6)
      {
        assert sizes[i] in sizes;
        if ample { BoundsAdd(turn, i, side, step, sizes[i]); }
        :- Enter(side, sizes[i], price, false);
      }
      if ample { NextTurn(nextRef, match_, center, session.book.orders, turn, |sizes|); }
      return Pass;
    }

    lemma CenterOnTick()
      requires Valid()
      ensures OnTick(center)
    {
    }

    /** An aggressive add during a halt, which may cross the book. */
    method HaltedAdd(side: Side, step: int, shares: nat) returns (o: Outcome)
      requires Valid() && halted && emitted < resumeAt && 0 <= step <= LEVELS && shares >= 1
      modifies this, repr
      ensures o.Raised? ==> Stuck()
      ensures match_ == old(match_) && (o.Pass? ==> nextRef == old(nextRef) + 1)
      ensures old(repr) <= repr && fresh(repr - old(repr))
      ensures Setting() == old(Setting())
      ensures o.Pass? ==>
        && Valid()
        && var price := StepFrom(center, side, -step);
           tape == old(tape) + [Message(LOC, t, AddOrder(old(nextRef), side, shares, SYMBOL, price))]
      ensures o.Pass? ==>
        session.book == Insert(old(session.book), old(nextRef), side, StepFrom(center, side, -step), shares)
      ensures Fits(t, 6) && Fits(old(nextRef), 8) && Fits(shares, 4) && Fits(StepFrom(center, side, -step), 4)
        ==> o.Pass?
    {
      hide Stuck, Valid, Encodable, Insert, Fits, StepFrom;
      CenterOnTick();
      BehindOnTick(center, side, -step);
      o := Enter(side, shares, StepFrom(center, side, -step), false);
    }

    /** A passive add, `step` ticks behind the centre. */
    method PassiveAdd(side: Side, step: int, shares: nat, mpid: bool) returns (o: Outcome)
      requires Valid() && 1 <= step <= LEVELS && shares >= 1
      modifies this, repr
      ensures o.Raised? ==> Stuck()
      ensures old(repr) <= repr && fresh(repr - old(repr))
      ensures Setting() == old(Setting())
      ensures match_ == old(match_) && (o.Pass? ==> nextRef == old(nextRef) + 1)
      ensures o.Pass? ==>
        session.book == Insert(old(session.book), old(nextRef), side, StepFrom(center, side, step), shares)
      ensures Fits(t, 6) && Fits(old(nextRef), 8) && Fits(shares, 4) && Fits(StepFrom(center, side, step), 4)
        ==> o.Pass?
      ensures o.Pass? ==>
        && Valid()
        && var price := StepFrom(center, side, step);
           tape == old(tape) + [Message(LOC, t, AddBody(old(nextRef), side, shares, price, mpid))]
    {
      hide Stuck, Valid, Encodable, Insert, Fits, StepFrom;
      CenterOnTick();
      StepIsClear(center, side, step);
      o := Enter(side, shares, StepFrom(center, side, step), mpid);
    }

    /** Draw the size and the shape of an execution: all of the order or part of it, 'E' or one of the 'C's. */
    method DrawExecution(ref: nat, have: nat, resting: int) returns (qty: nat, body: Body)
      requires have >= 1
      ensures 1 <= qty <= have && Takes(body, ref, qty, match_) && !body.OrderCancel? && ExecutionShape(body, resting)
    {
      qty := have;
      var partial := Rng.Chance();
      if partial { qty := Rng.RandInt(1, have); }
      body := OrderExecuted(ref, qty, match_);
      var priced := Rng.Chance();
      if priced {
        var atResting := Rng.Chance();
        if atResting {
          body := OrderExecutedPrice(ref, qty, match_, true, resting);
        } else {
          var away := Rng.Choice([-2, -1, 1, 2]);
          var printable := Rng.Chance();
          body := OrderExecutedPrice(ref, qty, match_, printable, resting + away * TICK);
        }
      }
    }

    /** A turn that takes shares from one order. */
    method StrikeTurn(level: Level, ref: nat, qty: nat, body: Body, ghost turn: nat) returns (o: Outcome)
      requires Valid() && Takes(body, ref, qty, match_) && Live(session.book, ref, qty)
      requires KeyOf(session.book.orders[ref]) in levels && level == levels[KeyOf(session.book.orders[ref])]
      requires !body.OrderCancel? ==>
        !halted && OldestAtBest(session.book, ref) && ExecutionShape(body, session.book.orders[ref].price)
      modifies this, repr
      ensures o.Raised? ==> Stuck()
      ensures repr == old(repr) && levels == old(levels) && Setting() == old(Setting()) && nextRef == old(nextRef)
      ensures o.Pass? ==> Valid() && tape == old(tape) + [Message(LOC, t, body)]
      ensures old(Ample(turn)) ==> o.Pass? && Bounds(turn + 1, 0)
    {
      hide Valid, Stuck, Ample, Bounded, Takes, Live, KeyOf, OldestAtBest, ExecutionShape, Reduce, Encodable;
      if Ample(turn) { AmpleStrike(turn, ref, qty, body); }
      o := Strike(level, ref, qty, body);
    }

    /** A turn that takes one order away. */
    method PullTurn(level: Level, ref: nat, ghost turn: nat) returns (o: Outcome)
      requires Valid() && ref in session.book.orders
      requires KeyOf(session.book.orders[ref]) in levels && level == levels[KeyOf(session.book.orders[ref])]
      modifies this, repr
      ensures o.Raised? ==> Stuck()
      ensures repr == old(repr) && levels == old(levels) && Setting() == old(Setting()) && nextRef == old(nextRef)
      ensures o.Pass? ==> Valid() && tape == old(tape) + [Message(LOC, t, OrderDelete(ref))]
      ensures old(Ample(turn)) ==> o.Pass? && Bounds(turn + 1, 0)
    {
      hide WeaklyValid, Stuck, Ample, Bounded, KeyOf, Erase, Encodable;
      if Ample(turn) { AmplePull(turn, ref); }
      o := Pull(level, ref);
    }

    /** Execute the front order at the touch of one side, in full or in part. */
    method ExecuteTouch(side: Side, ghost turn: nat) returns (o: Outcome)
      requires Valid() && !halted
      modifies this, repr
      ensures o.Raised? ==> Stuck()
      ensures repr == old(repr) && levels == old(levels)
      ensures Setting() == old(Setting())
      ensures o.Pass? ==> Valid()
      ensures o.Pass? ==> if IsTouch(old(session.book), side, None) then tape == old(tape)
        else OneExecution(old(tape), tape, old(session.book), side)
      ensures nextRef == old(nextRef) && (old(Ample(turn)) ==> o.Pass? && Bounds(turn + 1, 0))
    {
      MirrorsBook();
      if Ample(turn) { AmpleIdle(turn); }
      hide Valid, Stuck, Mirrors, Consistent, Ample, Bounds, IsTouch, OneExecution;
      var best := Touch(side);
      if best.None? { return Pass; }
      o := ExecuteFront(PriceKey(side, best.value), turn);
    }

    /** Execute the front order of the level at the touch. */
    method ExecuteFront(k: PriceKey, ghost turn: nat) returns (o: Outcome)
      requires Valid() && !halted && IsTouch(session.book, k.side, Some(k.price))
      modifies this, repr
      ensures o.Raised? ==> Stuck()
      ensures repr == old(repr) && levels == old(levels)
      ensures Setting() == old(Setting())
      ensures !IsTouch(old(session.book), k.side, None)
      ensures o.Pass? ==> Valid() && OneExecution(old(tape), tape, old(session.book), k.side)
      ensures nextRef == old(nextRef) && (old(Ample(turn)) ==> o.Pass? && Bounds(turn + 1, 0))
    {
      hide Stuck, Wire, Settled, Consistent, Below, OldestAtBest, Reduce, Bounded, Ample, OneExecution;
      LevelIsLive(k);
      FrontIsOldestAtBest(session.book, k);
      hide Valid, Mirrors, IsTouch;
      var level := levels[k];
      var ref := level.queue[0];
      var have := level.shares[ref];
      var qty, body := DrawExecution(ref, have, k.price);
      ghost var b, was := session.book, tape;
      o := StrikeTurn(level, ref, qty, body, turn);
      ExecutedOne(was, b, k.side, ref, Message(LOC, t, body));
    }

    lemma ExecutedOne(was: seq<Message>, b: Book, side: Side, ref: nat, m: Message)
      requires m.body.OrderExecuted? || m.body.OrderExecutedPrice?
      requires m.body.ref == ref && ref in b.orders && b.orders[ref].side == side
      requires ExecutionShape(m.body, b.orders[ref].price)
      ensures OneExecution(was, was + [m], b, side)
    {
    }

    /** What a level that the consumer sees occupied holds. */
    lemma LevelIsLive(k: PriceKey)
      requires Valid() && Queue(session.book, k) != []
      ensures k in levels && levels[k].queue == Queue(session.book, k)
      ensures forall r :: r in levels[k].queue ==>
        && r in levels[k].shares && r in session.book.orders && KeyOf(session.book.orders[r]) == k
        && 1 <= session.book.orders[r].shares == levels[k].shares[r]
    {
      hide Wire, Settled, Consistent;
      assert Holds(levels[k].queue, levels[k].shares, session.book, k);
      forall r | r in levels[k].queue
        ensures r in session.book.orders && KeyOf(session.book.orders[r]) == k && session.book.orders[r].shares >= 1
      {
        QueuedIsLive(session.book, k, r);
      }
    }

    /** Cancel one order of a populated level, in full ('D') or in part ('X'). */
    method CancelAt(k: PriceKey, front: bool, ghost turn: nat) returns (o: Outcome)
      requires Valid() && Queue(session.book, k) != []
      modifies this, repr
      ensures o.Raised? ==> Stuck()
      ensures repr == old(repr) && levels == old(levels)
      ensures Setting() == old(Setting())
      ensures o.Pass? ==> Valid() && OneCancel(old(tape), tape, old(session.book), k)
      ensures o.Pass? && front ==> tape[|old(tape)|].body.ref == Queue(old(session.book), k)[0]
      ensures nextRef == old(nextRef) && (old(Ample(turn)) ==> o.Pass? && Bounds(turn + 1, 0))
    {
      hide Stuck, Valid, Bounded, Ample, Queue, OldestAtBest;
      LevelIsLive(k);
      var level := levels[k];
      var ref := level.queue[0];
      if !front { ref := Rng.Choice(level.queue); }
      var have := level.shares[ref];
      var full := Rng.Chance();
      if full {
        o := PullTurn(level, ref, turn);
      } else {
        var qty: nat := 1;
        if have > 1 { qty := Rng.RandInt(1, have - 1); }
        o := StrikeTurn(level, ref, qty, OrderCancel(ref, qty), turn);
      }
    }

    /** Replace one order of a populated level: the new one joins the back, `step` ticks behind the centre. */
    method ReplaceAt(k: PriceKey, step: int, shares: nat, ghost turn: nat) returns (o: Outcome)
      requires Valid() && Queue(session.book, k) != [] && 1 <= step <= LEVELS && shares >= 1
      modifies this, repr
      ensures o.Raised? ==> Stuck()
      ensures old(repr) <= repr && fresh(repr - old(repr))
      ensures Setting() == old(Setting())
      ensures o.Pass? ==> Valid() && old(tape) < tape && |tape| == |old(tape)| + 1
      ensures o.Pass? ==> var m := tape[|old(tape)|];
        m.body.OrderReplace? && m.body.ref in Queue(old(session.book), k)
        && m == Message(LOC, t, OrderReplace(m.body.ref, old(nextRef), shares, StepFrom(center, k.side, step)))
      ensures o.Pass? ==> nextRef == old(nextRef) + 1
      ensures old(Ample(turn)) && shares <= 500 ==> o.Pass? && Bounds(turn + 1, 0)
    {
      hide Stuck, Wire, Settled, Consistent, Below, Encodable, Bounded, Ample, Insert, Erase;
      ghost var b := session.book;
      var level := levels[k];
      assert Holds(level.queue, level.shares, b, k);
      var ref := Rng.Choice(level.queue);
      QueuedIsLive(b, k, ref);
      CenterOnTick();
      StepIsClear(center, k.side, step);
      if Ample(turn) && shares <= 500 { AmpleSwap(turn, ref, k.side, step, shares); }
      :- SwapOrder(level, ref, k.side, shares, StepFrom(center, k.side, step));
      return Pass;
    }

    /** A hidden trade, with the exact condition under which it prints through a displayed quote. */
    method HiddenTrade(shares: nat, ghost turn: nat)
      returns (o: Outcome, ghost bid: Option<int>, ghost ask: Option<int>)
      requires Valid() && !halted && shares >= 1
      modifies `out, `tape, `session, `emitted, `refused, `match_
      ensures o.Raised? ==> Stuck()
      ensures IsTouch(old(session.book), Bid, bid) && IsTouch(old(session.book), Ask, ask)
      ensures o.Pass? ==> Valid() && old(tape) < tape && |tape| == |old(tape)| + 1
      ensures o.Pass? ==> var body := tape[|old(tape)|].body;
        && body.Trade? && body.shares == shares && body.ref == nextRef && HiddenPrice(bid, ask, body.price)
        && (Through(session.book, body.price) <==> DefaultIsThrough(bid, ask, body.price))
      ensures old(Ample(turn)) && shares <= 50000 ==> o.Pass? && Bounds(turn + 1, 0)
    {
      hide Stuck, Wire, Mirrors, Consistent, Below, Encodable, Through, DefaultIsThrough, Bounded, Ample;
      var b := Touch(Bid);
      var a := Touch(Ask);
      bid, ask := b, a;
      var bestBid := if b.Some? then b.value else MID - TICK;
      var bestAsk := if a.Some? then a.value else MID + TICK;
      var price := bestBid;
      if bestAsk - bestBid >= 2 * TICK {
        price := Rng.RandInt(bestBid + 1, bestAsk - 1);
      } else {
        price := Rng.Choice([bestBid, bestAsk]);
      }
      if Ample(turn) && shares <= 50000 { AmplePrint(turn, b, a, shares, price); }
      o := HiddenTradeAt(shares, price, b, a);
    }

    /** The same, once the price is drawn. */
    method HiddenTradeAt(shares: nat, price: int, ghost bid: Option<int>, ghost ask: Option<int>) returns (o: Outcome)
      requires Valid() && !halted && shares >= 1
      requires IsTouch(session.book, Bid, bid) && IsTouch(session.book, Ask, ask) && HiddenPrice(bid, ask, price)
      modifies `out, `tape, `session, `emitted, `refused, `match_
      ensures o.Raised? ==> Stuck()
      ensures Encodable(Message(LOC, t, Trade(nextRef, Bid, shares, SYMBOL, price, old(match_)))) ==> o.Pass?
      ensures o.Pass? ==> Valid() && session.book == old(session.book) && match_ == old(match_) + 1
      ensures o.Pass? ==> tape == old(tape) + [Message(LOC, t, Trade(nextRef, Bid, shares, SYMBOL, price, old(match_)))]
      ensures Through(old(session.book), price) <==> DefaultIsThrough(bid, ask, price)
    {
      hide Stuck, Wire, Mirrors, Consistent, Below, Encodable, Through, DefaultIsThrough, IsTouch, HiddenPrice;
      HiddenPrintThrough(session.book, center, bid, ask, price);
      o := PrintOff(Trade(nextRef, Bid, shares, SYMBOL, price, match_));
    }

    /** A cross printed at the touch of one side. */
    method CrossAtTouch(side: Side, shares: nat, crossType: byte, ghost turn: nat) returns (o: Outcome)
      requires Valid() && !halted && crossType in {Ch('O'), Ch('C')}
      modifies `out, `tape, `session, `emitted, `refused, `match_
      ensures o.Raised? ==> Stuck()
      ensures o.Pass? ==> Valid() && old(tape) <= tape && |tape| <= |old(tape)| + 1
      ensures o.Pass? && tape == old(tape) ==> IsTouch(old(session.book), side, None)
      ensures o.Pass? && tape != old(tape) ==> var body := tape[|old(tape)|].body;
        && body.CrossTrade? && IsTouch(old(session.book), side, Some(body.price))
        && tape == old(tape) + [Message(LOC, t, CrossTrade(shares, SYMBOL, body.price, old(match_), crossType))]
      ensures old(Ample(turn)) && shares <= 50000 ==> o.Pass? && Bounds(turn + 1, 0)
    {
      hide Stuck, Wire, Mirrors, Settled, Consistent, Below, Encodable, Bounded, Ample;
      if Ample(turn) { AmpleIdle(turn); }
      var best := Touch(side);
      if best.None? { return Pass; }
      if Ample(turn) && shares <= 50000 { AmpleCross(turn, side, best.value, shares, crossType); }
      :- PrintOff(CrossTrade(shares, SYMBOL, best.value, match_, crossType));
      return Pass;
    }

    // ---- the program ------------------------------------------------------------------------

    method Note(body: Body) returns (o: Outcome)
      requires Valid() && !halted && (body.SystemEvent? || body.StockDirectory?)
      modifies `out, `tape, `session, `emitted, `refused
      ensures o.Raised? ==> Stuck()
      ensures o.Pass? ==> Valid() && session.book == old(session.book) && tape == old(tape) + [Message(LOC, t, body)]
      ensures Fits(t, 6) && EncodableBody(body) ==> o.Pass?
    {
      hide Stuck, Wire, Mirrors, Settled, Prepared, Advance, Consistent, Below;
      NoteSettles(session, t, nextRef, match_, center, body);
      :- Emit(body);
      return Pass;
    }

    /** Before anything is emitted. */
    ghost predicate Initial()
      reads this, repr
    {
      && Valid() && tape == [] && t == T0 && nextRef == 1 && match_ == 1 && center == MID && !halted && repr == {}
      && session.book == EMPTY
    }

    /** What holds between two orders of the opening. */
    ghost predicate Begun()
      reads `t, `nextRef, `match_, `center, `halted, `tape, `session
    {
      && center == MID && !halted && match_ == 1
      && Opens(tape) && nextRef == |tape| - 2 && SmallAndNear(session.book)
    }

    /** One order of the opening. */
    method SeedOrder(side: Side, step: int, gap: nat) returns (o: Outcome)
      requires Valid() && Begun() && gap >= 1 && 1 <= step <= LEVELS
      modifies this, repr
      ensures o.Raised? ==> Stuck()
      ensures old(repr) <= repr && fresh(repr - old(repr))
      ensures o.Pass? ==> Valid() && Begun() && nextRef == old(nextRef) + 1 && old(t) <= t <= old(t) + 40 * gap
      ensures o.Pass? ==> OnlyAt(old(session.book), session.book, SeedKey(side, step))
      ensures o.Pass? ==>
        |Queue(session.book, SeedKey(side, step))| == |Queue(old(session.book), SeedKey(side, step))| + 1
      ensures Fits(old(t) + 40 * gap, 6) && Fits(old(nextRef) + 1, 8) ==> o.Pass?
    {
      hide Stuck, Wire, Mirrors, Settled, Consistent, Below, Encodable, Insert, OnlyAt, SmallAndNear, Opens;
      var price := StepFrom(MID, side, step);
      StepIsClear(MID, side, step);
      Tick(gap);
      var shares := Rng.Choice([100, 100, 200, 300, 500]);
      ghost var b, was := session.book, tape;
      assert Pow256(4) == 0x1_0000_0000;
      :- Enter(side, shares, price, false);
      OpensOn(was, tape[|was|]);
      assert tape == was + [tape[|was|]];
      InsertKeepsSmall(b, nextRef - 1, side, step, shares);
      OneMoreQueued(b, nextRef - 1, side, step, shares);
      return Pass;
    }

    /** Two to five orders at one level, each at its own time. */
    method SeedLevel(side: Side, step: int, gap: nat) returns (o: Outcome)
      requires Valid() && Begun() && gap >= 1 && 1 <= step <= LEVELS
      requires Queue(session.book, SeedKey(side, step)) == []
      modifies this, repr
      ensures o.Raised? ==> Stuck()
      ensures old(repr) <= repr && fresh(repr - old(repr))
      ensures o.Pass? ==> Valid() && Begun()
      ensures o.Pass? ==> old(nextRef) + 2 <= nextRef <= old(nextRef) + 5 && old(t) <= t <= old(t) + Laps(gap, 5)
      ensures o.Pass? ==> OnlyAt(old(session.book), session.book, SeedKey(side, step))
      ensures o.Pass? ==> 2 <= |Queue(session.book, SeedKey(side, step))| <= 5
      ensures Fits(old(t) + Laps(gap, 5), 6) && Fits(old(nextRef) + 5, 8) ==> o.Pass?
    {
      hide Stuck, Valid, Begun, OnlyAt, Queue, Fits, Laps;
      ghost var b := session.book;
      var count := Rng.RandInt(2, 5);
      LapsNext(gap, 0);
      assert OnlyAt(b, b, SeedKey(side, step)) by { OnlyAtItself(b, SeedKey(side, step)); }
      for i := 0 to count
        invariant Valid() && Begun() && old(repr) <= repr && fresh(repr - old(repr))
        invariant nextRef == old(nextRef) + i && old(t) <= t <= old(t) + Laps(gap, i)
        invariant |Queue(session.book, SeedKey(side, step))| == i && OnlyAt(b, session.book, SeedKey(side, step))
      {
        ghost var was := session.book;
        LapsNext(gap, i);
        LapsUpTo(gap, i + 1, 5);
        FitsLess(t + 40 * gap, old(t) + Laps(gap, 5), 6);
        FitsLess(nextRef + 1, old(nextRef) + 5, 8);
        :- SeedOrder(side, step, gap);
        OnlyAtThen(b, was, session.book, SeedKey(side, step));
      }
      LapsUpTo(gap, count, 5);
      return Pass;
    }

    /** The session opens and both sides are stocked, level by level, before the main loop counts anything. */
    method Seed(gap: nat) returns (o: Outcome)
      requires Initial() && gap >= 1
      modifies this
      ensures o.Raised? ==> Stuck()
      ensures fresh(repr)
      ensures o.Pass? ==> Valid() && Begun() && emitted == 0
      ensures o.Pass? ==> Stocked(session.book, Bid, LEVELS) && Stocked(session.book, Ask, LEVELS)
      ensures o.Pass? ==> Bare(session.book, Bid, LEVELS + 1) && Bare(session.book, Ask, LEVELS + 1)
      ensures o.Pass? ==> 25 <= nextRef <= 61 && T0 <= t <= T0 + Laps(gap, 60)
      ensures Fits(T0 + Laps(gap, 60), 6) ==> o.Pass?
    {
      hide Stuck, Valid, Begun, Stocked, Bare, SameSide, Fits, Pow256, Laps;
      Announce();
      NothingYet(EMPTY, Bid);
      NothingYet(EMPTY, Ask);
      SeedFits(t, nextRef, gap);
      :- SeedSide(Bid, gap);
      ghost var bids := session.book;
      KeptOnSide(EMPTY, bids, Ask, 0, 1);
      SeedFits(t, nextRef, gap);
      :- SeedSide(Ask, gap);
      KeptOnSide(bids, session.book, Bid, LEVELS, LEVELS + 1);
      Count();
      return Pass;
    }

    /** The main loop counts its own messages from here. */
    method Count()
      requires Valid()
      modifies `emitted, `seeded
      ensures Valid() && emitted == 0
    {
      hide Wire, Mirrors, Settled, Sound;
      emitted, seeded := 0, |tape|;
    }

    /** The opening time always fits its field, so these three cannot raise. */
    method Announce()
      requires Initial()
      modifies `out, `tape, `session, `emitted, `refused
      ensures Valid() && Begun() && session.book == EMPTY
    {
      hide Stuck, Valid, SmallAndNear, Pow256, Wire, Settled, Mirrors, Fits, EncodableBody, Opens;
      AnnouncementsFit();
      var o := Note(SystemEvent(Ch('O')));
      o := Note(StockDirectory(SYMBOL));
      o := Note(SystemEvent(Ch('Q')));
      AnnouncementsOpen(tape);
    }

    lemma AnnouncementsFit()
      ensures SmallAndNear(EMPTY) && Fits(T0, 6)
      ensures EncodableBody(SystemEvent(Ch('O'))) && EncodableBody(StockDirectory(SYMBOL))
      ensures EncodableBody(SystemEvent(Ch('Q')))
    {
    }

    lemma AnnouncementsOpen(ms: seq<Message>)
      requires |ms| == 3 && ms[0].body == SystemEvent(Ch('O')) && ms[1].body == StockDirectory(SYMBOL)
      requires ms[2].body == SystemEvent(Ch('Q'))
      ensures Opens(ms)
    {
    }

    method SeedSide(side: Side, gap: nat) returns (o: Outcome)
      requires Valid() && Begun() && gap >= 1 && Bare(session.book, side, 1)
      modifies this, repr
      ensures o.Raised? ==> Stuck()
      ensures old(repr) <= repr && fresh(repr - old(repr))
      ensures o.Pass? ==> Valid() && Begun() && old(nextRef) + 12 <= nextRef <= old(nextRef) + 30
      ensures o.Pass? ==> old(t) <= t <= old(t) + Laps(gap, 30)
      ensures o.Pass? ==> Stocked(session.book, side, LEVELS) && Bare(session.book, side, LEVELS + 1)
      ensures o.Pass? ==> SameSide(old(session.book), session.book, OtherSide(side))
      ensures Fits(old(t) + Laps(gap, 30), 6) && Fits(old(nextRef) + 30, 8) ==> o.Pass?
    {
      hide Stuck, Valid, Begun, Stocked, SameSide, OnlyAt, Queue, Fits, Laps;
      ghost var b := session.book;
      NothingYet(b, side);
      NothingYet(b, OtherSide(side));
      LapsNext(gap, 0);
      for step := 1 to LEVELS + 1
        invariant Valid() && Begun() && old(repr) <= repr && fresh(repr - old(repr))
        invariant old(nextRef) + 2 * (step - 1) <= nextRef <= old(nextRef) + 5 * (step - 1)
        invariant old(t) <= t <= old(t) + Laps(gap, 5 * (step - 1))
        invariant Stocked(session.book, side, step - 1) && Bare(session.book, side, step)
        invariant SameSide(b, session.book, OtherSide(side))
      {
        ghost var was := session.book;
        LapsAdd(gap, 5 * (step - 1), 5);
        LapsUpTo(gap, 5 * step, 30);
        FitsLess(t + Laps(gap, 5), old(t) + Laps(gap, 30), 6);
        FitsLess(nextRef + 5, old(nextRef) + 30, 8);
        :- SeedLevel(side, step, gap);
        StockedNext(b, was, session.book, side, step);
      }
      return Pass;
    }

    lemma SeedFits(at: nat, ref: nat, gap: nat)
      requires at <= T0 + Laps(gap, 30) && ref <= 31
      ensures Laps(gap, 30) + Laps(gap, 30) == Laps(gap, 60)
      ensures Fits(T0 + Laps(gap, 60), 6) ==> Fits(at + Laps(gap, 30), 6) && Fits(ref + 30, 8)
    {
    }

    lemma OpensWithoutTrades()
      requires Begun()
      ensures TradesNamed(tape, nextRef) && |tape| >= 2 && tape[1].body == StockDirectory(SYMBOL)
      ensures Opens(tape) && tape[..|tape|] == tape
    {
    }

    lemma FewReferences(turn: nat, turns: nat)
      requires Valid() && Bounds(turn, 0) && TradesNamed(tape, nextRef) && turn <= turns
      ensures After(tape).nextRef == nextRef <= 61 + 5 * turns && TradesNamed(tape, 61 + 5 * turns)
    {
      assert session.nextRef == nextRef;
      hide Mirrors, Sound, Legal, After;
      forall i | 0 <= i < |tape|
        ensures Named(tape[i].body, 61 + 5 * turns)
      {
        assert Named(tape[i].body, nextRef);
      }
    }

    lemma BoundedAfterSeed()
      requires Valid() && Begun() && nextRef <= 61
      ensures Bounds(0, 0)
    {
      assert Below(session.book, nextRef);
      hide Wire, Mirrors, Settled, Sound, SmallAndNear, Bounded;
      SmallIsBounded(nextRef, session.book);
    }

    lemma BegunAt()
      requires Begun()
      ensures center == MID && !halted && match_ == 1 && SmallAndNear(session.book)
    {
    }

    lemma AllCounted()
      requires Valid()
      ensures |tape| == seeded + emitted
    {
    }

    lemma AfterTape()
      requires Valid()
      ensures Legal(tape) && session == After(tape) && session.lastTs <= t
    {
    }

    /** Outside a halt every order is clear of the centre. */
    lemma AroundCenter()
      requires Valid() && !halted
      ensures Around(session.book, center) && Consistent(session.book) && Below(session.book, nextRef)
    {
    }

    lemma NoneCrosses()
      requires Valid() && !halted
      ensures DoubleLots(session.book, center)
    {
    }

    lemma RoomAfterSeed()
      requires Valid() && Begun() && nextRef <= 61 && Fits(t, 6)
      ensures Room()
    {
      AroundCenter();
      FewOrders(session.book.orders, nextRef);
      hide Wire, Mirrors, Settled, Sound;
      assert Pow256(4) == 0x1_0000_0000 && Pow256(8) == 0x1_0000_0000_0000_0000;
    }

    method BestBid() returns (best: Option<int>)
      requires Valid()
      ensures IsTouch(session.book, Bid, best) && Consistent(session.book)
    {
      hide Wire, Settled, IsTouch;
      best := Touch(Bid);
    }

    // ---- four runs ----------------------------------------------------------------------------

    /** The longest wait a draw allows, and the first order of the opening. */
    method FirstOrderLate(gap: nat) returns (o: Outcome)
      requires Initial() && gap >= 1 && !Fits(T0 + 40 * gap, 6)
      modifies this
      ensures o.Raised? && Stuck() && t == T0 + 40 * gap
    {
      hide Valid, Initial, Begun, Stuck, Fits, Insert;
      StartsAtT0();
      Announce();
      BegunAt();
      Wait(gap, 40 * gap);
      StepIsClear(MID, Bid, 1) by { assert OnTick(MID); }
      o := Enter(Bid, 100, StepFrom(MID, Bid, 1), false);
      if o.Pass? { LastFits(); }
    }

    lemma StartsAtT0()
      requires Initial()
      ensures t == T0 && repr == {}
    {
    }

    lemma LastFits()
      requires Valid() && tape != []
      ensures Fits(tape[|tape| - 1].ts, 6)
    {
      assert tape[|tape| - 1] in tape;
    }

    /** A halt during which a bid is entered two ticks through the centre, above the best ask. */
    method CrossInHalt(gap: nat)
      requires Initial() && 1 <= gap <= 1000000000
      modifies this
      ensures fresh(repr)
      ensures Valid() && halted && Crossed(session.book) && Fits(t, 6)
    {
      hide Valid, Initial, Begun, Stocked, Fits, Pow256, Crossed, Stuck, Laps;
      RunFits(gap, 60, T0 + Laps(gap, 60), 0);
      var o := Seed(gap);
      BegunAt();
      ghost var ask := BestAskAfterSeed();
      EnterCrossed(gap, ask);
    }

    method EnterCrossed(gap: nat, ghost ask: nat)
      requires Valid() && !halted && center == MID && 1 <= gap <= 1000000000 && nextRef <= 61 && t <= T0 + Laps(gap, 60)
      requires ask in session.book.orders && ask < nextRef
      requires KeyOf(session.book.orders[ask]) == PriceKey(Ask, MID + TICK)
      modifies this, repr
      ensures old(repr) <= repr && fresh(repr - old(repr))
      ensures Valid() && halted && Crossed(session.book) && Fits(t, 6)
    {
      hide Valid, Fits, Pow256, Crossed, Stuck, Laps, Insert;
      LapsNext(gap, 60);
      Tick(gap);
      RunFits(gap, 61, t, nextRef);
      AllCounted();
      var o := EnterHalt(40);
      AllCounted();
      LapsNext(gap, 61);
      Tick(gap);
      RunFits(gap, 62, t, nextRef);
      CrossedByInsert(session.book, ask, nextRef);
      o := HaltedAdd(Bid, 2, 100);
    }

    /** Thirty-nine orders of 200 shares each entered through the centre while halted, until the resume is due. */
    method DoubleInHalt(gap: nat)
      requires Initial() && 1 <= gap <= 1000000000
      modifies this
      ensures fresh(repr)
      ensures Valid() && halted && emitted >= resumeAt && center == MID && match_ == 1 && nextRef <= 100
      ensures DoubleLots(session.book, MID) && SomeCrosses(session.book, MID) && T0 <= t <= T0 + Laps(gap, 100)
    {
      hide Valid, Initial, Begun, Stocked, Fits, Pow256, Stuck, DoubleLots, SomeCrosses, SmallAndNear, Laps;
      RunFits(gap, 60, T0 + Laps(gap, 60), 0);
      var o := Seed(gap);
      BegunAt();
      LapsNext(gap, 60);
      Tick(gap);
      RunFits(gap, 61, t, nextRef);
      NoneCrosses();
      AllCounted();
      o := EnterHalt(40);
      AllCounted();
      EnterDoubles(gap);
    }

    method EnterDoubles(gap: nat)
      requires Valid() && halted && center == MID && match_ == 1 && 1 <= gap <= 1000000000
      requires nextRef <= 61 && T0 <= t <= T0 + Laps(gap, 61) && resumeAt + 1 == emitted + 40
      requires DoubleLots(session.book, MID)
      modifies this, repr
      ensures old(repr) <= repr && fresh(repr - old(repr))
      ensures Valid() && halted && emitted >= resumeAt && center == MID && match_ == 1 && nextRef <= 100
      ensures DoubleLots(session.book, MID) && SomeCrosses(session.book, MID) && T0 <= t <= T0 + Laps(gap, 100)
    {
      hide Valid, Fits, Pow256, Stuck, DoubleLots, SomeCrosses, Laps;
      AllCounted();
      for i := 0 to 39
        invariant Valid() && old(repr) <= repr && fresh(repr - old(repr))
        invariant halted && center == MID && match_ == 1 && nextRef <= 61 + i
        invariant T0 <= t <= T0 + Laps(gap, 61 + i)
        invariant resumeAt + 1 == |tape| + 40 - i - seeded
        invariant DoubleLots(session.book, MID) && (i > 0 ==> SomeCrosses(session.book, MID))
      {
        AllCounted();
        EnterDouble(gap, i);
      }
      AllCounted();
    }

    /** One more order of two round lots through the centre. */
    method EnterDouble(gap: nat, ghost i: nat)
      requires Valid() && halted && center == MID && 1 <= gap <= 1000000000
      requires emitted < resumeAt && DoubleLots(session.book, MID)
      requires nextRef <= 61 + i && i < 39 && T0 <= t <= T0 + Laps(gap, 61 + i)
      modifies this, repr
      ensures old(repr) <= repr && fresh(repr - old(repr))
      ensures Valid() && halted && center == MID && match_ == old(match_) && nextRef == old(nextRef) + 1
      ensures T0 <= t <= T0 + Laps(gap, 61 + i + 1) && |tape| == |old(tape)| + 1
      ensures resumeAt == old(resumeAt) && seeded == old(seeded)
      ensures DoubleLots(session.book, MID) && SomeCrosses(session.book, MID)
    {
      hide Valid, Fits, Pow256, Stuck, DoubleLots, SomeCrosses, Laps, Insert;
      LapsNext(gap, 61 + i);
      Tick(gap);
      RunFits(gap, 61 + i + 1, t, nextRef);
      DoubleLotsNext(session.book, nextRef);
      var o := HaltedAdd(Bid, 2, 200);
    }

    /** The resume that is due: its auction prints half of what leaves the book. */
    method Misprint(gap: nat) returns (ghost crossing: seq<nat>)
      requires Valid() && halted && emitted >= resumeAt && center == MID && match_ == 1 && nextRef <= 100
      requires DoubleLots(session.book, MID) && SomeCrosses(session.book, MID)
      requires 1 <= gap <= 1000000000 && T0 <= t <= T0 + Laps(gap, 100)
      modifies this, repr
      ensures Valid() && old(t) < t && crossing != [] && tape == old(tape) + Reopening(t, crossing, MID, 1)
      ensures forall r :: r in crossing ==> r in old(session.book.orders)
      ensures Reopening(t, crossing, MID, 1)[0].body.shares != SharesOf(old(session.book.orders), crossing)
    {
      hide Valid, Fits, Pow256, AuctionFits, Stuck, DoubleLots, SomeCrosses, Reopening, SharesOf, Distinct, Cleared;
      hide Laps;
      LapsNext(gap, 100);
      Tick(gap);
      RunFits(gap, 101, t, nextRef);
      SmallAuctionFits(t, nextRef);
      ghost var b := session.book;
      var o;
      o, crossing := Resume();
      DoubleVolume(b, crossing, t);
    }

    /** Six steps up take out every ask, and a bid follows the centre. */
    method ClimbPastAsks(gap: nat)
      requires Initial() && 1 <= gap <= 1000000000
      modifies this
      ensures fresh(repr)
      ensures Valid() && !halted && IsTouch(session.book, Ask, None)
      ensures exists ref :: ref in session.book.orders && KeyOf(session.book.orders[ref]) == HIGH_BID
      ensures T0 <= t <= T0 + Laps(gap, 67) && nextRef <= 62 && Fits(match_, 8)
    {
      hide Valid, Initial, Begun, Stocked, Fits, Pow256, Stuck, SmallAndNear, RoomFor, IsTouch, Laps, Encodable;
      RunFits(gap, 60, T0 + Laps(gap, 60), 0);
      var o := Seed(gap);
      BegunAt();
      RunFits(gap, 60, t, nextRef);
      RoomAfterSeed();
      for i := 0 to 6
        invariant Valid() && fresh(repr) && !halted && center == MID + i * TICK && nextRef <= 61
        invariant T0 <= t <= T0 + Laps(gap, 60 + i)
        invariant Room() && SmallAndNear(session.book)
      {
        StepUp(gap, i);
      }
      FollowUp(gap);
    }

    method StepUp(gap: nat, ghost i: nat)
      requires Valid() && !halted && 1 <= gap <= 1000000000 && Room() && SmallAndNear(session.book)
      requires T0 <= t <= T0 + Laps(gap, 60 + i) && i < 6
      modifies this, repr
      ensures Valid() && !halted && center == old(center) + TICK && nextRef == old(nextRef) && repr == old(repr)
      ensures T0 <= t <= T0 + Laps(gap, 60 + i + 1) && Room() && SmallAndNear(session.book)
    {
      hide Valid, Fits, Pow256, Stuck, SmallAndNear, RoomFor, Laps, Cleared, Executed;
      LapsNext(gap, 60 + i);
      ghost var b, was := session.book, t;
      Tick(gap);
      RunFits(gap, 60 + i + 1, t, 0);
      RoomLater(was, t, nextRef, match_, b.orders);
      var o := MoveCenter(1);
      ClearedIsSmall(b, session.book, center);
    }

    /** A bid one tick behind the centre, six ticks up. */
    method FollowUp(gap: nat)
      requires Valid() && !halted && center == MID + 6 * TICK && nextRef <= 61 && Room() && SmallAndNear(session.book)
      requires 1 <= gap <= 1000000000 && T0 <= t <= T0 + Laps(gap, 66)
      modifies this, repr
      ensures old(repr) <= repr && fresh(repr - old(repr))
      ensures Valid() && !halted && IsTouch(session.book, Ask, None)
      ensures exists ref :: ref in session.book.orders && KeyOf(session.book.orders[ref]) == HIGH_BID
      ensures T0 <= t <= T0 + Laps(gap, 67) && nextRef <= 62 && Fits(match_, 8)
    {
      hide Valid, Fits, Pow256, Stuck, SmallAndNear, RoomFor, IsTouch, Encodable, Insert, Around, Consistent, Below;
      hide Laps;
      LapsNext(gap, 66);
      AddFits(t, nextRef, match_, session.book.orders);
      Tick(gap);
      RunFits(gap, 67, t, nextRef);
      AroundCenter();
      AsksAreGone(session.book, nextRef);
      var o := PassiveAdd(Bid, 1, 100, false);
    }

    /** A hidden trade at the default of the empty side. */
    method PrintDefault(gap: nat) returns (ghost bid: Option<int>)
      requires Valid() && !halted && IsTouch(session.book, Ask, None)
      requires exists ref :: ref in session.book.orders && KeyOf(session.book.orders[ref]) == HIGH_BID
      requires 1 <= gap <= 1000000000 && T0 <= t <= T0 + Laps(gap, 67) && nextRef <= 62 && Fits(match_, 8)
      modifies `t, `ticked, `out, `tape, `session, `emitted, `refused, `match_
      ensures Valid() && tape != [] && tape[|tape| - 1].body.Trade? && tape[|tape| - 1].body.price == MID + TICK
      ensures IsTouch(session.book, Bid, bid) && IsTouch(session.book, Ask, None) && HiddenPrice(bid, None, MID + TICK)
      ensures Through(session.book, MID + TICK)
    {
      hide Valid, IsTouch, Through, HiddenPrice, DefaultIsThrough, Encodable, Stuck, Laps, Fits;
      LapsNext(gap, 67);
      Tick(gap);
      RunFits(gap, 68, t, nextRef);
      HiddenEncodable(t, nextRef, match_);
      var best := BestBid();
      BidAbove(session.book, best);
      bid := best;
      var o := HiddenTradeAt(100, MID + TICK, best, None);
    }

    lemma BestAskAfterSeed() returns (ask: nat)
      requires Valid() && Stocked(session.book, Ask, LEVELS)
      ensures ask in session.book.orders && ask < nextRef
      ensures KeyOf(session.book.orders[ask]) == PriceKey(Ask, MID + TICK)
    {
      var k := SeedKey(Ask, 1);
      ask := Queue(session.book, k)[0];
      QueuedIsLive(session.book, k, ask);
    }

    ghost function Recorded(): map<PriceKey, LevelState>
      reads `levels, `repr, repr
    {
      map k | k in levels && levels[k] in repr :: LevelState(levels[k].queue, levels[k].shares)
    }

    lemma Agrees()
      requires Valid()
      ensures Agree(Recorded(), After(tape).book)
    {
      hide Holds, Settled, Sound;
    }

    lemma Refuses()
      requires Stuck()
      ensures Legal(tape) && refused.Some? && refused.value.ts == t
      ensures Allowed(After(tape), refused.value) && !Encodable(refused.value)
    {
    }

    /** When the clock no longer fits, it is the first closing message that has no encoding. */
    lemma ClosingRefused()
      requires Valid() && !Fits(t, 6)
      ensures Allowed(After(tape), FirstClosing(halted, t)) && !Encodable(FirstClosing(halted, t))
    {
    }

    /** What the state between two iterations says about the tape, with and without the closing messages. */
    lemma Closes()
      requires Valid()
      ensures Legal(tape) && session == After(tape) && session.halted == halted && session.lastTs <= t
      ensures Legal(tape + Closing(halted, t)) <==> (halted ==> Uncrossed(session.book))
      ensures forall m :: m in tape ==> Encodable(m)
    {
      if !halted { AroundIsUncrossed(session.book, center); }
      ClosingLegal(tape, t);
    }

    /** The file: everything emitted, a 'T' if the loop stopped in a halt, and the session's end. */
    method Close() returns (o: Outcome, data: Data)
      requires Valid()
      ensures o.Pass? ==> forall m :: m in tape + Closing(halted, t) ==> Encodable(m)
      ensures o.Pass? ==> data == EncodeFeed(tape + Closing(halted, t))
      ensures Fits(t, 6) ==> o.Pass?
    {
      hide Mirrors, Settled, Consistent, Below, Legal, After, EncodeFeed;
      data := out;
      ghost var all := tape;
      if halted {
        o, data := Append(data, all, Message(LOC, t, TradingAction(SYMBOL, Ch('T'), BLANK4)));
        if o.Raised? { return; }
        all := all + [Message(LOC, t, TradingAction(SYMBOL, Ch('T'), BLANK4))];
      }
      o, data := Append(data, all, Message(LOC, t, SystemEvent(Ch('M'))));
      if o.Raised? { return; }
      all := all + [Message(LOC, t, SystemEvent(Ch('M')))];
      o, data := Append(data, all, Message(LOC, t, SystemEvent(Ch('C'))));
      all := all + [Message(LOC, t, SystemEvent(Ch('C')))];
      assert all == tape + Closing(halted, t);
    }

    /** One iteration of the main loop, for any draws. */
    method Iterate(tieBurst: bool, gap: nat, ghost turn: nat) returns (o: Outcome)
      requires Valid() && gap >= 1
      modifies this, repr
      ensures o.Raised? ==> Stuck()
      ensures old(repr) <= repr && fresh(repr - old(repr)) && seeded == old(seeded)
      ensures o.Pass? ==> Valid() && old(tape) <= tape && old(t) < t && LastTurn(tape, |old(tape)|, t)
      ensures o.Pass? ==> tape != old(tape) || center != old(center) || old(session.book.orders) == map[]
      ensures o.Pass? && center != old(center) ==>
        !old(halted) && !halted && (center == old(center) + TICK || center == old(center) - TICK)
        && Executed(old(tape), tape, t) && session.book.orders == Cleared(old(session.book.orders), center)
      ensures var due := old(halted) && old(emitted) >= old(resumeAt);
        && (o.Pass? && due ==> !halted && session.book.orders == Cleared(old(session.book.orders), center))
        && (o.Pass? && old(halted) && !due ==> halted && resumeAt == old(resumeAt))
        && (o.Pass? && !due && center == old(center) && halted == old(halted) ==>
              RolledShape(tape[|old(tape)|..], halted, tieBurst, t, old(nextRef), center))
        && (o.Pass? && !old(halted) && halted ==>
              40 <= resumeAt - old(emitted) <= 200
              && tape == old(tape) + [Message(LOC, t, TradingAction(SYMBOL, Ch('H'), BLANK4))])
      ensures t <= old(t) + 40 * gap
      ensures old(Bounds(turn, 0)) && InReach(turn) && Fits(old(t) + 40 * gap, 6) ==> o.Pass? && Bounds(turn + 1, 0)
      ensures o.Pass? && TradesNamed(old(tape), old(nextRef)) ==> TradesNamed(tape, nextRef)
    {
      hide Stuck, Valid, Executed, Cleared, Ample, Bounds, Room, Fits, InReach, TradesNamed, Named, RolledShape;
      ghost var was, bound := tape, nextRef;
      EarlierSoFar();
      Tick(gap);
      AmpleAfter(turn, old(t) + 40 * gap);
      o := Branch(tieBurst, turn);
      if o.Pass? { TurnIsLast(was); }
      if o.Pass? && TradesNamed(was, bound) { NamedNext(was, tape, bound, nextRef); }
    }

    lemma EarlierSoFar()
      requires Valid()
      ensures forall i :: 0 <= i < |tape| ==> tape[i].ts <= t
    {
      LegalChronological(tape);
    }

    lemma TurnIsLast(was: seq<Message>)
      requires Valid() && was <= tape && ticked == |was| && forall i :: 0 <= i < |was| ==> was[i].ts < t
      ensures LastTurn(tape, |was|, t)
    {
      assert forall i :: ticked <= i < |tape| ==> tape[i] == tape[ticked..][i - ticked];
    }

    /** What an iteration does at its time: resume, move the centre, halt, or go by the roll. */
    method Branch(tieBurst: bool, ghost turn: nat) returns (o: Outcome)
      requires Valid()
      modifies this, repr
      ensures o.Raised? ==> Stuck()
      ensures old(repr) <= repr && fresh(repr - old(repr))
      ensures seeded == old(seeded) && ticked == old(ticked) && t == old(t)
      ensures o.Pass? ==> Valid() && old(tape) <= tape
      ensures o.Pass? ==> tape != old(tape) || center != old(center) || old(session.book.orders) == map[]
      ensures o.Pass? && center != old(center) ==>
        !old(halted) && !halted && (center == old(center) + TICK || center == old(center) - TICK)
        && Executed(old(tape), tape, t) && session.book.orders == Cleared(old(session.book.orders), center)
      ensures var due := old(halted) && old(emitted) >= old(resumeAt);
        && (o.Pass? && due ==> !halted && session.book.orders == Cleared(old(session.book.orders), center))
        && (o.Pass? && old(halted) && !due ==> halted && resumeAt == old(resumeAt))
        && (o.Pass? && !due && center == old(center) && halted == old(halted) ==>
              RolledShape(tape[|old(tape)|..], halted, tieBurst, t, old(nextRef), center))
        && (o.Pass? && !old(halted) && halted ==>
              40 <= resumeAt - old(emitted) <= 200
              && tape == old(tape) + [Message(LOC, t, TradingAction(SYMBOL, Ch('H'), BLANK4))])
      ensures old(Ample(turn)) ==> o.Pass? && Bounds(turn + 1, 0)
      ensures o.Pass? ==> old(nextRef) <= nextRef
      ensures o.Pass? ==> forall i :: |old(tape)| <= i < |tape| ==> Named(tape[i].body, nextRef)
    {
      hide Stuck, Valid, Executed, Cleared, Ample, Bounds, Room, RolledShape;
      if halted && emitted >= resumeAt {
        o := ResumeTurn(turn);
        return;
      }
      if !halted {
        var drift := Rng.Chance();
        if drift {
          o := DriftTurn(turn);
          return;
        }
        var stop := Rng.Chance();
        if stop {
          o := HaltTurn(turn);
          return;
        }
      }
      o := Rolled(tieBurst, turn);
    }

    lemma AmpleAfter(turn: nat, latest: nat)
      requires t <= latest
      ensures Bounds(turn, 0) && InReach(turn) && Fits(latest, 6) ==> Ample(turn)
    {
      hide Bounded, Pow256;
    }

    /** The turn that starts a halt. */
    method HaltTurn(ghost turn: nat) returns (o: Outcome)
      requires Valid() && !halted
      modifies `out, `tape, `session, `emitted, `refused, `halted, `resumeAt
      ensures o.Raised? ==> Stuck()
      ensures o.Pass? ==> Valid() && halted && session.book == old(session.book)
      ensures o.Pass? ==> tape == old(tape) + [Message(LOC, t, TradingAction(SYMBOL, Ch('H'), BLANK4))]
      ensures o.Pass? ==> 40 <= resumeAt - old(emitted) <= 200
      ensures old(Ample(turn)) ==> o.Pass? && Bounds(turn + 1, 0)
    {
      hide Stuck, Valid, Bounded, Fits;
      if Ample(turn) { AmpleIdle(turn); }
      var span := Rng.RandInt(40, 200);
      o := EnterHalt(span);
    }

    /** The turn that ends a halt. */
    method ResumeTurn(ghost turn: nat) returns (o: Outcome)
      requires Valid() && halted && emitted >= resumeAt
      modifies this, repr
      ensures o.Raised? ==> Stuck()
      ensures repr == old(repr) && t == old(t) && center == old(center)
      ensures seeded == old(seeded) && ticked == old(ticked)
      ensures nextRef == old(nextRef)
      ensures o.Pass? ==> Valid() && !halted && session.book.orders == Cleared(old(session.book.orders), center)
      ensures o.Pass? ==> old(tape) <= tape && tape != old(tape)
      ensures o.Pass? ==> forall i :: |old(tape)| <= i < |tape| ==> !tape[i].body.Trade?
      ensures old(Ample(turn)) ==> o.Pass? && Bounds(turn + 1, 0)
    {
      if Ample(turn) { AmpleIsRoom(turn); }
      hide Stuck, Valid, Cleared, Reopening, Bounded, Fits, Room, AuctionFits, Distinct;
      ghost var was, m, fits, prints := session.book.orders, match_, Ample(turn), tape;
      ghost var crossing;
      o, crossing := Resume();
      if o.Pass? {
        ReopeningPrintsNoTrade(t, crossing, center, m);
        if fits {
          ClearedIsLesser(was, center);
          LesserIsFewer(session.book.orders, was);
          TurnBounded(nextRef, m, match_, center, center, was, session.book.orders, turn, 0);
        }
      }
    }

    /** The turn in which the centre takes a step. */
    method DriftTurn(ghost turn: nat) returns (o: Outcome)
      requires Valid() && !halted
      modifies this, repr
      ensures o.Raised? ==> Stuck()
      ensures repr == old(repr) && t == old(t) && !halted && nextRef == old(nextRef)
      ensures seeded == old(seeded) && ticked == old(ticked)
      ensures o.Pass? ==> Valid() && (center == old(center) + TICK || center == old(center) - TICK)
      ensures o.Pass? ==> Executed(old(tape), tape, t) && old(tape) <= tape
      ensures o.Pass? ==> session.book.orders == Cleared(old(session.book.orders), center)
      ensures o.Pass? ==> forall i :: |old(tape)| <= i < |tape| ==> !tape[i].body.Trade?
      ensures old(Ample(turn)) ==> o.Pass? && Bounds(turn + 1, 0)
    {
      if Ample(turn) { AmpleIsRoom(turn); }
      hide Stuck, Valid, Cleared, Bounded, Fits, Room, AuctionFits, Executed;
      ghost var was, m, c, fits := session.book.orders, match_, center, Ample(turn);
      var up := Rng.Chance();
      o := MoveCenter(if up then 1 else -1);
      if o.Pass? {
        ExecutedExtends(old(tape), tape, t);
        if fits {
          ClearedIsLesser(was, center);
          TurnBounded(nextRef, m, match_, c, center, was, session.book.orders, turn, 0);
        }
      }
    }

    /** A tie burst of drawn side, step and sizes. */
    method BurstTurn(ghost turn: nat) returns (o: Outcome)
      requires Valid()
      modifies this, repr
      ensures o.Raised? ==> Stuck()
      ensures old(repr) <= repr && fresh(repr - old(repr)) && Setting() == old(Setting())
      ensures o.Pass? ==> Valid() && old(tape) <= tape && tape != old(tape) && old(nextRef) <= nextRef
      ensures o.Pass? ==> RolledShape(tape[|old(tape)|..], halted, true, t, old(nextRef), center)
      ensures o.Pass? ==> forall i :: |old(tape)| <= i < |tape| ==> Named(tape[i].body, nextRef)
      ensures old(Ample(turn)) ==> o.Pass? && Bounds(turn + 1, 0)
    {
      hide Stuck, Valid, StepFrom, Ample, Bounded, RolledShape;
      var side := Rng.Choice([Bid, Ask]);
      var step := Rng.RandInt(1, LEVELS);
      var sizes := DrawSizes();
      ghost var was, first := tape, nextRef;
      o := TieBurst(side, step, sizes, turn);
      if o.Pass? {
        forall i | |was| <= i < |tape|
          ensures tape[i].body.AddOrder?
        {
          ghost var j := i - |was|;
          assert tape[|was| + j]
            == Message(LOC, t, AddOrder(first + j, side, sizes[j], SYMBOL, StepFrom(center, side, step)));
        }
        BurstOf(tape[|was|..], t, first, center, side, step, sizes);
      }
    }

    /** The turn of a loop that neither moves the centre nor halts nor resumes. */
    method Rolled(tieBurst: bool, ghost turn: nat) returns (o: Outcome)
      requires Valid() && (halted ==> emitted < resumeAt)
      modifies this, repr
      ensures o.Raised? ==> Stuck()
      ensures old(repr) <= repr && fresh(repr - old(repr)) && Setting() == old(Setting())
      ensures o.Pass? ==> Valid() && old(tape) <= tape
      ensures o.Pass? ==> tape != old(tape) || old(session.book.orders) == map[]
      ensures o.Pass? ==> RolledShape(tape[|old(tape)|..], halted, tieBurst, t, old(nextRef), center)
      ensures o.Pass? ==> old(nextRef) <= nextRef
      ensures o.Pass? ==> forall i :: |old(tape)| <= i < |tape| ==> Named(tape[i].body, nextRef)
      ensures old(Ample(turn)) ==> o.Pass? && Bounds(turn + 1, 0)
    {
      hide Stuck, Valid, StepFrom, OfRoll, Insert, Fits, Ample, Bounded, RolledShape;
      var roll := Rng.RandInt(0, 999);
      if tieBurst && roll < 20 {
        o := BurstTurn(turn);
        return;
      }
      if halted {
        roll := HaltedRoll();
        var aggressive := Rng.Chance();
        if roll < 450 && aggressive {
          var side := Rng.Choice([Bid, Ask]);
          var step := Rng.RandInt(0, LEVELS);
          var shares := Rng.Choice([100, 200, 300]);
          if Ample(turn) { AmpleAdd(turn, side, -step, shares); }
          ghost var was, first := tape, nextRef;
          o := HaltedAdd(side, step, shares);
          if o.Pass? { AggressiveOf(was, tape, first, side, step, shares); }
          return;
        }
      }
      ghost var was := tape;
      o := Ladder(roll, turn);
      if o.Pass? { BandOf(was, tape, roll, tieBurst, old(nextRef)); }
    }

    lemma AggressiveOf(was: seq<Message>, now: seq<Message>, first: nat, side: Side, step: int, shares: nat)
      requires halted && 0 <= step <= LEVELS && shares in {100, 200, 300}
      requires now == was + [Message(LOC, t, AddOrder(first, side, shares, SYMBOL, StepFrom(center, side, -step)))]
      ensures RolledShape(now[|was|..], halted, true, t, first, center)
        && RolledShape(now[|was|..], halted, false, t, first, center)
    {
      assert now[|was|..] == [now[|was|]];
    }

    lemma BandOf(was: seq<Message>, now: seq<Message>, roll: int, tieBurst: bool, first: nat)
      requires was <= now && InBand(roll, halted)
      requires now == was || (|now| == |was| + 1 && OfRoll(roll, now[|was|].body))
      ensures RolledShape(now[|was|..], halted, tieBurst, t, first, center)
    {
      hide OfRoll;
      if now != was { assert now[|was|..] == [now[|was|]]; }
    }

    lemma BurstOf(ms: seq<Message>, t: nat, first: nat, center: int, side: Side, step: int, sizes: seq<nat>)
      requires 2 <= |sizes| <= 5 && (forall n :: n in sizes ==> n in {100, 200}) && 1 <= step <= LEVELS
      requires |ms| == |sizes| && forall i :: 0 <= i < |ms| ==>
        ms[i] == Message(LOC, t, AddOrder(first + i, side, sizes[i], SYMBOL, StepFrom(center, side, step)))
      ensures RolledShape(ms, halted, true, t, first, center)
    {
      assert forall i :: 0 <= i < |ms| ==> ms[i].body.shares in sizes;
    }

    method DrawSizes() returns (sizes: seq<nat>)
      ensures 2 <= |sizes| <= 5 && forall n :: n in sizes ==> n in {100, 200}
    {
      var count := Rng.RandInt(2, 5);
      sizes := [];
      for i := 0 to count
        invariant |sizes| == i && forall n :: n in sizes ==> n in {100, 200}
      {
        var n := Rng.Choice([100, 200]);
        sizes := sizes + [n];
      }
    }

    /** During a halt the roll is redrawn into the three branches that print no trade. */
    method HaltedRoll() returns (roll: int)
      ensures 0 <= roll < 450 || 700 <= roll < 960
    {
      var kind := Rng.RandInt(0, 2);
      if kind == 0 {
        roll := Rng.RandInt(0, 449);
      } else if kind == 1 {
        roll := Rng.RandInt(700, 919);
      } else {
        roll := Rng.RandInt(920, 959);
      }
    }

    lemma MirrorsBook()
      requires Valid()
      ensures Mirrors(session.book) && Consistent(session.book)
    {
    }

    lemma NobodyRests(b: Book)
      requires Consistent(b) && forall k :: Queue(b, k) == []
      ensures b.orders == map[]
    {
      forall r | r in b.orders
        ensures false
      {
        OrderIsQueued(b, r);
      }
    }

    /** The ladder of branches, by thousandths of the roll. */
    method Ladder(roll: int, ghost turn: nat) returns (o: Outcome)
      requires Valid() && (halted ==> roll < 450 || 700 <= roll < 960)
      modifies this, repr
      ensures o.Raised? ==> Stuck()
      ensures old(repr) <= repr && fresh(repr - old(repr)) && Setting() == old(Setting())
      ensures o.Pass? ==> Valid() && old(tape) <= tape
      ensures o.Pass? ==> if tape == old(tape) then roll >= 450 && old(session.book.orders) == map[]
        else |tape| == |old(tape)| + 1 && OfRoll(roll, tape[|old(tape)|].body)
      ensures o.Pass? ==> old(nextRef) <= nextRef && (tape == old(tape) || Named(tape[|old(tape)|].body, nextRef))
      ensures old(Ample(turn)) ==> o.Pass? && Bounds(turn + 1, 0)
    {
      hide Stuck, Valid, Ample, Bounds, OfRoll, Named, Queue;
      if Ample(turn) { AmpleIdle(turn); }
      if roll < 450 {
        o := AddDrawn(roll, turn);
        return;
      }
      var k := DrawLevel();
      if k.None? { return Pass; }
      o := Act(roll, k.value, turn);
    }

    /** A populated level, or none when the book is empty. */
    method DrawLevel() returns (k: Option<PriceKey>)
      requires Valid()
      ensures k.None? ==> session.book.orders == map[]
      ensures k.Some? ==> Queue(session.book, k.value) != []
    {
      MirrorsBook();
      hide Valid, Mirrors, Consistent;
      var live := Populated();
      if live == [] {
        NobodyRests(session.book);
        return None;
      }
      var drawn := Rng.Choice(live);
      return Some(drawn);
    }

    /** An add behind the centre, of a drawn side, step and size. */
    method AddDrawn(ghost roll: int, ghost turn: nat) returns (o: Outcome)
      requires Valid() && roll < 450
      modifies this, repr
      ensures o.Raised? ==> Stuck()
      ensures old(repr) <= repr && fresh(repr - old(repr)) && Setting() == old(Setting())
      ensures o.Pass? ==> Valid() && old(tape) <= tape
      ensures o.Pass? ==> |tape| == |old(tape)| + 1 && OfRoll(roll, tape[|old(tape)|].body)
      ensures o.Pass? ==> nextRef == old(nextRef) + 1 && Named(tape[|old(tape)|].body, nextRef)
      ensures old(Ample(turn)) ==> o.Pass? && Bounds(turn + 1, 0)
    {
      hide Stuck, Valid, StepFrom, Insert, Fits, Ample, Bounded;
      var side := Rng.Choice([Bid, Ask]);
      var step := Rng.RandInt(1, LEVELS);
      var odd := Rng.RandInt(1, 99);
      var shares := Rng.Choice([100, 100, 200, 300, 500, odd]);
      var mpid := Rng.Chance();
      if Ample(turn) { AmpleAdd(turn, side, step, shares); }
      o := PassiveAdd(side, step, shares, mpid);
    }

    lemma SideIsOpen(b: Book, k: PriceKey)
      requires Queue(b, k) != []
      ensures !IsTouch(b, k.side, None)
    {
    }

    /** What the roll asks for, at a populated level or at the touch of its side. */
    method Act(roll: int, k: PriceKey, ghost turn: nat) returns (o: Outcome)
      requires Valid() && roll >= 450 && (halted ==> 700 <= roll < 960) && Queue(session.book, k) != []
      modifies this, repr
      ensures o.Raised? ==> Stuck()
      ensures old(repr) <= repr && fresh(repr - old(repr)) && Setting() == old(Setting())
      ensures o.Pass? ==> Valid() && old(tape) <= tape
      ensures o.Pass? ==> |tape| == |old(tape)| + 1 && OfRoll(roll, tape[|old(tape)|].body)
      ensures o.Pass? ==> old(nextRef) <= nextRef && Named(tape[|old(tape)|].body, nextRef)
      ensures old(Ample(turn)) ==> o.Pass? && Bounds(turn + 1, 0)
    {
      SideIsOpen(session.book, k);
      hide Stuck, Valid, IsTouch, StepFrom, HiddenPrice, Through, DefaultIsThrough, OneExecution, OneCancel, Ample;
      hide Bounds;
      ghost var was, b := tape, session.book;
      if roll < 700 {
        o := ExecuteTouch(k.side, turn);
        ExecutionOfRoll(was, tape, b, k.side, roll);
      } else if roll < 920 {
        var front := Rng.Chance();
        o := CancelAt(k, front, turn);
        CancelOfRoll(was, tape, b, k, roll);
      } else if roll < 960 {
        o := ReplaceDrawn(roll, k, turn);
      } else {
        o := PrintDrawn(roll, k.side, turn);
      }
    }

    method ReplaceDrawn(ghost roll: int, k: PriceKey, ghost turn: nat) returns (o: Outcome)
      requires Valid() && 920 <= roll < 960 && Queue(session.book, k) != []
      modifies this, repr
      ensures o.Raised? ==> Stuck()
      ensures old(repr) <= repr && fresh(repr - old(repr)) && Setting() == old(Setting())
      ensures o.Pass? ==> Valid() && old(tape) <= tape
      ensures o.Pass? ==> |tape| == |old(tape)| + 1 && OfRoll(roll, tape[|old(tape)|].body)
      ensures o.Pass? ==> nextRef == old(nextRef) + 1
      ensures old(Ample(turn)) ==> o.Pass? && Bounds(turn + 1, 0)
    {
      hide Stuck, Valid, StepFrom, Ample, Bounds;
      var step := Rng.RandInt(1, LEVELS);
      var shares := Rng.Choice([100, 200, 300]);
      o := ReplaceAt(k, step, shares, turn);
    }

    /** A hidden trade, or a cross at the touch of a side that is open. */
    method PrintDrawn(roll: int, side: Side, ghost turn: nat) returns (o: Outcome)
      requires Valid() && roll >= 960 && !halted && !IsTouch(session.book, side, None)
      modifies this, repr
      ensures o.Raised? ==> Stuck()
      ensures old(repr) <= repr && fresh(repr - old(repr)) && Setting() == old(Setting())
      ensures o.Pass? ==> Valid() && old(tape) <= tape
      ensures o.Pass? ==> |tape| == |old(tape)| + 1 && OfRoll(roll, tape[|old(tape)|].body)
      ensures o.Pass? ==> nextRef == old(nextRef) && Named(tape[|old(tape)|].body, nextRef)
      ensures old(Ample(turn)) ==> o.Pass? && Bounds(turn + 1, 0)
    {
      hide Stuck, Valid, IsTouch, HiddenPrice, Through, DefaultIsThrough, Ample, Bounds;
      if roll < 985 {
        var shares := Rng.RandInt(1, 300);
        ghost var bid, ask;
        o, bid, ask := HiddenTrade(shares, turn);
      } else {
        var shares := Rng.RandInt(1000, 50000);
        var crossType := Rng.Choice([Ch('O'), Ch('C')]);
        o := CrossAtTouch(side, shares, crossType, turn);
      }
    }

    lemma ExecutionOfRoll(was: seq<Message>, now: seq<Message>, b: Book, side: Side, roll: int)
      requires 450 <= roll < 700
      ensures OneExecution(was, now, b, side) ==> was <= now && |now| == |was| + 1 && OfRoll(roll, now[|was|].body)
    {
    }

    lemma CancelOfRoll(was: seq<Message>, now: seq<Message>, b: Book, k: PriceKey, roll: int)
      requires 700 <= roll < 920
      ensures OneCancel(was, now, b, k) ==> was <= now && |now| == |was| + 1 && OfRoll(roll, now[|was|].body)
    {
    }
  }
}
