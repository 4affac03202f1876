/** The fuzz feed: a sampling pool evicted only when a dead reference is drawn, and mutations that may misname. */
module LazyPool {
  import opened Wrappers
  import opened Bytes
  import opened Itch
  import opened Venue
  import opened Tape
  import opened Sample
  import Rng

  const OTHER_LOC: nat := 7
  const OTHR: Data := [Ch('O'), Ch('T'), Ch('H'), Ch('R'), Ch(' '), Ch(' '), Ch(' '), Ch(' ')]
  const FAR: nat := 1000000

  /** What eviction leaves: the same references but one, in a list one shorter. */
  lemma EvictKeeps(refs: seq<nat>, i: nat)
    requires Distinct(refs) && i < |refs|
    ensures var rest := refs[i := refs[|refs| - 1]][..|refs| - 1];
      Distinct(rest) && forall r :: r in rest <==> r in refs && r != refs[i]
  {
    var last := |refs| - 1;
    var rest := refs[i := refs[last]][..last];
    forall r | r in refs && r != refs[i]
      ensures r in rest
    {
      var k :| 0 <= k < |refs| && refs[k] == r;
      assert rest[if k == last then i else k] == r;
    }
  }

  /** The sampling pool. The counts are for reasoning about its cost; nothing reads them. */
  class Pool {
    var live: map<nat, nat>
    var liveRefs: seq<nat>
    ghost var adds: nat
    ghost var rejects: nat

    /** Every live order holds exactly one slot, and every slot not yet evicted is paid for by an add. */
    ghost predicate Valid()
      reads this
    {
      && Distinct(liveRefs)
      && (forall r :: r in live ==> r in liveRefs)
      && |liveRefs| + rejects == adds
    }

    /** Every slot's reference was issued before `nextRef`, so the next one cannot be in the pool already. */
    ghost predicate Issued(nextRef: nat)
      reads this
    {
      forall r :: r in liveRefs ==> r < nextRef
    }

    constructor ()
      ensures Valid() && live == map[] && liveRefs == [] && adds == 0 && rejects == 0
    {
      live, liveRefs, adds, rejects := map[], [], 0, 0;
    }

    method AddLive(ref: nat, shares: nat)
      requires Valid() && Issued(ref)
      modifies this
      ensures Valid() && Issued(ref + 1)
      ensures live == old(live)[ref := shares] && liveRefs == old(liveRefs) + [ref]
      ensures adds == old(adds) + 1 && rejects == old(rejects)
    {
      live := live[ref := shares];
      liveRefs := liveRefs + [ref];
      adds := adds + 1;
      assert forall r :: r in old(liveRefs) ==> r in liveRefs;
      assert forall i :: 0 <= i < |old(liveRefs)| ==> liveRefs[i] in old(liveRefs);
    }

    /**
     * Draw until a live reference comes up, evicting the dead ones drawn. Nothing live is ever evicted, so
     * the answer is none exactly when no order is live.
     */
    method PickLive(ghost bound: nat) returns (ref: Option<nat>)
      requires Valid() && Issued(bound)
      modifies `liveRefs, `rejects
      ensures Valid() && Issued(bound)
      ensures ref.None? <==> live == map[]
      ensures ref.Some? ==> ref.value in live
      ensures forall r :: r in liveRefs ==> r in old(liveRefs)
      ensures forall r :: r in old(liveRefs) && r !in liveRefs ==> r !in live
      ensures rejects - old(rejects) == |old(liveRefs)| - |liveRefs|
    {
      while liveRefs != []
        invariant Valid() && Issued(bound)
        invariant forall r :: r in liveRefs ==> r in old(liveRefs)
        invariant forall r :: r in old(liveRefs) && r !in liveRefs ==> r !in live
        invariant rejects - old(rejects) == |old(liveRefs)| - |liveRefs|
        decreases |liveRefs|
      {
        var i := Rng.RandInt(0, |liveRefs| - 1);
        var drawn := liveRefs[i];
        if drawn in live {
          return Some(drawn);
        }
        EvictKeeps(liveRefs, i);
        liveRefs := liveRefs[i := liveRefs[|liveRefs| - 1]];
        liveRefs := liveRefs[..|liveRefs| - 1];
        rejects := rejects + 1;
      }
      return None;
    }

    /** Shares taken off a live order, which dies when nothing is left; its slot stays behind. */
    method Take(ref: nat, n: nat)
      requires Valid() && ref in live && n >= 1
      modifies `live
      ensures Valid() && live == Less(old(live), ref, n)
    {
      if n >= live[ref] {
        live := live - {ref};
      } else {
        live := live[ref := live[ref] - n];
      }
    }

    method Kill(ref: nat)
      requires Valid() && ref in live
      modifies `live
      ensures Valid() && live == old(live) - {ref}
    {
      live := live - {ref};
    }
  }

  /** Over any run, the draws thrown away are at most the orders ever added. */
  lemma RejectsAreBounded(p: Pool)
    requires p.Valid()
    ensures p.rejects <= p.adds && |p.live| <= p.adds - p.rejects
  {
    var slots := Slots(p.liveRefs);
    assert p.live.Keys <= slots && |p.live| == |p.live.Keys|;
    SubsetSize(p.live.Keys, slots);
    SlotsSize(p.liveRefs);
  }

  lemma {:induction false} SubsetSize(a: set<nat>, b: set<nat>)
    requires a <= b
    ensures |a| <= |b|
    decreases a
  {
    if a != {} {
      var x :| x in a;
      SubsetSize(a - {x}, b - {x});
    }
  }

  function Slots(refs: seq<nat>): set<nat> {
    set r | r in refs
  }

  lemma {:induction false} SlotsSize(refs: seq<nat>)
    ensures |Slots(refs)| <= |refs|
  {
    if refs != [] {
      SlotsSize(refs[1..]);
      var rest := Slots(refs[1..]);
      assert Slots(refs) == rest + {refs[0]};
      assert |rest + {refs[0]}| <= |rest| + 1;
    }
  }

  // ---- what a listener of the target security hears ---------------------------------------------

  /** The listener's book, and how many of the messages it kept named something it had never seen. */
  function Heard(tape: seq<Message>): Book {
    Rebuild(OnLocate(tape, LOC))
  }

  /**
   * The generator's map against the listener's book: the same orders with the same shares, whatever was
   * emitted; and the listener met exactly as many unknown references as the generator made up.
   */
  ghost predicate Agrees(tape: seq<Message>, live: map<nat, nat>, nextRef: nat, ghosts: nat) {
    Rests(Heard(tape), live, nextRef) && Heard(tape).unknown == ghosts
  }

  lemma HeardAppend(tape: seq<Message>, m: Message)
    ensures Heard(tape + [m]) == if m.locate == LOC then Apply(Heard(tape), m.body) else Heard(tape)
  {
    OnLocateAppend(tape, m, LOC);
    if m.locate == LOC {
      RebuildAppend(OnLocate(tape, LOC), m);
    } else {
      assert OnLocate(tape, LOC) + [] == OnLocate(tape, LOC);
    }
  }

  /** Messages that name no order: they reach the listener and leave its book alone. */
  predicate Inert(body: Body) {
    body.SystemEvent? || body.StockDirectory? || body.Trade? || body.CrossTrade? || body.TradingAction?
  }

  /** Skipping references, and unknown ones, disturb nothing. */
  lemma RestsLater(b: Book, live: map<nat, nat>, nextRef: nat, nextRef': nat, ref: nat)
    requires Rests(b, live, nextRef) && nextRef <= nextRef' && nextRef <= ref
    ensures Rests(b.(unknown := b.unknown + 1), live, nextRef') && Rests(b, live, nextRef') && ref !in b.orders
  {
    UnknownConsistent(b);
    hide Consistent;
  }

  lemma OtherAgrees(tape: seq<Message>, live: map<nat, nat>, nextRef: nat, nextRef': nat, ghosts: nat, m: Message)
    requires Agrees(tape, live, nextRef, ghosts) && nextRef <= nextRef' && (m.locate != LOC || Inert(m.body))
    ensures Agrees(tape + [m], live, nextRef', ghosts)
  {
    HeardAppend(tape, m);
    RestsLater(Heard(tape), live, nextRef, nextRef', nextRef);
    hide Rests, Heard;
  }

  lemma AddedAgrees(tape: seq<Message>, live: map<nat, nat>, nextRef: nat, ghosts: nat, m: Message)
    requires Agrees(tape, live, nextRef, ghosts) && m.locate == LOC
    requires (m.body.AddOrder? || m.body.AddOrderMpid?) && m.body.ref == nextRef && m.body.shares >= 1
    ensures Agrees(tape + [m], live[nextRef := m.body.shares], nextRef + 1, ghosts)
  {
    HeardAppend(tape, m);
    hide Rests, Heard;
    InsertRests(Heard(tape), live, nextRef, m.body.side, m.body.price, m.body.shares);
  }

  predicate Reduces(body: Body, ref: nat, n: nat) {
    match body
    case OrderExecuted(r, k, _) => r == ref && k == n
    case OrderExecutedPrice(r, k, _, _, _) => r == ref && k == n
    case OrderCancel(r, k) => r == ref && k == n
    case _ => false
  }

  /** Also when more is executed than rests: both sides drop the order rather than go below zero. */
  lemma ReducedAgrees(tape: seq<Message>, live: map<nat, nat>, nextRef: nat, ghosts: nat, m: Message, ref: nat, n: nat)
    requires Agrees(tape, live, nextRef, ghosts) && m.locate == LOC && Reduces(m.body, ref, n) && ref in live && n >= 1
    ensures Agrees(tape + [m], Less(live, ref, n), nextRef, ghosts)
  {
    HeardAppend(tape, m);
    hide Rests, Heard, Reduce;
    ReduceRests(Heard(tape), live, nextRef, ref, n);
  }

  lemma DeletedAgrees(tape: seq<Message>, live: map<nat, nat>, nextRef: nat, ghosts: nat, m: Message)
    requires Agrees(tape, live, nextRef, ghosts) && m.locate == LOC && m.body.OrderDelete? && m.body.ref in live
    ensures Agrees(tape + [m], live - {m.body.ref}, nextRef, ghosts)
  {
    HeardAppend(tape, m);
    hide Rests, Heard, Erase;
    EraseRests(Heard(tape), live, nextRef, m.body.ref);
  }

  lemma ReplacedAgrees(tape: seq<Message>, live: map<nat, nat>, nextRef: nat, ghosts: nat, m: Message)
    requires Agrees(tape, live, nextRef, ghosts) && m.locate == LOC && m.body.OrderReplace?
    requires m.body.ref in live && m.body.newRef == nextRef && m.body.shares >= 1
    ensures Agrees(tape + [m], (live - {m.body.ref})[nextRef := m.body.shares], nextRef + 1, ghosts)
  {
    HeardAppend(tape, m);
    hide Rests, Heard, Swap;
    SwapRests(Heard(tape), live, nextRef, m.body.ref, m.body.price, m.body.shares);
  }

  /** Every mutation of a reference. */
  predicate Mutates(body: Body, ref: nat) {
    match body
    case OrderExecuted(r, _, _) => r == ref
    case OrderCancel(r, _) => r == ref
    case OrderDelete(r) => r == ref
    case OrderReplace(r, _, _, _) => r == ref
    case _ => false
  }

  /** A made-up reference changes no order; even a replace of one adds nothing. It is counted, once. */
  lemma GhostAgrees(
      tape: seq<Message>, live: map<nat, nat>, nextRef: nat, nextRef': nat, ghosts: nat, m: Message, ref: nat)
    requires Agrees(tape, live, nextRef, ghosts) && m.locate == LOC && Mutates(m.body, ref)
    requires nextRef <= ref && nextRef <= nextRef'
    ensures Agrees(tape + [m], live, nextRef', ghosts + 1)
  {
    hide Rests, Heard, Apply;
    HeardAppend(tape, m);
    RestsLater(Heard(tape), live, nextRef, nextRef', ref);
    UnknownIsCounted(Heard(tape), m.body, ref);
  }

  lemma UnknownIsCounted(b: Book, body: Body, ref: nat)
    requires Mutates(body, ref) && ref !in b.orders
    ensures Apply(b, body) == b.(unknown := b.unknown + 1)
  {
  }

  // ---- the generator ------------------------------------------------------------------------------

  /** A price near the touch on the tick or off it, one far outside the band on the tick, or a stub of a few cents. */
  predicate Priced(price: int) {
    || (-4000 <= price - MID <= 4099)
    || ((3000 * TICK <= price - MID <= 9000 * TICK || 3000 * TICK <= MID - price <= 9000 * TICK) && price % TICK == 0)
    || 1 <= price <= 200
  }

  /** What a turn may emit, given the next reference and match number and the orders that are live. */
  predicate TurnMessage(m: Message, nextRef: nat, match_: nat, live: map<nat, nat>) {
    if m.locate == OTHER_LOC then
      m.body.AddOrder? && m.body == AddOrder(nextRef, Bid, m.body.shares, OTHR, m.body.price)
      && 1 <= m.body.shares <= 500 && Priced(m.body.price)
    else
      m.locate == LOC
      && match m.body
         case AddOrder(ref, _, n, stock, price) => ref == nextRef && 1 <= n <= 1000 && stock == SYMBOL && Priced(price)
         case AddOrderMpid(ref, _, n, stock, price, mpid) =>
           ref == nextRef && 1 <= n <= 1000 && stock == SYMBOL && Priced(price) && mpid == NSDQ
         case OrderExecuted(ref, n, k) =>
           k == match_ && ((MadeUp(ref, nextRef) && n == 10) || (ref in live && 1 <= n <= live[ref] + 50))
         case OrderExecutedPrice(ref, n, k, _, price) =>
           k == match_ && ref in live && 1 <= n <= live[ref] && Priced(price)
         case OrderCancel(ref, n) => (MadeUp(ref, nextRef) && n == 10) || (ref in live && 1 <= n <= live[ref])
         case OrderDelete(ref) => MadeUp(ref, nextRef) || ref in live
         case OrderReplace(ref, newRef, n, price) =>
           newRef == nextRef && Priced(price) && ((MadeUp(ref, nextRef) && n == 10) || (ref in live && 1 <= n <= 1000))
         case Trade(ref, side, n, stock, price, k) =>
           ref == nextRef && side == Bid && 1 <= n <= 500 && stock == SYMBOL && Priced(price) && k == match_
         case CrossTrade(n, stock, price, k, kind) =>
           1 <= n <= 10000 && stock == SYMBOL && Priced(price) && k == match_
           && kind in {Ch('O'), Ch('C'), Ch('H'), Ch('I')}
         case _ => false
  }

  predicate MadeUp(ref: nat, nextRef: nat) {
    ref == nextRef + 1000000
  }

  method PickPrice() returns (price: int)
    ensures Priced(price) && 1 <= price <= MID + 9000 * TICK
  {
    var roll := Rng.RandInt(0, 99);
    if roll < 80 {
      var k := Rng.RandInt(-40, 40);
      return MID + k * TICK;
    }
    if roll < 90 {
      var sign := Rng.Choice([-1, 1]);
      var k := Rng.RandInt(3000, 9000);
      return if sign == 1 then MID + k * TICK else MID - k * TICK;
    }
    if roll < 97 {
      var k := Rng.RandInt(-40, 40);
      var off := Rng.RandInt(1, 99);
      return MID + k * TICK + off;
    }
    price := Rng.RandInt(1, 200);
  }

  class Feed {
    var tape: seq<Message>
    var t: nat
    var nextRef: nat
    var match_: nat
    const pool: Pool
    ghost var ghosts: nat

    ghost predicate Valid()
      reads this, pool
    {
      pool.Valid() && pool.Issued(nextRef) && Agrees(tape, pool.live, nextRef, ghosts)
    }

    constructor ()
      ensures Valid() && fresh(pool) && tape == [] && ghosts == 0 && pool.adds == 0 && pool.rejects == 0
    {
      tape, t, nextRef, match_, ghosts := [], T0, 1, 1, 0;
      pool := new Pool();
    }

    /** The next numbers, after a message: a reference more for each it issues, and a match number for each trade. */
    predicate Counted(was: nat, matches: nat, m: Message)
      reads this
    {
      && nextRef == was + (if m.body.AddOrder? || m.body.AddOrderMpid? || m.body.OrderReplace? then 1 else 0)
      && match_ == matches
        + (if m.body.OrderExecuted? || m.body.OrderExecutedPrice? || m.body.Trade? || m.body.CrossTrade? then 1 else 0)
    }

    /** Emit a message the listener's book is indifferent to. */
    method Aside(locate: nat, body: Body)
      requires Valid() && (locate != LOC || Inert(body))
      modifies `tape
      ensures Valid() && tape == old(tape) + [Message(locate, t, body)]
    {
      hide Agrees;
      OtherAgrees(tape, pool.live, nextRef, nextRef, ghosts, Message(locate, t, body));
      tape := tape + [Message(locate, t, body)];
    }

    /** An order on the second security: it uses up a reference the listener never hears of. */
    method AddOther()
      requires Valid()
      modifies this
      ensures Valid() && |tape| == |old(tape)| + 1 && tape[..|old(tape)|] == old(tape)
      ensures t == old(t) && ghosts == old(ghosts) && nextRef == old(nextRef) + 1
      ensures match_ == old(match_) && tape[|old(tape)|].ts == t && tape[|old(tape)|].locate == OTHER_LOC
      ensures TurnMessage(tape[|old(tape)|], old(nextRef), match_, old(pool.live))
    {
      hide Agrees, Priced;
      var ref := nextRef;
      nextRef := nextRef + 1;
      var shares := Rng.RandInt(1, 500);
      var price := PickPrice();
      var m := Message(OTHER_LOC, t, AddOrder(ref, Bid, shares, OTHR, price));
      OtherAgrees(tape, pool.live, ref, nextRef, ghosts, m);
      tape := tape + [m];
    }

    method Add()
      requires Valid()
      modifies this, pool
      ensures Valid() && |tape| == |old(tape)| + 1 && tape[..|old(tape)|] == old(tape)
      ensures t == old(t) && ghosts == old(ghosts) && nextRef == old(nextRef) + 1
      ensures pool.live.Keys == old(pool.live).Keys + {old(nextRef)} && pool.adds == old(pool.adds) + 1
      ensures match_ == old(match_) && tape[|old(tape)|].ts == t && tape[|old(tape)|].locate == LOC
      ensures TurnMessage(tape[|old(tape)|], old(nextRef), match_, old(pool.live))
      ensures tape[|old(tape)|].body.AddOrder? || tape[|old(tape)|].body.AddOrderMpid?
    {
      hide Agrees, Priced;
      var ref := nextRef;
      nextRef := nextRef + 1;
      var shares := Rng.RandInt(1, 1000);
      var side := Rng.Choice([Bid, Ask]);
      var price := PickPrice();
      var attributed := Rng.Chance();
      var body := if attributed then AddOrderMpid(ref, side, shares, SYMBOL, price, NSDQ)
        else AddOrder(ref, side, shares, SYMBOL, price);
      AddedAgrees(tape, pool.live, ref, ghosts, Message(LOC, t, body));
      tape := tape + [Message(LOC, t, body)];
      pool.AddLive(ref, shares);
    }

    /** A mutation of a reference nobody was ever given. */
    method Misname()
      requires Valid()
      modifies this
      ensures Valid() && |tape| == |old(tape)| + 1 && tape[..|old(tape)|] == old(tape)
      ensures t == old(t) && ghosts == old(ghosts) + 1 && tape[|old(tape)|].ts == t
      ensures TurnMessage(tape[|old(tape)|], old(nextRef), old(match_), old(pool.live))
      ensures Counted(old(nextRef), old(match_), tape[|old(tape)|])
    {
      hide Agrees, Priced;
      var ref := nextRef + FAR;
      var was := nextRef;
      var choice := Rng.RandInt(0, 3);
      var price := PickPrice();
      var body := if choice == 0 then OrderExecuted(ref, 10, match_)
        else if choice == 1 then OrderCancel(ref, 10)
        else if choice == 2 then OrderDelete(ref)
        else OrderReplace(ref, nextRef, 10, price);
      if choice == 0 {
        match_ := match_ + 1;
      } else if choice == 3 {
        nextRef := nextRef + 1;
      }
      GhostAgrees(tape, pool.live, was, nextRef, ghosts, Message(LOC, t, body), ref);
      tape := tape + [Message(LOC, t, body)];
      ghosts := ghosts + 1;
    }

    /** The three ways of taking `qty` shares off a live order. */
    method Reduce(ref: nat, qty: nat, body: Body)
      requires Valid() && ref in pool.live && qty >= 1 && Reduces(body, ref, qty)
      modifies `tape, pool`live
      ensures Valid() && tape == old(tape) + [Message(LOC, t, body)]
    {
      hide Agrees;
      ReducedAgrees(tape, pool.live, nextRef, ghosts, Message(LOC, t, body), ref, qty);
      tape := tape + [Message(LOC, t, body)];
      pool.Take(ref, qty);
    }

    method Delete(ref: nat)
      requires Valid() && ref in pool.live
      modifies `tape, pool`live
      ensures Valid() && tape == old(tape) + [Message(LOC, t, OrderDelete(ref))]
    {
      hide Agrees;
      var m := Message(LOC, t, OrderDelete(ref));
      DeletedAgrees(tape, pool.live, nextRef, ghosts, m);
      tape := tape + [m];
      pool.Kill(ref);
    }

    method Replace(ref: nat)
      requires Valid() && ref in pool.live
      modifies this, pool
      ensures Valid() && |tape| == |old(tape)| + 1 && tape[..|old(tape)|] == old(tape)
      ensures t == old(t) && ghosts == old(ghosts) && tape[|old(tape)|].ts == t
      ensures TurnMessage(tape[|old(tape)|], old(nextRef), old(match_), old(pool.live))
      ensures Counted(old(nextRef), old(match_), tape[|old(tape)|])
    {
      hide Agrees, Priced;
      var newRef := nextRef;
      nextRef := nextRef + 1;
      var shares := Rng.RandInt(1, 1000);
      var price := PickPrice();
      var m := Message(LOC, t, OrderReplace(ref, newRef, shares, price));
      ReplacedAgrees(tape, pool.live, newRef, ghosts, m);
      tape := tape + [m];
      pool.Kill(ref);
      pool.AddLive(newRef, shares);
    }

    /** A mutation of the live order drawn from the pool. */
    method Mutate(ref: nat)
      requires Valid() && ref in pool.live && pool.live[ref] >= 1
      modifies this, pool
      ensures Valid() && |tape| == |old(tape)| + 1 && tape[..|old(tape)|] == old(tape)
      ensures t == old(t) && ghosts == old(ghosts) && tape[|old(tape)|].ts == t
      ensures TurnMessage(tape[|old(tape)|], old(nextRef), old(match_), old(pool.live))
      ensures Counted(old(nextRef), old(match_), tape[|old(tape)|])
    {
      hide Agrees, Priced;
      var shares := pool.live[ref];
      var action := Rng.RandInt(0, 99);
      if action < 30 {
        var over := Rng.Chance();
        var qty := Rng.RandInt(if over then shares + 1 else 1, if over then shares + 50 else shares);
        var body := OrderExecuted(ref, qty, match_);
        match_ := match_ + 1;
        Reduce(ref, qty, body);
      } else if action < 45 {
        var qty := Rng.RandInt(1, shares);
        var printable := Rng.Chance();
        var price := PickPrice();
        var body := OrderExecutedPrice(ref, qty, match_, printable, price);
        match_ := match_ + 1;
        Reduce(ref, qty, body);
      } else if action < 65 {
        var qty := Rng.RandInt(1, shares);
        Reduce(ref, qty, OrderCancel(ref, qty));
      } else if action < 85 {
        Delete(ref);
      } else if action < 95 {
        Replace(ref);
      } else {
        Print(action < 98);
      }
    }

    /** A trade against nothing displayed, or a cross: neither touches the book. */
    method Print(hidden: bool)
      requires Valid()
      modifies `tape, `match_
      ensures Valid() && |tape| == |old(tape)| + 1 && tape[..|old(tape)|] == old(tape)
      ensures tape[|old(tape)|].ts == t && Counted(nextRef, old(match_), tape[|old(tape)|])
      ensures TurnMessage(tape[|old(tape)|], nextRef, old(match_), pool.live)
      ensures if hidden then tape[|old(tape)|].body.Trade? else tape[|old(tape)|].body.CrossTrade?
    {
      hide Agrees, Priced;
      var price := PickPrice();
      var shares := Rng.RandInt(1, if hidden then 500 else 10000);
      var kind := Rng.Choice([Ch('O'), Ch('C'), Ch('H'), Ch('I')]);
      var body := if hidden then Trade(nextRef, Bid, shares, SYMBOL, price, match_)
        else CrossTrade(shares, SYMBOL, price, match_, kind);
      Aside(LOC, body);
      match_ := match_ + 1;
    }

    /** One turn of the loop emits exactly one message; in particular the pool is never asked in vain. */
    method Turn()
      requires Valid()
      modifies this, pool
      ensures Valid() && |tape| == |old(tape)| + 1 && tape[..|old(tape)|] == old(tape)
      ensures old(ghosts) <= ghosts <= old(ghosts) + 1 && old(t) < t <= old(t) + 5000
      ensures tape[|old(tape)|].ts == t && Counted(old(nextRef), old(match_), tape[|old(tape)|])
      ensures TurnMessage(tape[|old(tape)|], old(nextRef), old(match_), old(pool.live))
      ensures old(pool.live) == map[] ==> tape[|old(tape)|].body.AddOrder? || tape[|old(tape)|].body.AddOrderMpid?
    {
      hide Agrees;
      var step := Rng.RandInt(1, 5000);
      t := t + step;
      var roll := Rng.RandInt(0, 99);
      if roll < 5 {
        AddOther();
        return;
      }
      if roll < 45 || pool.live == map[] {
        Add();
        return;
      }
      var odd := Rng.RandInt(0, 99);
      if odd < 2 {
        Misname();
        return;
      }
      var ref := pool.PickLive(nextRef);
      assert ref.Some?;
      SharesLeft(tape, pool.live, nextRef, ghosts, ref.value);
      Mutate(ref.value);
    }

    /**
     * The main part of the feed: it reaches exactly the asked-for number of messages, and at its end the
     * listener's orders and unknown count are the generator's, however the draws fell.
     */
    method Build(n: nat)
      requires Valid() && tape == [] && ghosts == 0
      modifies this, pool
      ensures Valid() && |tape| == 4 + n && ghosts <= n
      ensures tape[0].body == SystemEvent(Ch('O')) && tape[3].body == SystemEvent(Ch('Q'))
      ensures tape[1].locate == LOC && tape[1].body == StockDirectory(SYMBOL)
      ensures tape[2].locate == OTHER_LOC && tape[2].body == StockDirectory(OTHR)
      ensures Rests(Heard(tape), pool.live, nextRef) && Heard(tape).unknown == ghosts
      ensures pool.rejects <= pool.adds
    {
      hide Rests, Rebuild, OnLocate, TurnMessage, Counted;
      Aside(LOC, SystemEvent(Ch('O')));
      Aside(LOC, StockDirectory(SYMBOL));
      Aside(OTHER_LOC, StockDirectory(OTHR));
      Aside(LOC, SystemEvent(Ch('Q')));
      ghost var opening := tape;
      var emitted := 0;
      while emitted < n
        invariant Valid() && emitted <= n && |tape| == 4 + emitted && ghosts <= emitted && tape[..4] == opening
      {
        ghost var before := tape;
        Turn();
        assert tape[..4] == tape[..|before|][..4];
        emitted := emitted + 1;
      }
    }
  }

  lemma SharesLeft(tape: seq<Message>, live: map<nat, nat>, nextRef: nat, ghosts: nat, ref: nat)
    requires Agrees(tape, live, nextRef, ghosts) && ref in live
    ensures live[ref] >= 1
  {
  }
}
