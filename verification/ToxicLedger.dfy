/** A market maker heard through the adverse-selection feed: what fills its quotes get, and what they come to. */
module ToxicLedger {
  import opened Wrappers
  import opened Bytes
  import opened Itch
  import opened Venue
  import opened Tape
  import opened Sample
  import opened ToxicFeed

  // ---- first in, first out ----------------------------------------------------------------------

  datatype Slot = Ours(shares: nat) | Theirs(ref: nat, shares: nat)

  datatype Served = Served(taken: seq<Slot>, rest: seq<Slot>)

  /** What a print of n shares takes from a queue, oldest first, and what it leaves. */
  function Serve(line: seq<Slot>, n: nat): Served {
    if n == 0 || line == [] then Served([], line)
    else if n < line[0].shares then
      Served([line[0].(shares := n)], [line[0].(shares := line[0].shares - n)] + line[1..])
    else
      var s := Serve(line[1..], n - line[0].shares);
      Served([line[0]] + s.taken, s.rest)
  }

  function Total(line: seq<Slot>): nat {
    if line == [] then 0 else line[0].shares + Total(line[1..])
  }

  /** Serving conserves shares: nothing is taken twice, and a print larger than the queue takes all of it. */
  lemma {:induction false} ServeConserves(line: seq<Slot>, n: nat)
    ensures var s := Serve(line, n);
      Total(s.taken) + Total(s.rest) == Total(line) && Total(s.taken) == if n <= Total(line) then n else Total(line)
  {
    if n != 0 && line != [] {
      if n >= line[0].shares {
        ServeConserves(line[1..], n - line[0].shares);
        var s := Serve(line[1..], n - line[0].shares);
        assert ([line[0]] + s.taken)[1..] == s.taken;
      } else {
        var kept := [line[0].(shares := line[0].shares - n)] + line[1..];
        assert kept[1..] == line[1..];
        assert Total([]) == 0 && Total([line[0].(shares := n)]) == n;
      }
    }
  }

  /** How many of some shares are ours. */
  function Own(line: seq<Slot>): nat {
    if line == [] then 0 else (if line[0].Ours? then line[0].shares else 0) + Own(line[1..])
  }

  /** The queue without one order. */
  function Drop(line: seq<Slot>, ref: nat): seq<Slot> {
    if line == [] then []
    else if line[0].Theirs? && line[0].ref == ref then line[1..]
    else [line[0]] + Drop(line[1..], ref)
  }

  // ---- a market maker at the touch --------------------------------------------------------------

  /** A quote, and everything in the queue of its level, its own slot included. */
  datatype Quote = Quote(side: Side, price: int, line: seq<Slot>)

  datatype Fill = Fill(at: nat, side: Side, price: int, shares: nat)

  datatype Followed = Followed(quote: Quote, fills: seq<Fill>)

  predicate AtLevel(q: Quote, b: Book, ref: nat) {
    ref in b.orders && KeyOf(b.orders[ref]) == PriceKey(q.side, q.price)
  }

  /** What one message does to a quote: orders join the queue behind it, leave it, or trade in turn with it. */
  function Follow(q: Quote, b: Book, m: Message): Followed {
    match m.body
    case AddOrder(ref, side, n, _, price) =>
      Followed(if side == q.side && price == q.price then q.(line := q.line + [Theirs(ref, n)]) else q, [])
    case OrderExecuted(ref, n, _) =>
      if !AtLevel(q, b, ref) then Followed(q, [])
      else
        var s := Serve(q.line, n);
        Followed(q.(line := s.rest), if Own(s.taken) > 0 then [Fill(m.ts, q.side, q.price, Own(s.taken))] else [])
    case OrderDelete(ref) => Followed(if AtLevel(q, b, ref) then q.(line := Drop(q.line, ref)) else q, [])
    case _ => Followed(q, [])
  }

  /** The queue of one level as the book has it, oldest first. */
  function LevelOf(b: Book, k: PriceKey): seq<Slot> {
    var q := Queue(b, k);
    seq(|q|, i requires 0 <= i < |q| => Theirs(q[i], if q[i] in b.orders then b.orders[q[i]].shares else 0))
  }

  /** A quote that joins the back of a level. */
  function Join(b: Book, side: Side, price: int): Quote {
    Quote(side, price, LevelOf(b, PriceKey(side, price)) + [Ours(QUOTE)])
  }

  /** The maker's own view: the book, a quote a side, and the fills so far. */
  datatype Desk = Desk(book: Book, bid: Quote, ask: Quote, fills: seq<Fill>)

  /** The best prices of a book with two sides. */
  ghost function TouchOf(orders: map<nat, Resting>): (t: Option<(int, int)>)
    ensures t.Some? ==> Touch(orders, t.value.0, t.value.1)
    ensures t.None? ==> forall bid, ask :: !Touch(orders, bid, ask)
  {
    if exists bid, ask :: Touch(orders, bid, ask) then
      var bid, ask :| Touch(orders, bid, ask);
      Some((bid, ask))
    else None
  }

  /** Quotes at the touch of the book, at the back of their levels; a book without two sides leaves them be. */
  ghost function Requoted(d: Desk): Desk {
    match TouchOf(d.book.orders)
    case None => d
    case Some((bid, ask)) => d.(bid := Join(d.book, Bid, bid), ask := Join(d.book, Ask, ask))
  }

  /** One message heard: quotes are followed through it, and renewed at the touch on every trading beat. */
  ghost function Hear(d: Desk, m: Message): Desk {
    var b := Apply(d.book, m.body);
    if m.body.TradingAction? then Requoted(d.(book := b))
    else
      var bid, ask := Follow(d.bid, d.book, m), Follow(d.ask, d.book, m);
      Desk(b, bid.quote, ask.quote, d.fills + bid.fills + ask.fills)
  }

  const CLOSED: Desk := Desk(EMPTY, Quote(Bid, 0, []), Quote(Ask, 0, []), [])

  /** A maker that has heard a whole tape. */
  ghost function Trade(tape: seq<Message>): Desk {
    if tape == [] then CLOSED else Hear(Trade(tape[..|tape| - 1]), tape[|tape| - 1])
  }

  lemma TradeAppend(tape: seq<Message>, m: Message)
    ensures Trade(tape + [m]) == Hear(Trade(tape), m)
  {
    assert (tape + [m])[..|tape|] == tape;
  }

  // ---- the desk at every message of an episode ----------------------------------------------------

  function EpisodeFill(e: nat): Fill {
    Fill(FillTime(e), EpisodeSide(e), Price(e), QUOTE)
  }

  function Fills(n: nat): (fills: seq<Fill>)
    ensures |fills| == n && forall e :: 0 <= e < n ==> fills[e] == EpisodeFill(e)
  {
    if n == 0 then [] else Fills(n - 1) + [EpisodeFill(n - 1)]
  }

  /** The quote that the episode trades with, after its first k messages. */
  function Hit(e: nat, k: nat): Quote {
    var near, behind := Theirs(AheadOf(e), QUOTE), Theirs(Behind(e), BEHIND);
    Quote(EpisodeSide(e), Price(e),
      if k == 0 then [near, Ours(QUOTE)]
      else if k == 1 then [near, Ours(QUOTE), behind]
      else if k == 2 then [Ours(QUOTE), behind]
      else if k == 3 then [behind]
      else [])
  }

  /** The quote on the other side, whose level is withdrawn. */
  function Miss(e: nat, k: nat): Quote {
    Quote(if e % 2 == 0 then Ask else Bid, if e % 2 == 0 then Mid(e) + TICK else Mid(e) - TICK,
      if k <= 4 then [Theirs(Across(e), QUOTE), Ours(QUOTE)] else [Ours(QUOTE)])
  }

  ghost predicate DeskAt(d: Desk, e: nat, k: nat) {
    && d.book.orders == Within(e, k) && Consistent(d.book)
    && d.fills == (if k < 3 then Fills(e) else Fills(e + 1))
    && if k < 8 then
         if e % 2 == 0 then d.bid == Hit(e, k) && d.ask == Miss(e, k) else d.ask == Hit(e, k) && d.bid == Miss(e, k)
       else if e % 2 == 0 then d.ask == Hit(e + 1, 0) && d.bid == Miss(e + 1, 0)
       else d.bid == Hit(e + 1, 0) && d.ask == Miss(e + 1, 0)
  }

  lemma WithinIsConsistent(e: nat, k: nat, b: Book)
    requires k < 10 && b.orders == Within(e, k) && Consistent(b)
    ensures Consistent(Apply(b, Episode(e)[k].body))
  {
    hide Consistent, Insert, Erase, Reduce;
    var body := Episode(e)[k].body;
    match body
    case AddOrder(ref, side, n, _, price) =>
      assert Below(b, ref);
      InsertConsistent(b, ref, side, price, n);
    case OrderExecuted(ref, n, _) => ReduceConsistent(b, ref, n);
    case OrderDelete(ref) => EraseConsistent(b, ref);
    case _ =>
  }

  /** The quote behind the near order: passed by the first print, filled whole by the second, and no other time. */
  lemma HitFollows(e: nat, k: nat, b: Book)
    requires k < 7 && b.orders == Within(e, k)
    ensures Follow(Hit(e, k), b, Episode(e)[k]) == Followed(Hit(e, k + 1), if k == 2 then [EpisodeFill(e)] else [])
  {
    var near, behind := Theirs(AheadOf(e), QUOTE), Theirs(Behind(e), BEHIND);
    if k == 0 {
      assert [near, Ours(QUOTE)] + [behind] == [near, Ours(QUOTE), behind];
    } else if k == 1 || k == 2 {
      HitPrinted(e, k, b);
    } else if k == 3 {
      assert [behind][1..] == [];
    }
  }

  lemma HitPrinted(e: nat, k: nat, b: Book)
    requires 1 <= k <= 2 && b.orders == Within(e, k)
    ensures Follow(Hit(e, k), b, Episode(e)[k]) == Followed(Hit(e, k + 1), if k == 2 then [EpisodeFill(e)] else [])
  {
    hide Serve, Own;
    var near, behind := Theirs(AheadOf(e), QUOTE), Theirs(Behind(e), BEHIND);
    if k == 1 {
      ServeFirst([near, Ours(QUOTE), behind]);
      assert [near, Ours(QUOTE), behind][1..] == [Ours(QUOTE), behind];
    } else {
      ServeFirst([Ours(QUOTE), behind]);
      assert [Ours(QUOTE), behind][1..] == [behind];
    }
  }

  /** A print of exactly the first order takes it and nothing else. */
  lemma ServeFirst(line: seq<Slot>)
    requires line != [] && line[0].shares == QUOTE
    ensures Serve(line, QUOTE) == Served([line[0]], line[1..])
    ensures Own([line[0]]) == if line[0].Ours? then QUOTE else 0
  {
    assert Serve(line[1..], 0) == Served([], line[1..]);
    assert [line[0]] + [] == [line[0]] && [line[0]][1..] == [];
  }

  lemma MissFollows(e: nat, k: nat, b: Book)
    requires k < 7 && b.orders == Within(e, k)
    ensures Follow(Miss(e, k), b, Episode(e)[k]) == Followed(Miss(e, k + 1), [])
  {
    if k == 4 {
      assert [Theirs(Across(e), QUOTE), Ours(QUOTE)][1..] == [Ours(QUOTE)];
    }
  }

  /** Between episodes each near level holds its one order. */
  lemma NearLevel(e: nat, b: Book, side: Side)
    requires b.orders == Standing(e) && Consistent(b)
    ensures var (price, ref) := if side.Bid? then (Mid(e) - TICK, NearBid(e)) else (Mid(e) + TICK, NearAsk(e));
      Join(b, side, price) == Quote(side, price, [Theirs(ref, QUOTE), Ours(QUOTE)])
  {
    var price := if side.Bid? then Mid(e) - TICK else Mid(e) + TICK;
    var ref := if side.Bid? then NearBid(e) else NearAsk(e);
    var k := PriceKey(side, price);
    assert ref in b.orders && KeyOf(b.orders[ref]) == k;
    OnlyOneQueued(b, k, ref);
    assert LevelOf(b, k) == [Theirs(ref, QUOTE)];
    assert [Theirs(ref, QUOTE)] + [Ours(QUOTE)] == [Theirs(ref, QUOTE), Ours(QUOTE)];
  }

  lemma FirstTwo(q: seq<nat>)
    requires Increasing(q)
    ensures |q| > 1 ==> q[0] < q[1]
  {
  }

  lemma OnlyOneQueued(b: Book, k: PriceKey, ref: nat)
    requires Consistent(b) && ref in b.orders && KeyOf(b.orders[ref]) == k
    requires forall r :: r in b.orders && KeyOf(b.orders[r]) == k ==> r == ref
    ensures Queue(b, k) == [ref]
  {
    OrderIsQueued(b, ref);
    var q := Queue(b, k);
    forall i | 0 <= i < |q|
      ensures q[i] == ref
    {
      QueuedIsLive(b, k, q[i]);
    }
    FirstTwo(q);
  }

  /** On a beat, both quotes are renewed at the near levels. */
  lemma BeatRenews(e: nat, d: Desk)
    requires d.book.orders == Standing(e) && Consistent(d.book)
    ensures var now := Requoted(d);
      && now.book == d.book && now.fills == d.fills
      && if e % 2 == 0 then now.bid == Hit(e, 0) && now.ask == Miss(e, 0)
         else now.ask == Hit(e, 0) && now.bid == Miss(e, 0)
  {
    StandingTouch(e, d.book.orders);
    NearLevel(e, d.book, Bid);
    NearLevel(e, d.book, Ask);
    hide Standing, Consistent, Touch, Join;
  }

  lemma StandingTouch(e: nat, orders: map<nat, Resting>)
    requires orders == Standing(e)
    ensures TouchOf(orders) == Some((Mid(e) - TICK, Mid(e) + TICK))
  {
    hide Within, Standing;
    WithinStarts(e);
    if e == 0 {
      TouchWithin(0, 0, Mid(0) - TICK, Mid(0) + TICK);
    } else {
      TouchWithin(e, 0, Mid(e) - TICK, Mid(e) + TICK);
    }
    assert Touch(orders, Mid(e) - TICK, Mid(e) + TICK);
    var t := TouchOf(orders);
    assert t.Some? && Touch(orders, t.value.0, t.value.1);
  }

  lemma DeskStep(e: nat, k: nat, d: Desk)
    requires k < 10 && DeskAt(d, e, k)
    ensures DeskAt(Hear(d, Episode(e)[k]), e, k + 1)
  {
    hide Within, Standing, Episode, Consistent, Follow, Hit, Miss, Apply, Fills, Requoted;
    StepBook(e, k, d.book);
    WithinIsConsistent(e, k, d.book);
    EpisodeKinds(e, k);
    if k < 7 {
      HitFollows(e, k, d.book);
      MissFollows(e, k, d.book);
      FillsNext(e);
      Unfilled(d.fills, Follow(d.bid, d.book, Episode(e)[k]).fills, Follow(d.ask, d.book, Episode(e)[k]).fills);
    } else {
      WithinStarts(e);
      BeatRenews(e + 1, d.(book := Apply(d.book, Episode(e)[k].body)));
    }
  }

  lemma Unfilled(fills: seq<Fill>, a: seq<Fill>, b: seq<Fill>)
    ensures a == [] ==> fills + a + b == fills + b
    ensures b == [] ==> fills + a + b == fills + a
    ensures a == [] && b == [] ==> fills + a + b == fills
  {
  }

  lemma FillsNext(e: nat)
    ensures Fills(e + 1) == Fills(e) + [EpisodeFill(e)]
  {
  }

  lemma EpisodeKinds(e: nat, k: nat)
    requires k < 10
    ensures Episode(e)[k].body.TradingAction? <==> k >= 7
  {
  }

  lemma {:induction false} EpisodeDesk(e: nat, k: nat, tape: seq<Message>)
    requires k <= 10 && DeskAt(Trade(tape), e, 0)
    ensures DeskAt(Trade(tape + Episode(e)[..k]), e, k)
  {
    hide Episode, DeskAt, Hear;
    if k == 0 {
      assert tape + Episode(e)[..0] == tape;
    } else {
      EpisodeDesk(e, k - 1, tape);
      var init := tape + Episode(e)[..k - 1];
      assert tape + Episode(e)[..k] == init + [Episode(e)[k - 1]];
      TradeAppend(init, Episode(e)[k - 1]);
      DeskStep(e, k - 1, Trade(init));
    }
  }

  lemma NextEpisode(d: Desk, e: nat)
    requires DeskAt(d, e, 10)
    ensures DeskAt(d, e + 1, 0)
  {
    WithinStarts(e);
    WithinStarts(e + 1);
  }

  // ---- the whole feed ---------------------------------------------------------------------------------

  lemma {:induction false} TradeBook(tape: seq<Message>)
    ensures Trade(tape).book == Rebuild(tape)
  {
    if tape != [] {
      hide Apply, Follow, TouchOf;
      TradeBook(tape[..|tape| - 1]);
    }
  }

  lemma {:induction false} NothingTraded(tape: seq<Message>)
    requires forall i :: 0 <= i < |tape| ==> !tape[i].body.OrderExecuted?
    ensures Trade(tape).fills == []
  {
    if tape != [] {
      hide Apply, TouchOf;
      NothingTraded(tape[..|tape| - 1]);
    }
  }

  lemma {:induction false} AddsAreConsistent(tape: seq<Message>, n: nat)
    requires n <= |tape|
    requires forall i :: 0 <= i < n ==>
      var body := tape[i].body;
      if body.AddOrder? then i >= 3 && body.ref == i - 2 && body.shares >= 1
      else body.SystemEvent? || body.StockDirectory?
    ensures Consistent(Rebuild(tape[..n])) && Below(Rebuild(tape[..n]), if n >= 3 then n - 2 else 1)
  {
    if n > 0 {
      AddsAreConsistent(tape, n - 1);
      var b, body := Rebuild(tape[..n - 1]), tape[n - 1].body;
      assert tape[..n] == tape[..n - 1] + [tape[n - 1]];
      RebuildAppend(tape[..n - 1], tape[n - 1]);
      hide Consistent, Rebuild;
      if body.AddOrder? {
        InsertConsistent(b, body.ref, body.side, body.price, body.shares);
      }
    }
  }

  /** The maker's first quotes have joined both queues before the first episode. */
  lemma DeskOpens()
    ensures DeskAt(Trade(Opening()), 0, 0)
  {
    var o := Opening();
    var init := o[..7];
    assert o == init + [o[7]];
    AddsAreConsistent(o, 7);
    OpeningBook();
    RebuildAppend(init, o[7]);
    NothingTraded(init);
    TradeBook(init);
    TradeAppend(init, o[7]);
    BeatRenews(0, Trade(init));
    OpenedAt(Requoted(Trade(init)));
  }

  lemma OpenedAt(d: Desk)
    requires d.book.orders == Standing(0) && Consistent(d.book)
    requires d.fills == [] && d.bid == Hit(0, 0) && d.ask == Miss(0, 0)
    ensures DeskAt(d, 0, 0)
  {
    WithinStarts(0);
  }

  lemma {:induction false} DeskBetween(n: nat)
    ensures DeskAt(Trade(Sofar(n)), n, 0)
  {
    hide DeskAt, Episode, Trade;
    if n == 0 {
      SofarStarts();
      DeskOpens();
    } else {
      DeskBetween(n - 1);
      EpisodeDesk(n - 1, 10, Sofar(n - 1));
      assert Episode(n - 1)[..10] == Episode(n - 1);
      NextEpisode(Trade(Sofar(n)), n - 1);
    }
  }

  /**
   * What the maker's quotes get from the finished feed, counted by serving its prints first in, first out: one
   * fill an episode, of a whole quote, at the near price and at the time of the second print.
   */
  lemma OneFillAnEpisode(n: nat)
    ensures Trade(Finished(n)).fills == Fills(n)
  {
    hide Sofar, Within, Hit, Miss, Consistent;
    var m, c := At(Start(n), SystemEvent(Ch('M'))), At(Start(n), SystemEvent(Ch('C')));
    DeskBetween(n);
    assert Finished(n) == Sofar(n) + [m] + [c];
    TradeAppend(Sofar(n), m);
    TradeAppend(Sofar(n) + [m], c);
  }

  /**
   * Every fill of every run is adverse: it is made one tick better than the mid of its moment, and the mid a tenth
   * of a second, one second and ten seconds later is two ticks worse for it.
   */
  lemma EveryFillIsAdverse(n: nat, e: nat, horizon: nat)
    requires e < n && horizon in {100 * MS, S, 10 * S}
    ensures var fills := Trade(Finished(n)).fills;
      && |fills| == n && fills[e].shares == QUOTE
      && StandsAt(Finished(n), fills[e].at, Within(e, 3)) && Touch(Within(e, 3), Mid(e) - TICK, Mid(e) + TICK)
      && StandsAt(Finished(n), fills[e].at + horizon, Standing(e + 1))
      && Touch(Standing(e + 1), Mid(e + 1) - TICK, Mid(e + 1) + TICK)
      && Edge(fills[e].side, fills[e].price, Mid(e)) == TICK
      && Edge(fills[e].side, Mid(e), Mid(e + 1)) == -2 * TICK
  {
    hide StandsAt, Touch, Within, Standing, Trade;
    OneFillAnEpisode(n);
    FillIsAdverse(n, e, horizon);
  }

  datatype Account = Account(position: int, cash: int)

  /** The account of the quotes' owner: every fill booked at its price. */
  function Booked(fills: seq<Fill>): Account {
    if fills == [] then Account(0, 0)
    else
      var a, f := Booked(fills[..|fills| - 1]), fills[|fills| - 1];
      if f.side.Bid? then Account(a.position + f.shares, a.cash - f.shares * f.price)
      else Account(a.position - f.shares, a.cash + f.shares * f.price)
  }

  /** Every fill is at the same price: the mid is two ticks lower whenever the quote sells. */
  lemma LastFill(n: nat)
    requires n > 0
    ensures var f := Fills(n)[n - 1];
      f.shares == QUOTE && f.side == (if n % 2 == 1 then Bid else Ask) && f.price == MID - TICK
  {
  }

  lemma BookOne(fills: seq<Fill>)
    requires fills != [] && fills[|fills| - 1].shares == QUOTE && fills[|fills| - 1].price == MID - TICK
    ensures var a, side := Booked(fills[..|fills| - 1]), fills[|fills| - 1].side;
      Booked(fills) == if side.Bid? then Account(a.position + QUOTE, a.cash - QUOTE * (MID - TICK))
                       else Account(a.position - QUOTE, a.cash + QUOTE * (MID - TICK))
  {
  }

  lemma {:induction false} FillsBooked(n: nat)
    ensures Booked(Fills(n)) == if n % 2 == 0 then Account(0, 0) else Account(QUOTE, -(QUOTE * (MID - TICK)))
  {
    if n > 0 {
      FillsBooked(n - 1);
      assert Fills(n)[..n - 1] == Fills(n - 1);
      hide Fills, EpisodeFill;
      LastFill(n);
      BookOne(Fills(n));
    }
  }

  /**
   * Minus a tick a share on every fill, and yet nothing lost: after an even number of episodes the account of what
   * the feed filled is flat with no cash gained or spent, and after an odd number it holds one quote at one price.
   */
  lemma RoundTripsNetToZero(n: nat)
    ensures Booked(Trade(Finished(n)).fills)
         == if n % 2 == 0 then Account(0, 0) else Account(QUOTE, -(QUOTE * (MID - TICK)))
  {
    OneFillAnEpisode(n);
    FillsBooked(n);
  }
}
