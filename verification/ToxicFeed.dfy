/** The feed whose every fill is adverse by two ticks: the program, its closed form, and what a fill is worth. */
module ToxicFeed {
  import opened Wrappers
  import opened Bytes
  import opened Itch
  import opened Venue
  import opened Tape
  import opened Sample

  const FLOOR: int := 5000
  const QUOTE: nat := 100
  const BEHIND: nat := 300
  const MS: nat := 1000000
  const S: nat := 1000000000

  function At(t: nat, body: Body): Message {
    Message(LOC, t, body)
  }

  const TRADING: Body := TradingAction(SYMBOL, Ch('T'), BLANK4)

  // ---- the program ------------------------------------------------------------------------------

  /** The generator, loop and counters as they run; the closed form below is what it comes to. */
  method Build(episodes: nat) returns (tape: seq<Message>)
    ensures tape == Finished(episodes)
  {
    hide Sofar;
    var t, ref, match_, mid := T0, 1, 1, MID;
    tape := [At(t, SystemEvent(Ch('O'))), At(t, StockDirectory(SYMBOL)), At(t, SystemEvent(Ch('Q')))];
    tape := tape + [At(t, AddOrder(ref, Bid, 10000, SYMBOL, mid - FLOOR))];
    tape := tape + [At(t, AddOrder(ref + 1, Ask, 10000, SYMBOL, mid + FLOOR))];
    var nearBid, nearAsk := ref + 2, ref + 3;
    ref := ref + 4;
    tape := tape + [At(t, AddOrder(nearBid, Bid, QUOTE, SYMBOL, mid - TICK))];
    tape := tape + [At(t, AddOrder(nearAsk, Ask, QUOTE, SYMBOL, mid + TICK))];
    t := t + S;
    tape := tape + [At(t, TRADING)];
    SofarStarts();
    assert tape == Opening();
    var i := 0;
    while i < episodes
      invariant i <= episodes && tape == Sofar(i)
      invariant t == Start(i) && mid == Mid(i) && match_ == 1 + 2 * i && ref == 5 + 3 * i
      invariant nearBid == NearBid(i) && nearAsk == NearAsk(i)
    {
      var buySide := i % 2 == 0;
      var side := if buySide then Bid else Ask;
      var price := if buySide then mid - TICK else mid + TICK;
      var ahead := if buySide then nearBid else nearAsk;
      ghost var before := tape;

      t := t + 10 * MS;
      var behind := ref;
      ref := ref + 1;
      var joined := At(t, AddOrder(behind, side, BEHIND, SYMBOL, price));

      t := t + 10 * MS;
      var first := At(t, OrderExecuted(ahead, QUOTE, match_));
      match_ := match_ + 1;

      t := t + 10 * MS;
      var second := At(t, OrderExecuted(behind, QUOTE, match_));
      match_ := match_ + 1;

      t := t + 10 * MS;
      var gone := At(t, OrderDelete(behind));
      var across := At(t, OrderDelete(if buySide then nearAsk else nearBid));
      mid := if buySide then mid - 2 * TICK else mid + 2 * TICK;
      nearBid, nearAsk := ref, ref + 1;
      ref := ref + 2;
      var bid := At(t, AddOrder(nearBid, Bid, QUOTE, SYMBOL, mid - TICK));
      var ask := At(t, AddOrder(nearAsk, Ask, QUOTE, SYMBOL, mid + TICK));
      tape := tape + [joined, first, second, gone, across, bid, ask];

      t := t + 200 * MS;
      tape := tape + [At(t, TRADING)];
      t := t + 2 * S;
      tape := tape + [At(t, TRADING)];
      t := t + 12 * S;
      tape := tape + [At(t, TRADING)];
      assert tape == before + Episode(i);
      SofarGrows(i);
      i := i + 1;
    }
    tape := tape + [At(t, SystemEvent(Ch('M'))), At(t, SystemEvent(Ch('C')))];
  }

  // ---- the closed form ----------------------------------------------------------------------------

  /** Even episodes buy, odd ones sell. */
  function EpisodeSide(e: nat): Side {
    if e % 2 == 0 then Bid else Ask
  }

  /** The two places the mid alternates between. */
  function Mid(e: nat): int {
    if e % 2 == 0 then MID else MID - 2 * TICK
  }

  function Price(e: nat): int {
    if e % 2 == 0 then Mid(e) - TICK else Mid(e) + TICK
  }

  function Start(e: nat): nat {
    T0 + S + e * (14240 * MS)
  }

  function NearBid(e: nat): nat {
    3 + 3 * e
  }

  function NearAsk(e: nat): nat {
    4 + 3 * e
  }

  function AheadOf(e: nat): nat {
    if e % 2 == 0 then NearBid(e) else NearAsk(e)
  }

  function Across(e: nat): nat {
    if e % 2 == 0 then NearAsk(e) else NearBid(e)
  }

  function Behind(e: nat): nat {
    5 + 3 * e
  }

  function Episode(e: nat): (ms: seq<Message>)
    ensures |ms| == 10
  {
    var t := Start(e);
    [ At(t + 10 * MS, AddOrder(Behind(e), EpisodeSide(e), BEHIND, SYMBOL, Price(e))),
      At(t + 20 * MS, OrderExecuted(AheadOf(e), QUOTE, 1 + 2 * e)),
      At(t + 30 * MS, OrderExecuted(Behind(e), QUOTE, 2 + 2 * e)),
      At(t + 40 * MS, OrderDelete(Behind(e))),
      At(t + 40 * MS, OrderDelete(Across(e))),
      At(t + 40 * MS, AddOrder(NearBid(e + 1), Bid, QUOTE, SYMBOL, Mid(e + 1) - TICK)),
      At(t + 40 * MS, AddOrder(NearAsk(e + 1), Ask, QUOTE, SYMBOL, Mid(e + 1) + TICK)),
      At(t + 240 * MS, TRADING),
      At(t + 2240 * MS, TRADING),
      At(t + 14240 * MS, TRADING) ]
  }

  function Opening(): (ms: seq<Message>)
    ensures |ms| == 8
  {
    [ At(T0, SystemEvent(Ch('O'))), At(T0, StockDirectory(SYMBOL)), At(T0, SystemEvent(Ch('Q'))),
      At(T0, AddOrder(1, Bid, 10000, SYMBOL, MID - FLOOR)), At(T0, AddOrder(2, Ask, 10000, SYMBOL, MID + FLOOR)),
      At(T0, AddOrder(3, Bid, QUOTE, SYMBOL, MID - TICK)), At(T0, AddOrder(4, Ask, QUOTE, SYMBOL, MID + TICK)),
      At(T0 + S, TRADING) ]
  }

  function Sofar(n: nat): (tape: seq<Message>)
    ensures |tape| == 8 + 10 * n
  {
    if n == 0 then Opening() else Sofar(n - 1) + Episode(n - 1)
  }

  function Finished(n: nat): seq<Message> {
    Sofar(n) + [At(Start(n), SystemEvent(Ch('M'))), At(Start(n), SystemEvent(Ch('C')))]
  }

  lemma SofarStarts()
    ensures Sofar(0) == Opening()
  {
  }

  lemma SofarGrows(n: nat)
    ensures Sofar(n + 1) == Sofar(n) + Episode(n)
  {
  }

  // ---- the bytes ----------------------------------------------------------------------------------

  /** The output of the program, or an exception: exactly when the last timestamp is past 48 bits. */
  method Write(episodes: nat) returns (o: Outcome, data: Data)
    ensures o.Pass? <==> Fits(Start(episodes), 6)
    ensures o.Pass? ==> ParseFeed(data) == Some(Finished(episodes))
  {
    hide Encode, EncodeFeed, ParseFeed, Encodable, Finished, Fits;
    var tape := Build(episodes);
    AllFit(episodes);
    data := [];
    NothingEncoded();
    for k := 0 to |tape|
      invariant forall m :: m in tape[..k] ==> Encodable(m)
      invariant data == EncodeFeed(tape[..k])
    {
      if !Encodable(tape[k]) {
        assert tape[k] in tape;
        return Raised, data;
      }
      EncodeFeedAppend(tape[..k], tape[k]);
      data := data + Frame(Encode(tape[k]));
      assert tape[..k + 1] == tape[..k] + [tape[k]];
    }
    assert tape[..|tape|] == tape;
    ParseEncodeFeed(tape);
    return Pass, data;
  }

  lemma NothingEncoded()
    ensures EncodeFeed([]) == []
  {
  }

  lemma AllFit(n: nat)
    ensures (forall m :: m in Finished(n) ==> Encodable(m)) <==> Fits(Start(n), 6)
  {
    hide Encodable;
    var close := At(Start(n), SystemEvent(Ch('C')));
    assert Encodable(close) <==> Fits(Start(n), 6) by { SystemFits(Start(n), Ch('C')); }
    assert Finished(n)[|Finished(n)| - 1] == close;
    if Fits(Start(n), 6) {
      SystemFits(Start(n), Ch('M'));
      SofarFits(n);
    }
  }

  lemma SystemFits(t: nat, event: byte)
    ensures Encodable(At(t, SystemEvent(event))) <==> Fits(t, 6)
  {
    assert Pow256(2) == 0x1_0000;
  }

  lemma {:induction false} SofarFits(n: nat)
    requires Fits(Start(n), 6)
    ensures forall m :: m in Sofar(n) ==> Encodable(m)
  {
    hide Encodable, Episode, Opening, Fits;
    if n == 0 {
      OpeningFits();
    } else {
      EarlierFits(n);
      EpisodeFits(n - 1);
      SofarFits(n - 1);
    }
  }

  lemma Widths()
    ensures Pow256(2) == 0x1_0000 && Pow256(4) == 0x1_0000_0000
    ensures Pow256(6) == 0x1_0000_0000_0000 && Pow256(8) == 0x1_0000_0000_0000_0000
  {
    assert Pow256(8) == 0x1_0000_0000_0000_0000;
  }

  lemma EarlierFits(n: nat)
    requires n > 0 && Fits(Start(n), 6)
    ensures Fits(Start(n - 1), 6)
  {
  }

  lemma OpeningFits()
    ensures forall m :: m in Opening() ==> Encodable(m)
  {
    Widths();
    hide Pow256;
  }

  lemma EpisodeFits(e: nat)
    requires Fits(Start(e + 1), 6)
    ensures forall m :: m in Episode(e) ==> Encodable(m)
  {
    Widths();
    hide Pow256;
    assert Start(e) + 14240 * MS == Start(e + 1) && 3 * e + 8 < Start(e);
  }

  // ---- the book at every instant of an episode ---------------------------------------------------

  /** Two deep orders that never trade, and one quote each side of the mid. */
  function Standing(e: nat): map<nat, Resting> {
    map[1 := Resting(Bid, MID - FLOOR, 10000), 2 := Resting(Ask, MID + FLOOR, 10000),
        NearBid(e) := Resting(Bid, Mid(e) - TICK, QUOTE), NearAsk(e) := Resting(Ask, Mid(e) + TICK, QUOTE)]
  }

  /** The resting orders after the first k messages of an episode. */
  function Within(e: nat, k: nat): map<nat, Resting> {
    var behind := Resting(EpisodeSide(e), Price(e), BEHIND);
    if k == 0 then Standing(e)
    else if k == 1 then Standing(e)[Behind(e) := behind]
    else if k == 2 then Standing(e)[Behind(e) := behind] - {AheadOf(e)}
    else if k == 3 then (Standing(e) - {AheadOf(e)})[Behind(e) := behind.(shares := BEHIND - QUOTE)]
    else if k == 4 then Standing(e) - {AheadOf(e)}
    else if k == 5 then Standing(e) - {AheadOf(e)} - {Across(e)}
    else if k == 6 then
      (Standing(e) - {AheadOf(e)} - {Across(e)})[NearBid(e + 1) := Resting(Bid, Mid(e + 1) - TICK, QUOTE)]
    else Standing(e + 1)
  }

  lemma EraseOrders(b: Book, ref: nat)
    requires ref in b.orders
    ensures Erase(b, ref).orders == b.orders - {ref} && Erase(b, ref).unknown == b.unknown
  {
  }

  lemma StepBook(e: nat, k: nat, b: Book)
    requires k < 10 && b.orders == Within(e, k)
    ensures Apply(b, Episode(e)[k].body).orders == Within(e, k + 1)
    ensures Apply(b, Episode(e)[k].body).unknown == b.unknown
  {
    hide Erase, Queue;
    if k == 0 {
    } else if k == 1 {
      EraseOrders(b, AheadOf(e));
    } else if k == 2 {
    } else if k == 3 {
      EraseOrders(b, Behind(e));
    } else if k == 4 {
      EraseOrders(b, Across(e));
    } else if k == 5 {
    }
  }

  lemma {:induction false} EpisodeBooks(e: nat, k: nat, tape: seq<Message>)
    requires k <= 10 && Rebuild(tape).orders == Standing(e) && Rebuild(tape).unknown == 0
    ensures Rebuild(tape + Episode(e)[..k]).orders == Within(e, k)
    ensures Rebuild(tape + Episode(e)[..k]).unknown == 0
  {
    hide Episode, Within, Standing, Apply;
    if k == 0 {
      assert tape + Episode(e)[..0] == tape;
      WithinStarts(e);
    } else {
      EpisodeBooks(e, k - 1, tape);
      var init := tape + Episode(e)[..k - 1];
      assert tape + Episode(e)[..k] == init + [Episode(e)[k - 1]];
      RebuildAppend(init, Episode(e)[k - 1]);
      StepBook(e, k - 1, Rebuild(init));
    }
  }

  lemma WithinStarts(e: nat)
    ensures Within(e, 0) == Standing(e) && forall k :: 7 <= k <= 10 ==> Within(e, k) == Standing(e + 1)
  {
  }

  lemma OpeningBook()
    ensures Rebuild(Opening()).orders == Standing(0) && Rebuild(Opening()).unknown == 0
  {
    var o := Opening();
    assert o[..7] + [o[7]] == o;
    assert o[..6] + [o[6]] == o[..7];
    assert o[..5] + [o[5]] == o[..6];
    assert o[..4] + [o[4]] == o[..5];
    assert o[..3] + [o[3]] == o[..4];
    assert Rebuild(o[..3]) == EMPTY by {
      assert o[..2] + [o[2]] == o[..3] && o[..1] + [o[1]] == o[..2] && o[..0] + [o[0]] == o[..1];
      RebuildAppend(o[..0], o[0]);
      RebuildAppend(o[..1], o[1]);
      RebuildAppend(o[..2], o[2]);
    }
    RebuildAppend(o[..3], o[3]);
    RebuildAppend(o[..4], o[4]);
    RebuildAppend(o[..5], o[5]);
    RebuildAppend(o[..6], o[6]);
    RebuildAppend(o[..7], o[7]);
  }

  /** Episodes hand on the same shape of book for ever, wherever the mid stands. */
  lemma {:induction false} BetweenEpisodes(n: nat)
    ensures Rebuild(Sofar(n)).orders == Standing(n) && Rebuild(Sofar(n)).unknown == 0
  {
    hide Episode, Within, Standing, Rebuild, Opening;
    if n == 0 {
      OpeningBook();
    } else {
      BetweenEpisodes(n - 1);
      EpisodeBooks(n - 1, 10, Sofar(n - 1));
      assert Episode(n - 1)[..10] == Episode(n - 1);
      WithinStarts(n - 1);
    }
  }

  // ---- what the fills meet ------------------------------------------------------------------------

  /** The best prices: some order rests at each, and none rests ahead of it. */
  ghost predicate Touch(orders: map<nat, Resting>, bid: int, ask: int) {
    && (exists r :: r in orders && orders[r].side.Bid? && orders[r].price == bid)
    && (exists r :: r in orders && orders[r].side.Ask? && orders[r].price == ask)
    && (forall r :: r in orders ==> if orders[r].side.Bid? then orders[r].price <= bid else orders[r].price >= ask)
  }

  /** The book has two sides and is never crossed, also in the middle of the move. */
  lemma NeverOneSided(e: nat, k: nat)
    requires k <= 10
    ensures exists bid, ask :: Touch(Within(e, k), bid, ask) && bid < ask
  {
    var o := Within(e, k);
    assert 1 in o && 2 in o;
    var bidAt := if k <= 1 || (k <= 4 && (e % 2 == 1 || k <= 3)) then Mid(e) - TICK
      else if k <= 5 then MID - FLOOR else Mid(e + 1) - TICK;
    var askAt := if k <= 1 || (k <= 4 && (e % 2 == 0 || k <= 3)) then Mid(e) + TICK
      else if k <= 6 then MID + FLOOR else Mid(e + 1) + TICK;
    TouchWithin(e, k, bidAt, askAt);
  }

  lemma TouchWithin(e: nat, k: nat, bid: int, ask: int)
    requires k <= 10
    requires bid == if k <= 1 || (k <= 4 && (e % 2 == 1 || k <= 3)) then Mid(e) - TICK
                    else if k <= 5 then MID - FLOOR else Mid(e + 1) - TICK
    requires ask == if k <= 1 || (k <= 4 && (e % 2 == 0 || k <= 3)) then Mid(e) + TICK
                    else if k <= 6 then MID + FLOOR else Mid(e + 1) + TICK
    ensures Touch(Within(e, k), bid, ask)
  {
    if k <= 4 { TouchAtFirst(e, k, bid, ask); } else { TouchLater(e, k, bid, ask); }
    hide Within, Touch;
  }

  lemma TouchAtFirst(e: nat, k: nat, bid: int, ask: int)
    requires k <= 4
    requires bid == if k <= 3 || e % 2 == 1 then Mid(e) - TICK else MID - FLOOR
    requires ask == if k <= 3 || e % 2 == 0 then Mid(e) + TICK else MID + FLOOR
    ensures Touch(Within(e, k), bid, ask)
  {
    var o := Within(e, k);
    assert 1 in o && 2 in o && (NearBid(e) in o || NearBid(e) !in o) && (NearAsk(e) in o || NearAsk(e) !in o);
    assert Behind(e) in o || Behind(e) !in o;
  }

  lemma TouchLater(e: nat, k: nat, bid: int, ask: int)
    requires 5 <= k <= 10
    requires bid == if k == 5 then MID - FLOOR else Mid(e + 1) - TICK
    requires ask == if k <= 6 then MID + FLOOR else Mid(e + 1) + TICK
    ensures Touch(Within(e, k), bid, ask)
  {
    var o := Within(e, k);
    assert 1 in o && 2 in o && (NearBid(e + 1) in o || NearBid(e + 1) !in o);
    assert NearAsk(e + 1) in o || NearAsk(e + 1) !in o;
  }

  /** Both executions take the oldest order at the best price: the first in full, the second in part. */
  lemma FrontOfQueue(e: nat, b: Book)
    ensures b.orders == Within(e, 1) ==> OldestAtBest(b, AheadOf(e)) && b.orders[AheadOf(e)].shares == QUOTE
    ensures b.orders == Within(e, 2) ==> OldestAtBest(b, Behind(e)) && b.orders[Behind(e)].shares > QUOTE
  {
  }

  /** The finished tape at any message of any episode: nothing unknown, two sides, uncrossed, and in turn. */
  lemma EveryInstant(n: nat, e: nat, k: nat)
    requires e < n && k <= 10
    ensures var b := Rebuild(Finished(n)[..8 + 10 * e + k]);
      && b.unknown == 0
      && (exists bid, ask :: Touch(b.orders, bid, ask) && bid < ask)
      && (k == 1 ==> OldestAtBest(b, AheadOf(e)) && b.orders[AheadOf(e)].shares == QUOTE)
      && (k == 2 ==> OldestAtBest(b, Behind(e)) && b.orders[Behind(e)].shares > QUOTE)
  {
    hide Sofar, Episode, Within, Standing, Touch, OldestAtBest;
    SofarPrefix(n, e, k);
    BetweenEpisodes(e);
    EpisodeBooks(e, k, Sofar(e));
    assert Finished(n)[..8 + 10 * e + k] == Sofar(n)[..8 + 10 * e + k];
    NeverOneSided(e, k);
    FrontOfQueue(e, Rebuild(Finished(n)[..8 + 10 * e + k]));
  }

  // ---- what the fills are worth --------------------------------------------------------------------

  /** The book a listener has once the clock shows `now`: after every message stamped by then, and no other. */
  ghost predicate StandsAt(tape: seq<Message>, now: nat, orders: map<nat, Resting>) {
    exists k :: 0 <= k <= |tape| && SplitsAt(tape, now, k) && Rebuild(tape[..k]).orders == orders
  }

  predicate SplitsAt(tape: seq<Message>, now: nat, k: nat)
    requires k <= |tape|
  {
    (forall i :: 0 <= i < k ==> tape[i].ts <= now) && (forall i :: k <= i < |tape| ==> tape[i].ts > now)
  }

  function FillTime(e: nat): nat {
    Start(e) + 30 * MS
  }

  /** The messages the clock has passed inside an episode, told by their offsets. */
  function Offset(k: nat): nat {
    if k == 0 then 10 * MS else if k == 1 then 20 * MS else if k == 2 then 30 * MS else if k <= 6 then 40 * MS
    else if k == 7 then 240 * MS else if k == 8 then 2240 * MS else 14240 * MS
  }

  lemma {:induction false} Stamps(n: nat, i: nat)
    requires i < 8 + 10 * n
    ensures i < 8 ==> Sofar(n)[i].ts <= T0 + S
    ensures i >= 8 ==> Sofar(n)[i].ts == Start((i - 8) / 10) + Offset((i - 8) % 10)
  {
    if n == 0 {
    } else if i < 8 + 10 * (n - 1) {
      Stamps(n - 1, i);
    } else {
      assert (i - 8) / 10 == n - 1 && (i - 8) % 10 == i - 8 - 10 * (n - 1);
      assert Sofar(n)[i] == Episode(n - 1)[i - 8 - 10 * (n - 1)];
    }
  }

  lemma {:induction false} SofarPrefix(n: nat, e: nat, k: nat)
    requires e < n && k <= 10
    ensures Sofar(n)[..8 + 10 * e + k] == Sofar(e) + Episode(e)[..k]
  {
    if n > e + 1 {
      SofarPrefix(n - 1, e, k);
    }
  }

  lemma Later(a: nat, b: nat)
    requires a < b
    ensures Start(a) + 14240 * MS <= Start(b)
  {
  }

  /** The clock splits the finished tape inside episode e, wherever `now` lies between two offsets. */
  lemma SplitsInside(n: nat, e: nat, k: nat, now: nat)
    requires e < n && 1 <= k <= 9 && Start(e) + Offset(k - 1) <= now < Start(e) + Offset(k)
    ensures SplitsAt(Finished(n), now, 8 + 10 * e + k)
  {
    hide Sofar, Episode, Opening, Start, Offset;
    var tape, at := Finished(n), 8 + 10 * e + k;
    OffsetsAscend();
    FirstAfterOpening(e);
    forall i | 0 <= i < at
      ensures tape[i].ts <= now
    {
      assert tape[i] == Sofar(n)[i];
      Stamps(n, i);
      if i >= 8 && (i - 8) / 10 < e {
        Later((i - 8) / 10, e);
      }
    }
    forall i | at <= i < |tape|
      ensures tape[i].ts > now
    {
      if i < 8 + 10 * n {
        assert tape[i] == Sofar(n)[i];
        Stamps(n, i);
        if (i - 8) / 10 > e {
          Later(e, (i - 8) / 10);
        }
      } else {
        Later(e, n);
      }
    }
  }

  lemma OffsetsAscend()
    ensures forall i, j :: 0 <= i < j < 10 ==> Offset(i) <= Offset(j)
    ensures forall i :: 0 <= i < 10 ==> 0 < Offset(i) <= Offset(9) == 14240 * MS
  {
  }

  lemma FirstAfterOpening(e: nat)
    ensures T0 + S <= Start(e)
  {
  }

  lemma BookInside(n: nat, e: nat, k: nat, now: nat)
    requires e < n && 1 <= k <= 9 && Start(e) + Offset(k - 1) <= now < Start(e) + Offset(k)
    ensures StandsAt(Finished(n), now, Within(e, k))
  {
    hide Sofar, Episode, Within, Standing, Start, Offset, SplitsAt;
    SplitsInside(n, e, k, now);
    SofarPrefix(n, e, k);
    BetweenEpisodes(e);
    EpisodeBooks(e, k, Sofar(e));
    var at := 8 + 10 * e + k;
    assert Finished(n)[..at] == Sofar(n)[..at];
  }

  /**
   * Every fill of every run: the touch is one tick either side of the mid when it prints, and one tick either
   * side of a mid two ticks worse for it a tenth of a second, one second and ten seconds later.
   */
  lemma FillIsAdverse(n: nat, e: nat, horizon: nat)
    requires e < n && horizon in {100 * MS, S, 10 * S}
    ensures StandsAt(Finished(n), FillTime(e), Within(e, 3))
    ensures Touch(Within(e, 3), Mid(e) - TICK, Mid(e) + TICK)
    ensures StandsAt(Finished(n), FillTime(e) + horizon, Standing(e + 1))
    ensures Touch(Standing(e + 1), Mid(e + 1) - TICK, Mid(e + 1) + TICK)
    ensures Edge(EpisodeSide(e), Price(e), Mid(e)) == TICK
    ensures Edge(EpisodeSide(e), Mid(e), Mid(e + 1)) == -2 * TICK
  {
    hide Within, Standing, Touch, StandsAt;
    TouchWithin(e, 3, Mid(e) - TICK, Mid(e) + TICK);
    TouchWithin(e, 10, Mid(e + 1) - TICK, Mid(e + 1) + TICK);
    WithinStarts(e);
    BookInside(n, e, 3, FillTime(e));
    BookInside(n, e, if horizon == 100 * MS then 7 else if horizon == S then 8 else 9, FillTime(e) + horizon);
  }

  /** What one share gained on a move from one price to another, for the side that traded. */
  function Edge(side: Side, from: int, to: int): int {
    if side.Bid? then to - from else from - to
  }
}
