/** ITCH 5.0 messages, the generators' encoders, the reference decoders and the length-prefixed framing. */
module Itch {
  import opened Wrappers
  import opened Bytes

  datatype Side = Bid | Ask

  function SideByte(side: Side): byte {
    if side.Bid? then Ch('B') else Ch('S')
  }

  datatype Body =
    | SystemEvent(code: byte)
    | StockDirectory(stock: Data)
    | AddOrder(ref: nat, side: Side, shares: nat, stock: Data, price: int)
    | AddOrderMpid(ref: nat, side: Side, shares: nat, stock: Data, price: int, mpid: Data)
    | OrderExecuted(ref: nat, shares: nat, match_: nat)
    | OrderExecutedPrice(ref: nat, shares: nat, match_: nat, printable: bool, price: int)
    | OrderCancel(ref: nat, shares: nat)
    | OrderDelete(ref: nat)
    | OrderReplace(ref: nat, newRef: nat, shares: nat, price: int)
    | Trade(ref: nat, side: Side, shares: nat, stock: Data, price: int, match_: nat)
    | CrossTrade(shares: nat, stock: Data, price: int, match_: nat, crossType: byte)
    | TradingAction(stock: Data, state: byte, reason: Data)

  datatype Message = Message(locate: nat, ts: nat, body: Body)

  const HEADER_LEN: nat := 11

  /** A trading action's reason, left blank. */
  const BLANK4: Data := [Ch(' '), Ch(' '), Ch(' '), Ch(' ')]

  function TypeByte(b: Body): byte {
    match b
    case SystemEvent(_) => Ch('S')
    case StockDirectory(_) => Ch('R')
    case AddOrder(_, _, _, _, _) => Ch('A')
    case AddOrderMpid(_, _, _, _, _, _) => Ch('F')
    case OrderExecuted(_, _, _) => Ch('E')
    case OrderExecutedPrice(_, _, _, _, _) => Ch('C')
    case OrderCancel(_, _) => Ch('X')
    case OrderDelete(_) => Ch('D')
    case OrderReplace(_, _, _, _) => Ch('U')
    case Trade(_, _, _, _, _, _) => Ch('P')
    case CrossTrade(_, _, _, _, _) => Ch('Q')
    case TradingAction(_, _, _) => Ch('H')
  }

  /** Whether every field fits its width; the encoders raise on any other message. */
  predicate EncodableBody(b: Body) {
    match b
    case SystemEvent(_) => true
    case StockDirectory(stock) => |stock| == 8
    case AddOrder(ref, _, shares, stock, price) =>
      Fits(ref, 8) && Fits(shares, 4) && |stock| == 8 && Fits(price, 4)
    case AddOrderMpid(ref, _, shares, stock, price, mpid) =>
      Fits(ref, 8) && Fits(shares, 4) && |stock| == 8 && Fits(price, 4) && |mpid| == 4
    case OrderExecuted(ref, shares, m) => Fits(ref, 8) && Fits(shares, 4) && Fits(m, 8)
    case OrderExecutedPrice(ref, shares, m, _, price) =>
      Fits(ref, 8) && Fits(shares, 4) && Fits(m, 8) && Fits(price, 4)
    case OrderCancel(ref, shares) => Fits(ref, 8) && Fits(shares, 4)
    case OrderDelete(ref) => Fits(ref, 8)
    case OrderReplace(ref, newRef, shares, price) =>
      Fits(ref, 8) && Fits(newRef, 8) && Fits(shares, 4) && Fits(price, 4)
    case Trade(ref, _, shares, stock, price, m) =>
      Fits(ref, 8) && Fits(shares, 4) && |stock| == 8 && Fits(price, 4) && Fits(m, 8)
    case CrossTrade(shares, stock, price, m, _) =>
      Fits(shares, 8) && |stock| == 8 && Fits(price, 4) && Fits(m, 8)
    case TradingAction(stock, _, reason) => |stock| == 8 && |reason| == 4
  }

  predicate Encodable(m: Message) {
    Fits(m.locate, 2) && Fits(m.ts, 6) && EncodableBody(m.body)
  }

  /** type(1) locate(2) tracking(2) timestamp(6), common to every message. */
  function Header(kind: byte, locate: nat, ts: nat): (h: Data)
    ensures |h| == HEADER_LEN
  {
    [kind] + BigEndian(locate, 2) + BigEndian(0, 2) + BigEndian(ts, 6)
  }

  function EncodeBody(b: Body): Data
    requires EncodableBody(b)
  {
    match b
    case SystemEvent(code) => [code]
    case StockDirectory(stock) => stock + seq(20, _ => 0 as byte)
    case AddOrder(ref, side, shares, stock, price) =>
      BigEndian(ref, 8) + [SideByte(side)] + BigEndian(shares, 4) + stock + BigEndian(price, 4)
    case AddOrderMpid(ref, side, shares, stock, price, mpid) =>
      BigEndian(ref, 8) + [SideByte(side)] + BigEndian(shares, 4) + stock + BigEndian(price, 4) + mpid
    case OrderExecuted(ref, shares, m) => BigEndian(ref, 8) + BigEndian(shares, 4) + BigEndian(m, 8)
    case OrderExecutedPrice(ref, shares, m, printable, price) =>
      BigEndian(ref, 8) + BigEndian(shares, 4) + BigEndian(m, 8)
      + [if printable then Ch('Y') else Ch('N')] + BigEndian(price, 4)
    case OrderCancel(ref, shares) => BigEndian(ref, 8) + BigEndian(shares, 4)
    case OrderDelete(ref) => BigEndian(ref, 8)
    case OrderReplace(ref, newRef, shares, price) =>
      BigEndian(ref, 8) + BigEndian(newRef, 8) + BigEndian(shares, 4) + BigEndian(price, 4)
    case Trade(ref, side, shares, stock, price, m) =>
      BigEndian(ref, 8) + [SideByte(side)] + BigEndian(shares, 4) + stock + BigEndian(price, 4) + BigEndian(m, 8)
    case CrossTrade(shares, stock, price, m, crossType) =>
      BigEndian(shares, 8) + stock + BigEndian(price, 4) + BigEndian(m, 8) + [crossType]
    case TradingAction(stock, state, reason) => stock + [state] + [Ch(' ')] + reason
  }

  function Encode(m: Message): (p: Data)
    requires Encodable(m)
  {
    Header(TypeByte(m.body), m.locate, m.ts) + EncodeBody(m.body)
  }

  /** Payload length of each modelled type; 0 for the types no decoder here reads. */
  function SpecLength(kind: byte): nat {
    if kind == Ch('S') then 12 else if kind == Ch('R') then 39
    else if kind == Ch('A') then 36 else if kind == Ch('F') then 40
    else if kind == Ch('E') then 31 else if kind == Ch('C') then 36
    else if kind == Ch('X') then 23 else if kind == Ch('D') then 19
    else if kind == Ch('U') then 35 else if kind == Ch('P') then 44
    else if kind == Ch('Q') then 40 else if kind == Ch('H') then 25
    else 0
  }

  /** The consumer's book treats any side byte other than 'B' as an ask. */
  function SideOf(b: byte): Side {
    if b == Ch('B') then Bid else Ask
  }

  /** The fixed-offset reference decoders. A length that disagrees with the table is rejected. */
  function Decode(p: Data): Option<Message> {
    if |p| == 0 || |p| != SpecLength(p[0]) then None
    else Some(Message(Field(p, 1, 2), Field(p, 5, 6), DecodeBody(p)))
  }

  function DecodeBody(p: Data): Body
    requires |p| > 0 && |p| == SpecLength(p[0])
  {
    var k := p[0];
    if k == Ch('S') then SystemEvent(p[11])
    else if k == Ch('R') then StockDirectory(p[11..19])
    else if k == Ch('A') then
      AddOrder(Field(p, 11, 8), SideOf(p[19]), Field(p, 20, 4), p[24..32], Field(p, 32, 4))
    else if k == Ch('F') then
      AddOrderMpid(Field(p, 11, 8), SideOf(p[19]), Field(p, 20, 4), p[24..32], Field(p, 32, 4), p[36..40])
    else if k == Ch('E') then OrderExecuted(Field(p, 11, 8), Field(p, 19, 4), Field(p, 23, 8))
    else if k == Ch('C') then
      OrderExecutedPrice(Field(p, 11, 8), Field(p, 19, 4), Field(p, 23, 8), p[31] == Ch('Y'), Field(p, 32, 4))
    else if k == Ch('X') then OrderCancel(Field(p, 11, 8), Field(p, 19, 4))
    else if k == Ch('D') then OrderDelete(Field(p, 11, 8))
    else if k == Ch('U') then
      OrderReplace(Field(p, 11, 8), Field(p, 19, 8), Field(p, 27, 4), Field(p, 31, 4))
    else if k == Ch('P') then
      Trade(Field(p, 11, 8), SideOf(p[19]), Field(p, 20, 4), p[24..32], Field(p, 32, 4), Field(p, 36, 8))
    else if k == Ch('Q') then
      CrossTrade(Field(p, 11, 8), p[19..27], Field(p, 27, 4), Field(p, 31, 8), p[39])
    else
      TradingAction(p[11..19], p[19], p[21..25])
  }

  /** A field written after `pre` and before `post` is read back from its offset. */
  lemma FieldAt(p: Data, pre: Data, n: nat, width: nat, post: Data)
    requires p == pre + BigEndian(n, width) + post
    requires Fits(n, width)
    ensures Field(p, |pre|, width) == n
  {
    assert p[|pre|..|pre| + width] == BigEndian(n, width);
    BigEndianRoundTrip(n, width);
  }

  lemma HeaderRoundTrip(m: Message)
    requires Encodable(m)
    ensures var p := Encode(m);
      |p| == SpecLength(p[0]) && p[0] == TypeByte(m.body)
      && Field(p, 1, 2) == m.locate && Field(p, 5, 6) == m.ts
      && p[HEADER_LEN..] == EncodeBody(m.body)
  {
    var p := Encode(m);
    var kind := [TypeByte(m.body)];
    var loc, trk, ts, body := BigEndian(m.locate, 2), BigEndian(0, 2), BigEndian(m.ts, 6), EncodeBody(m.body);
    FieldAt(p, kind, m.locate, 2, trk + ts + body);
    FieldAt(p, kind + loc + trk, m.ts, 6, body);
  }

  /** Decoding undoes encoding, for every encodable message of every type. */
  lemma DecodeEncode(m: Message)
    requires Encodable(m)
    ensures Decode(Encode(m)) == Some(m)
  {
    HeaderRoundTrip(m);
    BodyRoundTrip(m);
  }

  /** A header and up to six consecutive pieces are found again at their offsets. */
  lemma PiecesAt(p: Data, h: Data, a: Data, b: Data, c: Data, d: Data, e: Data, f: Data)
    requires |h| == HEADER_LEN && p == h + a + b + c + d + e + f
    ensures var i := 11 + |a|; var j := i + |b|; var k := j + |c|; var l := k + |d|; var n := l + |e|;
      && p[11..i] == a && p[i..j] == b && p[j..k] == c && p[k..l] == d && p[l..n] == e && p[n..] == f
  {
  }

  lemma BodyRoundTrip(m: Message)
    requires Encodable(m)
    requires var p := Encode(m); |p| == SpecLength(p[0])
    ensures DecodeBody(Encode(m)) == m.body
  {
    match m.body
    case SystemEvent(_) =>
    case StockDirectory(_) =>
    case AddOrder(_, _, _, _, _) => AddOrderRoundTrip(m);
    case AddOrderMpid(_, _, _, _, _, _) => AddOrderMpidRoundTrip(m);
    case OrderExecuted(_, _, _) => OrderExecutedRoundTrip(m);
    case OrderExecutedPrice(_, _, _, _, _) => OrderExecutedPriceRoundTrip(m);
    case OrderCancel(_, _) => OrderCancelRoundTrip(m);
    case OrderDelete(_) => OrderDeleteRoundTrip(m);
    case OrderReplace(_, _, _, _) => OrderReplaceRoundTrip(m);
    case Trade(_, _, _, _, _, _) => TradeRoundTrip(m);
    case CrossTrade(_, _, _, _, _) => CrossTradeRoundTrip(m);
    case TradingAction(_, _, _) =>
  }

  lemma AddOrderRoundTrip(m: Message)
    requires Encodable(m) && m.body.AddOrder?
    requires var p := Encode(m); |p| == SpecLength(p[0])
    ensures DecodeBody(Encode(m)) == m.body
  {
    hide BigEndian, FromBigEndian, Pow256;
    var p, h := Encode(m), Header(TypeByte(m.body), m.locate, m.ts);
    var AddOrder(ref, side, shares, stock, price) := m.body;
    PiecesAt(p, h,
      BigEndian(ref, 8), [SideByte(side)], BigEndian(shares, 4), stock, BigEndian(price, 4), []);
    BigEndianRoundTrip(ref, 8);
    BigEndianRoundTrip(shares, 4);
    BigEndianRoundTrip(price, 4);
  }

  lemma AddOrderMpidRoundTrip(m: Message)
    requires Encodable(m) && m.body.AddOrderMpid?
    requires var p := Encode(m); |p| == SpecLength(p[0])
    ensures DecodeBody(Encode(m)) == m.body
  {
    hide BigEndian, FromBigEndian, Pow256;
    var p, h := Encode(m), Header(TypeByte(m.body), m.locate, m.ts);
    var AddOrderMpid(ref, side, shares, stock, price, mpid) := m.body;
    PiecesAt(p, h,
      BigEndian(ref, 8), [SideByte(side)], BigEndian(shares, 4), stock, BigEndian(price, 4), mpid);
    BigEndianRoundTrip(ref, 8);
    BigEndianRoundTrip(shares, 4);
    BigEndianRoundTrip(price, 4);
  }

  lemma OrderExecutedRoundTrip(m: Message)
    requires Encodable(m) && m.body.OrderExecuted?
    requires var p := Encode(m); |p| == SpecLength(p[0])
    ensures DecodeBody(Encode(m)) == m.body
  {
    hide BigEndian, FromBigEndian, Pow256;
    var p, h := Encode(m), Header(TypeByte(m.body), m.locate, m.ts);
    var OrderExecuted(ref, shares, n) := m.body;
    PiecesAt(p, h,
      BigEndian(ref, 8), BigEndian(shares, 4), BigEndian(n, 8), [], [], []);
    BigEndianRoundTrip(ref, 8);
    BigEndianRoundTrip(shares, 4);
    BigEndianRoundTrip(n, 8);
  }

  lemma OrderExecutedPriceRoundTrip(m: Message)
    requires Encodable(m) && m.body.OrderExecutedPrice?
    requires var p := Encode(m); |p| == SpecLength(p[0])
    ensures DecodeBody(Encode(m)) == m.body
  {
    hide BigEndian, FromBigEndian, Pow256;
    var p, h := Encode(m), Header(TypeByte(m.body), m.locate, m.ts);
    var OrderExecutedPrice(ref, shares, n, printable, price) := m.body;
    PiecesAt(p, h,
      BigEndian(ref, 8), BigEndian(shares, 4), BigEndian(n, 8), [if printable then Ch('Y') else Ch('N')],
        BigEndian(price, 4), []);
    BigEndianRoundTrip(ref, 8);
    BigEndianRoundTrip(shares, 4);
    BigEndianRoundTrip(n, 8);
    BigEndianRoundTrip(price, 4);
  }

  lemma OrderCancelRoundTrip(m: Message)
    requires Encodable(m) && m.body.OrderCancel?
    requires var p := Encode(m); |p| == SpecLength(p[0])
    ensures DecodeBody(Encode(m)) == m.body
  {
    hide BigEndian, FromBigEndian, Pow256;
    var p, h := Encode(m), Header(TypeByte(m.body), m.locate, m.ts);
    var OrderCancel(ref, shares) := m.body;
    PiecesAt(p, h,
      BigEndian(ref, 8), BigEndian(shares, 4), [], [], [], []);
    BigEndianRoundTrip(ref, 8);
    BigEndianRoundTrip(shares, 4);
  }

  lemma OrderDeleteRoundTrip(m: Message)
    requires Encodable(m) && m.body.OrderDelete?
    requires var p := Encode(m); |p| == SpecLength(p[0])
    ensures DecodeBody(Encode(m)) == m.body
  {
    hide BigEndian, FromBigEndian, Pow256;
    var p, h := Encode(m), Header(TypeByte(m.body), m.locate, m.ts);
    var OrderDelete(ref) := m.body;
    PiecesAt(p, h,
      BigEndian(ref, 8), [], [], [], [], []);
    BigEndianRoundTrip(ref, 8);
  }

  lemma OrderReplaceRoundTrip(m: Message)
    requires Encodable(m) && m.body.OrderReplace?
    requires var p := Encode(m); |p| == SpecLength(p[0])
    ensures DecodeBody(Encode(m)) == m.body
  {
    hide BigEndian, FromBigEndian, Pow256;
    var p, h := Encode(m), Header(TypeByte(m.body), m.locate, m.ts);
    var OrderReplace(ref, newRef, shares, price) := m.body;
    PiecesAt(p, h,
      BigEndian(ref, 8), BigEndian(newRef, 8), BigEndian(shares, 4), BigEndian(price, 4), [], []);
    BigEndianRoundTrip(ref, 8);
    BigEndianRoundTrip(newRef, 8);
    BigEndianRoundTrip(shares, 4);
    BigEndianRoundTrip(price, 4);
  }

  lemma TradeRoundTrip(m: Message)
    requires Encodable(m) && m.body.Trade?
    requires var p := Encode(m); |p| == SpecLength(p[0])
    ensures DecodeBody(Encode(m)) == m.body
  {
    hide BigEndian, FromBigEndian, Pow256;
    var p, h := Encode(m), Header(TypeByte(m.body), m.locate, m.ts);
    var Trade(ref, side, shares, stock, price, n) := m.body;
    PiecesAt(p, h,
      BigEndian(ref, 8), [SideByte(side)], BigEndian(shares, 4), stock, BigEndian(price, 4), BigEndian(n, 8));
    BigEndianRoundTrip(ref, 8);
    BigEndianRoundTrip(shares, 4);
    BigEndianRoundTrip(price, 4);
    BigEndianRoundTrip(n, 8);
    assert p[36..44] == BigEndian(n, 8);
  }

  lemma CrossTradeRoundTrip(m: Message)
    requires Encodable(m) && m.body.CrossTrade?
    requires var p := Encode(m); |p| == SpecLength(p[0])
    ensures DecodeBody(Encode(m)) == m.body
  {
    hide BigEndian, FromBigEndian, Pow256;
    var p, h := Encode(m), Header(TypeByte(m.body), m.locate, m.ts);
    var CrossTrade(shares, stock, price, n, crossType) := m.body;
    PiecesAt(p, h,
      BigEndian(shares, 8), stock, BigEndian(price, 4), BigEndian(n, 8), [crossType], []);
    BigEndianRoundTrip(shares, 8);
    BigEndianRoundTrip(price, 4);
    BigEndianRoundTrip(n, 8);
    assert p[39..][0] == crossType;
  }

  // ---- framing -----------------------------------------------------------------

  /** Prefix a payload with its two-byte length. */
  function Frame(p: Data): Data {
    BigEndian(|p|, 2) + p
  }

  predicate Framable(p: Data) {
    Fits(|p|, 2)
  }

  /** The stream a generator has written after emitting `ps`, oldest first. */
  function FrameAll(ps: seq<Data>): Data {
    if ps == [] then [] else FrameAll(ps[..|ps| - 1]) + Frame(ps[|ps| - 1])
  }

  lemma FrameAllAppend(ps: seq<Data>, p: Data)
    ensures FrameAll(ps + [p]) == FrameAll(ps) + Frame(p)
  {
    assert (ps + [p])[..|ps|] == ps;
  }

  lemma {:induction false} FrameAllConcat(a: seq<Data>, b: seq<Data>)
    ensures FrameAll(a + b) == FrameAll(a) + FrameAll(b)
  {
    if b == [] {
      assert a + b == a;
    } else {
      var init, last := b[..|b| - 1], b[|b| - 1];
      FrameAllConcat(a, init);
      assert (a + b)[..|a + b| - 1] == a + init && (a + b)[|a + b| - 1] == last;
      assert FrameAll(a) + (FrameAll(init) + Frame(last)) == FrameAll(a) + FrameAll(init) + Frame(last);
    }
  }

  /** The feed of a message sequence. */
  function Payloads(tape: seq<Message>): (ps: seq<Data>)
    requires forall m :: m in tape ==> Encodable(m)
    ensures |ps| == |tape|
  {
    seq(|tape|, i requires 0 <= i < |tape| => Encode(tape[i]))
  }

  function EncodeFeed(tape: seq<Message>): Data
    requires forall m :: m in tape ==> Encodable(m)
  {
    FrameAll(Payloads(tape))
  }

  /** Walk a framed stream: None on a truncated prefix or body, otherwise the payloads in order. */
  function Unframe(data: Data): Option<seq<Data>>
    decreases |data|
  {
    if data == [] then Some([])
    else if |data| < 2 then None
    else
      var n := Field(data, 0, 2);
      if |data| < 2 + n then None
      else
        match Unframe(data[2 + n..])
        case None => None
        case Some(rest) => Some([data[2..2 + n]] + rest)
  }

  lemma {:induction false} UnframeFrameAll(ps: seq<Data>)
    requires forall p :: p in ps ==> Framable(p)
    ensures Unframe(FrameAll(ps)) == Some(ps)
  {
    if ps != [] {
      var p, rest := ps[0], ps[1..];
      assert ps == [p] + rest;
      assert p in ps && Framable(p);
      assert [p][..0] == [];
      assert FrameAll([p]) == FrameAll([]) + Frame(p);
      FrameAllConcat([p], rest);
      var data := FrameAll(ps);
      assert data == BigEndian(|p|, 2) + p + FrameAll(rest);
      FieldAt(data, [], |p|, 2, p + FrameAll(rest));
      assert data[2..2 + |p|] == p;
      assert data[2 + |p|..] == FrameAll(rest);
      UnframeFrameAll(rest);
    }
  }

  /** Decode every payload, or None if one of them is malformed. */
  function DecodeAll(ps: seq<Data>): Option<seq<Message>> {
    if ps == [] then Some([])
    else
      match (Decode(ps[0]), DecodeAll(ps[1..]))
      case (Some(m), Some(rest)) => Some([m] + rest)
      case _ => None
  }

  lemma DecodeAllCons(p: Data, m: Message, ps: seq<Data>, ms: seq<Message>)
    requires Decode(p) == Some(m) && DecodeAll(ps) == Some(ms)
    ensures DecodeAll([p] + ps) == Some([m] + ms)
  {
    assert ([p] + ps)[1..] == ps;
  }

  lemma {:induction false} DecodeAllPayloads(tape: seq<Message>)
    requires forall m :: m in tape ==> Encodable(m)
    ensures DecodeAll(Payloads(tape)) == Some(tape)
  {
    if tape != [] {
      var m, rest := tape[0], tape[1..];
      DecodeAllPayloads(rest);
      DecodeEncode(m);
      assert m in tape && Payloads(tape) == [Encode(m)] + Payloads(rest);
      DecodeAllCons(Encode(m), m, Payloads(rest), rest);
      assert [m] + rest == tape;
    }
  }

  /** What a consumer reads from a feed's bytes. */
  function ParseFeed(data: Data): Option<seq<Message>> {
    match Unframe(data)
    case None => None
    case Some(ps) => DecodeAll(ps)
  }

  /** A feed parses back to exactly the messages it was built from. */
  lemma ParseEncodeFeed(tape: seq<Message>)
    requires forall m :: m in tape ==> Encodable(m)
    ensures ParseFeed(EncodeFeed(tape)) == Some(tape)
  {
    var ps := Payloads(tape);
    forall p | p in ps
      ensures Framable(p)
    {
      var i :| 0 <= i < |ps| && ps[i] == p;
      HeaderRoundTrip(tape[i]);
      assert |p| <= 44;
      assert Pow256(2) == 65536;
    }
    UnframeFrameAll(ps);
    DecodeAllPayloads(tape);
  }

  lemma EncodeFeedAppend(tape: seq<Message>, m: Message)
    requires forall x :: x in tape ==> Encodable(x)
    requires Encodable(m)
    ensures forall x :: x in tape + [m] ==> Encodable(x)
    ensures EncodeFeed(tape + [m]) == EncodeFeed(tape) + Frame(Encode(m))
  {
    assert Payloads(tape + [m]) == Payloads(tape) + [Encode(m)];
    FrameAllAppend(Payloads(tape), Encode(m));
  }

  lemma UnframeStep(data: Data, i: nat)
    requires i + 2 <= |data|
    ensures var n := Field(data, i, 2);
      if i + 2 + n > |data| then Unframe(data[i..]) == None
      else match Unframe(data[i + 2 + n..])
        case None => Unframe(data[i..]) == None
        case Some(rest) => Unframe(data[i..]) == Some([data[i + 2..i + 2 + n]] + rest)
  {
    var rest, n := data[i..], Field(data, i, 2);
    assert rest[0..2] == data[i..i + 2];
    if i + 2 + n <= |data| {
      assert rest[2..2 + n] == data[i + 2..i + 2 + n];
      assert rest[2 + n..] == data[i + 2 + n..];
    }
  }

  lemma UnframeEnds(data: Data, i: nat)
    requires i <= |data|
    ensures i == |data| ==> Unframe(data[i..]) == Some([])
    ensures i == |data| - 1 ==> Unframe(data[i..]) == None
  {
  }

  /**
   * The multi-symbol builder's walk over a stream. A slice that runs past the end is cut short, as it is in
   * the program, so the walk is total; on a well-formed stream it returns exactly the framed payloads.
   */
  method Frames(data: Data) returns (ps: seq<Data>)
    ensures Unframe(data).Some? ==> ps == Unframe(data).value
  {
    hide BigEndian, FromBigEndian, Unframe;
    ps := [];
    var i := 0;
    assert data[0..] == data;
    while i < |data|
      invariant Unframe(data).Some? ==> i <= |data|
      invariant Unframe(data).Some? ==>
        Unframe(data[i..]).Some? && Unframe(data).value == ps + Unframe(data[i..]).value
    {
      var n := FromBigEndian(data[i..if i + 2 <= |data| then i + 2 else |data|]);
      if i + 2 <= |data| {
        UnframeStep(data, i);
      } else {
        UnframeEnds(data, i);
      }
      if i + 2 + n <= |data| {
        ps := ps + [data[i + 2..i + 2 + n]];
      } else {
        ps := ps + [if i + 2 <= |data| then data[i + 2..] else []];
      }
      i := i + 2 + n;
    }
    if i == |data| { UnframeEnds(data, i); }
  }
}
