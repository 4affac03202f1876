/** The multi-symbol builder: restamp each stream into its own locate and reference range, then merge by time. */
module MergeFeed {
  import opened Wrappers
  import opened Bytes
  import opened Itch

  const REF_STRIDE: nat := 0x100_0000_0000

  // ---- restamping -----------------------------------------------------------------

  function ShiftRefs(b: Body, symbol: Data, offset: nat): Body {
    match b
    case StockDirectory(_) => StockDirectory(symbol)
    case AddOrder(ref, side, shares, stock, price) => AddOrder(ref + offset, side, shares, stock, price)
    case AddOrderMpid(ref, side, shares, stock, price, mpid) =>
      AddOrderMpid(ref + offset, side, shares, stock, price, mpid)
    case OrderExecuted(ref, shares, n) => OrderExecuted(ref + offset, shares, n)
    case OrderExecutedPrice(ref, shares, n, printable, price) =>
      OrderExecutedPrice(ref + offset, shares, n, printable, price)
    case OrderCancel(ref, shares) => OrderCancel(ref + offset, shares)
    case OrderDelete(ref) => OrderDelete(ref + offset)
    case OrderReplace(ref, newRef, shares, price) => OrderReplace(ref + offset, newRef + offset, shares, price)
    case Trade(ref, side, shares, stock, price, n) => Trade(ref + offset, side, shares, stock, price, n)
    case _ => b
  }

  /** What restamping means: a new locate, a new symbol in 'R', and every reference moved by one offset. */
  function Stamped(m: Message, locate: nat, symbol: Data, offset: nat): Message {
    Message(locate, m.ts, ShiftRefs(m.body, symbol, offset))
  }

  /** Overwrite the bytes at `at`. */
  function Patch(p: Data, at: nat, with: Data): (r: Data)
    requires at + |with| <= |p|
    ensures |r| == |p|
  {
    p[..at] + with + p[at + |with|..]
  }

  lemma PatchMiddle(pre: Data, was: Data, now: Data, post: Data)
    requires |was| == |now|
    ensures Patch(pre + was + post, |pre|, now) == pre + now + post
  {
  }

  /** The bytes after the references, which restamping leaves alone. */
  function Tail(b: Body): Data
    requires EncodableBody(b)
  {
    match b
    case AddOrder(_, side, shares, stock, price) =>
      [SideByte(side)] + BigEndian(shares, 4) + stock + BigEndian(price, 4)
    case AddOrderMpid(_, side, shares, stock, price, mpid) =>
      [SideByte(side)] + BigEndian(shares, 4) + stock + BigEndian(price, 4) + mpid
    case OrderExecuted(_, shares, n) => BigEndian(shares, 4) + BigEndian(n, 8)
    case OrderExecutedPrice(_, shares, n, printable, price) =>
      BigEndian(shares, 4) + BigEndian(n, 8) + [if printable then Ch('Y') else Ch('N')] + BigEndian(price, 4)
    case OrderCancel(_, shares) => BigEndian(shares, 4)
    case OrderReplace(_, _, shares, price) => BigEndian(shares, 4) + BigEndian(price, 4)
    case Trade(_, side, shares, stock, price, n) =>
      [SideByte(side)] + BigEndian(shares, 4) + stock + BigEndian(price, 4) + BigEndian(n, 8)
    case _ => []
  }

  predicate HasRef(b: Body) {
    b.AddOrder? || b.AddOrderMpid? || b.OrderExecuted? || b.OrderExecutedPrice? || b.OrderCancel? || b.OrderDelete?
    || b.OrderReplace? || b.Trade?
  }

  lemma BodyShape(b: Body)
    requires EncodableBody(b) && HasRef(b)
    ensures b.OrderReplace? ==> EncodeBody(b) == BigEndian(b.ref, 8) + BigEndian(b.newRef, 8) + Tail(b)
    ensures !b.OrderReplace? ==> EncodeBody(b) == BigEndian(b.ref, 8) + Tail(b)
  {
  }

  lemma KindOf(m: Message)
    requires Encodable(m)
    ensures |Encode(m)| >= HEADER_LEN && Encode(m)[0] == TypeByte(m.body)
  {
  }

  lemma LocateOf(m: Message, locate: nat)
    requires Encodable(m) && Fits(locate, 2)
    ensures |Encode(m)| >= 3
    ensures Patch(Encode(m), 1, BigEndian(locate, 2)) == Encode(Message(locate, m.ts, m.body))
  {
    hide EncodeBody, BigEndian, Patch;
    var kind, trk, ts := [TypeByte(m.body)], BigEndian(0, 2), BigEndian(m.ts, 6);
    var post := trk + ts + EncodeBody(m.body);
    assert Encode(m) == kind + BigEndian(m.locate, 2) + post;
    PatchMiddle(kind, BigEndian(m.locate, 2), BigEndian(locate, 2), post);
    assert Encode(Message(locate, m.ts, m.body)) == kind + BigEndian(locate, 2) + post;
  }

  /** Replacing one piece of the body replaces the same bytes of the payload. */
  lemma PatchBody(m: Message, b': Body, pre: Data, was: Data, now: Data, post: Data)
    requires Encodable(m) && EncodableBody(b') && TypeByte(b') == TypeByte(m.body) && |was| == |now|
    requires EncodeBody(m.body) == pre + was + post && EncodeBody(b') == pre + now + post
    ensures |Encode(m)| >= HEADER_LEN + |pre| + |now|
    ensures Patch(Encode(m), HEADER_LEN + |pre|, now) == Encode(Message(m.locate, m.ts, b'))
    ensures Encode(m)[HEADER_LEN + |pre|..HEADER_LEN + |pre| + |was|] == was
  {
    hide EncodeBody, BigEndian, Patch, Header;
    var h := Header(TypeByte(m.body), m.locate, m.ts);
    assert Encode(m) == (h + pre) + was + post;
    PatchMiddle(h + pre, was, now, post);
    assert Encode(Message(m.locate, m.ts, b')) == (h + pre) + now + post;
  }

  lemma FirstRefPatch(m: Message, b': Body, r: nat)
    requires Encodable(m) && EncodableBody(b') && HasRef(m.body) && HasRef(b') && b'.ref == r
    requires TypeByte(b') == TypeByte(m.body) && Tail(b') == Tail(m.body)
    requires m.body.OrderReplace? ==> b'.OrderReplace? && b'.newRef == m.body.newRef
    ensures |Encode(m)| >= 19 && Patch(Encode(m), 11, BigEndian(r, 8)) == Encode(Message(m.locate, m.ts, b'))
    ensures Field(Encode(m), 11, 8) == m.body.ref
  {
    hide Encode, EncodeBody, Tail, Patch, Fits;
    BodyShape(m.body);
    BodyShape(b');
    BigEndianRoundTrip(m.body.ref, 8);
    assert m.body.OrderReplace? == b'.OrderReplace?;
    var post := if m.body.OrderReplace? then BigEndian(m.body.newRef, 8) + Tail(m.body) else Tail(m.body);
    assert EncodeBody(m.body) == [] + BigEndian(m.body.ref, 8) + post;
    assert EncodeBody(b') == [] + BigEndian(r, 8) + post;
    PatchBody(m, b', [], BigEndian(m.body.ref, 8), BigEndian(r, 8), post);
  }

  lemma SecondRefPatch(m: Message, b': Body)
    requires Encodable(m) && EncodableBody(b') && m.body.OrderReplace? && b'.OrderReplace?
    requires b'.ref == m.body.ref && Tail(b') == Tail(m.body)
    ensures |Encode(m)| >= 27 && Patch(Encode(m), 19, BigEndian(b'.newRef, 8)) == Encode(Message(m.locate, m.ts, b'))
    ensures Field(Encode(m), 19, 8) == m.body.newRef
  {
    hide Encode, EncodeBody, Tail;
    BodyShape(m.body);
    BodyShape(b');
    BigEndianRoundTrip(m.body.newRef, 8);
    PatchBody(m, b', BigEndian(b'.ref, 8), BigEndian(m.body.newRef, 8), BigEndian(b'.newRef, 8), Tail(m.body));
  }

  lemma SymbolPatch(m: Message, symbol: Data)
    requires Encodable(m) && m.body.StockDirectory? && |symbol| == 8
    ensures |Encode(m)| >= 19 && Patch(Encode(m), 11, symbol) == Encode(Message(m.locate, m.ts, StockDirectory(symbol)))
  {
    var zeros := seq(20, _ => 0 as byte);
    assert EncodeBody(m.body) == [] + m.body.stock + zeros && EncodeBody(StockDirectory(symbol)) == [] + symbol + zeros;
    PatchBody(m, StockDirectory(symbol), [], m.body.stock, symbol, zeros);
  }

  /** Move the first reference only; the second reference of a replace is moved after it. */
  function ShiftFirst(b: Body, offset: nat): Body
    requires HasRef(b)
  {
    if b.OrderReplace? then OrderReplace(b.ref + offset, b.newRef, b.shares, b.price) else ShiftRefs(b, [], offset)
  }

  /**
   * Byte surgery on one payload: locate, symbol, references. It raises exactly when the restamped message has
   * no encoding, and otherwise the bytes are that message's encoding.
   */
  method Restamp(p: Data, locate: nat, symbol: Data, offset: nat, ghost m: Message) returns (o: Outcome, r: Data)
    requires Encodable(m) && p == Encode(m) && |symbol| == 8
    ensures o.Pass? <==> Encodable(Stamped(m, locate, symbol, offset))
    ensures o.Pass? ==> r == Encode(Stamped(m, locate, symbol, offset))
  {
    hide Encode, Tail, Patch, BigEndian, Field, Pow256, Header, ShiftFirst, SpecLength, EncodeBody;
    r := p;
    KindOf(m);
    var kind := p[0];
    if !Fits(locate, 2) { return Raised, r; }
    LocateOf(m, locate);
    r := Patch(r, 1, BigEndian(locate, 2));
    ghost var m1 := Message(locate, m.ts, m.body);
    if kind == Ch('R') {
      SymbolPatch(m1, symbol);
      r := Patch(r, 11, symbol);
    }
    if kind in {Ch('A'), Ch('F'), Ch('E'), Ch('C'), Ch('X'), Ch('D'), Ch('P'), Ch('U')} {
      FirstRefRead(m1);
      var ref := Field(r, 11, 8) + offset;
      if !Fits(ref, 8) { return Raised, r; }
      ghost var b2 := ShiftFirst(m.body, offset);
      ShiftFirstShape(m.body, symbol, offset);
      FirstRefPatch(m1, b2, ref);
      r := Patch(r, 11, BigEndian(ref, 8));
      if kind == Ch('U') {
        ghost var m2 := Message(locate, m.ts, b2);
        SecondRefRead(m2);
        var newRef := Field(r, 19, 8) + offset;
        if !Fits(newRef, 8) { return Raised, r; }
        SecondShape(m.body, symbol, offset);
        SecondRefPatch(m2, ShiftRefs(m.body, symbol, offset));
        r := Patch(r, 19, BigEndian(newRef, 8));
      }
    }
    return Pass, r;
  }

  lemma FirstRefRead(m: Message)
    requires Encodable(m) && HasRef(m.body)
    ensures |Encode(m)| >= 19 && Field(Encode(m), 11, 8) == m.body.ref
  {
    FirstRefPatch(m, m.body, m.body.ref);
  }

  lemma SecondRefRead(m: Message)
    requires Encodable(m) && m.body.OrderReplace?
    ensures |Encode(m)| >= 27 && Field(Encode(m), 19, 8) == m.body.newRef
  {
    SecondRefPatch(m, m.body);
  }

  lemma ShiftFirstShape(b: Body, symbol: Data, offset: nat)
    requires EncodableBody(b) && HasRef(b) && Fits(b.ref + offset, 8)
    ensures var b' := ShiftFirst(b, offset);
      EncodableBody(b') && HasRef(b') && b'.ref == b.ref + offset && TypeByte(b') == TypeByte(b) && Tail(b') == Tail(b)
      && (if b.OrderReplace? then b'.OrderReplace? && b'.newRef == b.newRef else b' == ShiftRefs(b, symbol, offset))
  {
  }

  lemma SecondShape(b: Body, symbol: Data, offset: nat)
    requires EncodableBody(b) && b.OrderReplace? && Fits(b.ref + offset, 8) && Fits(b.newRef + offset, 8)
    ensures EncodableBody(ShiftRefs(b, symbol, offset))
      && Tail(ShiftRefs(b, symbol, offset)) == Tail(ShiftFirst(b, offset))
  {
  }
}
