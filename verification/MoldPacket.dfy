/** MoldUDP64 packets: the header, the message blocks, and what a receiver reads back from them. */
module MoldPacket {
  import opened Wrappers
  import opened Bytes
  import opened Itch

  const MOLD_HEADER: nat := 20
  const SESSION_LEN: nat := 10
  const END_OF_SESSION: nat := 0xFFFF

  datatype Header = Header(session: Data, sequence: nat, count: nat) {
    /** Messages actually carried: the end-of-session marker carries none despite its count. */
    function MessageCount(): nat {
      if count == END_OF_SESSION then 0 else count
    }
  }

  /** A session name, padded with spaces or cut to ten bytes. */
  function SessionField(session: Data): (s: Data)
    ensures |s| == SESSION_LEN
    ensures forall i :: 0 <= i < SESSION_LEN ==> s[i] == if i < |session| then session[i] else Ch(' ')
  {
    if |session| >= SESSION_LEN then session[..SESSION_LEN]
    else session + seq(SESSION_LEN - |session|, _ => Ch(' '))
  }

  function HeaderBytes(session: Data, sequence: nat, count: nat): (h: Data)
    ensures |h| == MOLD_HEADER
  {
    SessionField(session) + BigEndian(sequence, 8) + BigEndian(count, 2)
  }

  function ParseHeader(p: Data): Option<Header> {
    if |p| < MOLD_HEADER then None else Some(Header(p[..SESSION_LEN], Field(p, 10, 8), Field(p, 18, 2)))
  }

  /** Walk the message blocks from an offset, checked against the packet's length; stop where one is cut short. */
  function Blocks(p: Data, off: nat, remaining: nat): seq<Data>
    decreases remaining
  {
    if remaining == 0 || off + 2 > |p| then []
    else
      var n := Field(p, off, 2);
      if off + 2 + n > |p| then [] else [p[off + 2..off + 2 + n]] + Blocks(p, off + 2 + n, remaining - 1)
  }

  /** The messages a receiver takes from one packet; a heartbeat and the end of session carry none. */
  function Carried(p: Data): seq<Data> {
    match ParseHeader(p)
    case None => []
    case Some(h) => Blocks(p, MOLD_HEADER, h.MessageCount())
  }

  lemma HeaderRoundTrip64(session: Data, sequence: nat, count: nat, body: Data)
    requires Fits(sequence, 8) && Fits(count, 2)
    ensures ParseHeader(HeaderBytes(session, sequence, count) + body)
         == Some(Header(SessionField(session), sequence, count))
  {
    var s := SessionField(session);
    var p := HeaderBytes(session, sequence, count) + body;
    assert p == s + BigEndian(sequence, 8) + (BigEndian(count, 2) + body);
    FieldAt(p, s, sequence, 8, BigEndian(count, 2) + body);
    assert p == (s + BigEndian(sequence, 8)) + BigEndian(count, 2) + body;
    FieldAt(p, s + BigEndian(sequence, 8), count, 2, body);
    assert p[..SESSION_LEN] == s;
  }

  lemma {:induction false} BlocksRoundTrip(pre: Data, ms: seq<Data>)
    requires forall m :: m in ms ==> Framable(m)
    ensures Blocks(pre + FrameAll(ms), |pre|, |ms|) == ms
    decreases |ms|
  {
    hide FrameAll, Frame;
    if ms != [] {
      var m, rest := ms[0], ms[1..];
      assert m in ms && ms == [m] + rest;
      FrameAllCons(m, rest);
      OneBlock(pre, m, FrameAll(rest), |rest|);
      assert pre + FrameAll(ms) == (pre + Frame(m)) + FrameAll(rest);
      BlocksRoundTrip(pre + Frame(m), rest);
    }
  }

  lemma OneBlock(pre: Data, m: Data, post: Data, remaining: nat)
    requires Framable(m)
    ensures var p := (pre + Frame(m)) + post;
      Blocks(p, |pre|, remaining + 1) == [m] + Blocks(p, |pre + Frame(m)|, remaining)
  {
    var p := (pre + Frame(m)) + post;
    assert p == pre + BigEndian(|m|, 2) + (m + post);
    FieldAt(p, pre, |m|, 2, m + post);
    assert p[|pre| + 2..|pre| + 2 + |m|] == m;
  }

  lemma FrameAllCons(m: Data, rest: seq<Data>)
    ensures FrameAll([m] + rest) == Frame(m) + FrameAll(rest)
  {
    FrameAllConcat([m], rest);
    FrameAllAppend([], m);
    assert [] + [m] == [m];
  }

  /** A data packet: a header that names its first message and counts them, then the blocks. */
  function DataPacket(session: Data, sequence: nat, ms: seq<Data>): Data {
    HeaderBytes(session, sequence, |ms|) + FrameAll(ms)
  }

  lemma DataPacketCarries(session: Data, sequence: nat, ms: seq<Data>)
    requires Fits(sequence, 8) && |ms| < END_OF_SESSION && forall m :: m in ms ==> Framable(m)
    ensures Carried(DataPacket(session, sequence, ms)) == ms
    ensures ParseHeader(DataPacket(session, sequence, ms)) == Some(Header(SessionField(session), sequence, |ms|))
  {
    assert Pow256(2) == 65536;
    HeaderRoundTrip64(session, sequence, |ms|, FrameAll(ms));
    BlocksRoundTrip(HeaderBytes(session, sequence, |ms|), ms);
  }

  /** A header alone: a heartbeat when the count is zero, the end of session when it is 0xFFFF. */
  lemma MarkerCarriesNothing(session: Data, sequence: nat, count: nat)
    requires Fits(sequence, 8) && (count == 0 || count == END_OF_SESSION)
    ensures Carried(HeaderBytes(session, sequence, count)) == []
    ensures ParseHeader(HeaderBytes(session, sequence, count)) == Some(Header(SessionField(session), sequence, count))
  {
    assert Pow256(2) == 65536;
    HeaderRoundTrip64(session, sequence, count, []);
    assert HeaderBytes(session, sequence, count) + [] == HeaderBytes(session, sequence, count);
  }

  // ---- streams of packets ---------------------------------------------------------------

  /** Everything the packets carry, in order. */
  function Unpack(packets: seq<Data>): seq<Data> {
    if packets == [] then [] else Unpack(packets[..|packets| - 1]) + Carried(packets[|packets| - 1])
  }

  /** Each packet, marker or data, names the next message: the ranges tile 1.. with no gap and no overlap. */
  predicate Tiles(packets: seq<Data>) {
    packets != [] ==>
      var init := packets[..|packets| - 1];
      && Tiles(init)
      && match ParseHeader(packets[|packets| - 1])
         case None => false
         case Some(h) => h.sequence == |Unpack(init)| + 1 && h.MessageCount() == |Carried(packets[|packets| - 1])|
  }

  lemma UnpackAppend(packets: seq<Data>, p: Data)
    ensures Unpack(packets + [p]) == Unpack(packets) + Carried(p)
    ensures Tiles(packets + [p]) <==>
      (Tiles(packets) && ParseHeader(p).Some?
       && ParseHeader(p).value.sequence == |Unpack(packets)| + 1
       && ParseHeader(p).value.MessageCount() == |Carried(p)|)
  {
    assert (packets + [p])[..|packets|] == packets;
  }

  /** The file writer: a two-byte length, cut to sixteen bits, before each packet. */
  function FileOf(packets: seq<Data>): Data {
    if packets == [] then []
    else FileOf(packets[..|packets| - 1]) + Frame16(packets[|packets| - 1])
  }

  function Frame16(p: Data): Data {
    BigEndian(|p| % 0x10000, 2) + p
  }

  lemma {:induction false} FileIsFramed(packets: seq<Data>)
    requires forall p :: p in packets ==> |p| <= 0xFFFF
    ensures FileOf(packets) == FrameAll(packets)
  {
    if packets != [] {
      hide Frame, Frame16;
      FileIsFramed(packets[..|packets| - 1]);
      assert packets[|packets| - 1] in packets;
      ShortPrefix(packets[|packets| - 1]);
    }
  }

  lemma ShortPrefix(p: Data)
    requires |p| <= 0xFFFF
    ensures Frame16(p) == Frame(p)
  {
  }

  lemma {:induction false} UnframedAreShort(data: Data)
    requires Unframe(data).Some?
    ensures forall p :: p in Unframe(data).value ==> |p| <= 0xFFFF
    decreases |data|
  {
    if data != [] {
      FromBigEndianRoundTrip(data[0..2]);
      assert Pow256(2) == 65536;
      UnframedAreShort(data[2 + Field(data, 0, 2)..]);
    }
  }

  /** The packet file reads back as the packets written exactly when no packet is longer than 65535 bytes. */
  lemma FileReadsBack(packets: seq<Data>)
    ensures Unframe(FileOf(packets)) == Some(packets) <==> forall p :: p in packets ==> |p| <= 0xFFFF
  {
    if forall p :: p in packets ==> |p| <= 0xFFFF {
      assert Pow256(2) == 65536;
      FileIsFramed(packets);
      UnframeFrameAll(packets);
    } else if Unframe(FileOf(packets)) == Some(packets) {
      UnframedAreShort(FileOf(packets));
    }
  }
}
