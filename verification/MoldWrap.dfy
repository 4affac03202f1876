/** The packer: messages into MoldUDP64 packets, greedily, through one buffer. */
module MoldWrap {
  import opened Bytes
  import opened Itch
  import opened MoldPacket

  /** Bytes the messages take as blocks. */
  function Size(ms: seq<Data>): nat {
    if ms == [] then 0 else Size(ms[..|ms| - 1]) + 2 + |ms[|ms| - 1]|
  }

  lemma {:induction false} SizeIsLength(ms: seq<Data>)
    ensures |FrameAll(ms)| == Size(ms) && Size(ms) >= 2 * |ms|
  {
    if ms != [] { SizeIsLength(ms[..|ms| - 1]); }
  }

  lemma {:induction false} SizeConcat(a: seq<Data>, b: seq<Data>)
    ensures Size(a + b) == Size(a) + Size(b)
  {
    if b == [] {
      assert a + b == a;
    } else {
      SizeConcat(a, b[..|b| - 1]);
      assert (a + b)[..|a + b| - 1] == a + b[..|b| - 1];
    }
  }

  lemma SizeAppend(ms: seq<Data>, m: Data)
    ensures Size(ms + [m]) == Size(ms) + 2 + |m|
  {
    assert (ms + [m])[..|ms|] == ms;
  }

  lemma EmptySize()
    ensures Size([]) == 0 && FrameAll([]) == []
  {
  }

  lemma FitsBelow(n: nat, m: nat, width: nat)
    requires n <= m && Fits(m, width)
    ensures Fits(n, width)
  {
  }

  lemma FrameLength(m: Data)
    ensures |Frame(m)| == 2 + |m|
  {
  }

  /** Whether messages can share one packet: within the MTU, and with a count that is not the end-of-session mark. */
  predicate OnePacket(ms: seq<Data>, mtu: nat) {
    MOLD_HEADER + Size(ms) <= mtu && |ms| < END_OF_SESSION
  }

  /** What holds of the packets in the file: they tile the numbers, fit the MTU, and carry the groups. */
  ghost predicate Sent(written: seq<Data>, groups: seq<seq<Data>>, file: Data, mtu: nat) {
    && file == FileOf(written)
    && Tiles(written)
    && (forall p :: p in written ==> |p| <= mtu)
    && (forall k :: 0 <= k < |groups| ==> groups[k] != [] && OnePacket(groups[k], mtu))
    && Flatten(groups) == Unpack(written)
  }

  lemma NothingSent(mtu: nat)
    ensures Sent([], [], [], mtu) && Unpack([]) == []
  {
  }

  lemma SentData(written: seq<Data>, groups: seq<seq<Data>>, file: Data, mtu: nat,
                 session: Data, sequence: nat, ms: seq<Data>)
    requires Sent(written, groups, file, mtu) && Fits(sequence, 8) && sequence == |Unpack(written)| + 1
    requires ms != [] && OnePacket(ms, mtu) && forall m :: m in ms ==> Framable(m)
    ensures var p := DataPacket(session, sequence, ms);
      && Sent(written + [p], groups + [ms], file + Frame16(p), mtu)
      && Unpack(written + [p]) == Unpack(written) + ms
  {
    hide FrameAll, Flatten, Carried, ParseHeader, HeaderBytes, Framable, Fits, Frame16, Unpack, Tiles, FileOf;
    var p := DataPacket(session, sequence, ms);
    DataPacketCarries(session, sequence, ms);
    UnpackAppend(written, p);
    FlattenAppend(groups, ms);
    SizeIsLength(ms);
    FileOfAppend(written, p);
  }

  lemma SentMarker(written: seq<Data>, groups: seq<seq<Data>>, file: Data, mtu: nat,
                   session: Data, sequence: nat, n: nat)
    requires Sent(written, groups, file, mtu) && Fits(sequence, 8) && sequence == |Unpack(written)| + 1
    requires mtu >= MOLD_HEADER && (n == 0 || n == END_OF_SESSION)
    ensures var p := HeaderBytes(session, sequence, n);
      Sent(written + [p], groups, file + Frame16(p), mtu) && Unpack(written + [p]) == Unpack(written)
  {
    hide FrameAll, Flatten, Carried, ParseHeader, HeaderBytes, Fits, Frame16, Unpack, Tiles, FileOf, OnePacket;
    var p := HeaderBytes(session, sequence, n);
    MarkerCarriesNothing(session, sequence, n);
    UnpackAppend(written, p);
    FileOfAppend(written, p);
    assert Unpack(written) + [] == Unpack(written);
  }

  lemma FileOfAppend(written: seq<Data>, p: Data)
    ensures FileOf(written + [p]) == FileOf(written) + Frame16(p)
  {
    assert (written + [p])[..|written|] == written;
  }

  datatype Result = BadMtu | TooLong | Wrapped

  class Packer {
    const mtu: nat
    const session: Data
    const heartbeatNs: nat
    const packet: array<byte>
    var used: nat
    var count: nat
    var sequence: nat
    var messages: nat
    var lastHb: nat
    var file: Data

    ghost var written: seq<Data>        // packets in the file, heartbeats included
    ghost var groups: seq<seq<Data>>    // what each data packet carries
    ghost var pending: seq<Data>        // what the buffer holds

    ghost predicate Valid()
      reads this, packet
    {
      && packet.Length == mtu && mtu > MOLD_HEADER
      && OnePacket(pending, mtu)
      && count == |pending| && used == MOLD_HEADER + Size(pending) && used <= mtu
      && packet[MOLD_HEADER..used] == FrameAll(pending)
      && (forall m :: m in pending ==> Framable(m))
      && messages == |Unpack(written)| + |pending|
      && sequence + count == messages + 1
      && Sent(written, groups, file, mtu)
    }

    /** Every message taken so far, sent or waiting. */
    ghost function Taken(): seq<Data>
      reads this
    {
      Unpack(written) + pending
    }

    constructor (mtu: nat, session: Data, heartbeatNs: nat)
      requires mtu > MOLD_HEADER + 2
      ensures Valid() && Taken() == [] && written == [] && groups == [] && messages == 0 && lastHb == 0 && fresh(packet)
      ensures this.mtu == mtu && this.heartbeatNs == heartbeatNs && this.session == session
    {
      this.mtu, this.session, this.heartbeatNs := mtu, session, heartbeatNs;
      packet := new byte[mtu](_ => 0);
      used, count, sequence, messages, lastHb, file := MOLD_HEADER, 0, 1, 0, 0, [];
      written, groups, pending := [], [], [];
      NothingSent(mtu);
    }

    method Write(p: Data)
      modifies `file, `written
      ensures file == old(file) + Frame16(p) && written == old(written) + [p]
    {
      file := file + Frame16(p);
      written := written + [p];
    }

    /** Close the packet in the buffer and send it; an empty buffer sends nothing. */
    method Flush()
      requires Valid() && Fits(messages + 1, 8)
      modifies this, packet
      ensures Valid() && Taken() == old(Taken()) && pending == [] && count == 0
      ensures messages == old(messages) && lastHb == old(lastHb)
      ensures groups == if old(pending) == [] then old(groups) else old(groups) + [old(pending)]
      ensures written == if old(pending) == [] then old(written)
                         else old(written) + [DataPacket(session, old(sequence), old(pending))]
      ensures Heartbeats(written) == old(Heartbeats(written))
    {
      hide FrameAll, Size, Unpack, HeaderBytes, Framable, Fits, Frame16, Heartbeats, Sent;
      if count == 0 { return; }
      EmptySize();
      FitsBelow(sequence, messages + 1, 8);
      DataIsNoHeartbeat(written, session, sequence, pending);
      SentData(written, groups, file, mtu, session, sequence, pending);
      WriteHeader(sequence, count, used);
      Write(packet[..used]);
      groups := groups + [pending];
      pending := [];
      assert Unpack(written) + [] == Unpack(written);
      sequence := sequence + count;
      used := MOLD_HEADER;
      count := 0;
    }

    /** Fill in the first twenty bytes of the buffer. */
    method WriteHeader(seqno: nat, n: nat, ghost upTo: nat)
      requires MOLD_HEADER <= upTo <= packet.Length
      modifies packet
      ensures packet[..upTo] == HeaderBytes(session, seqno, n) + old(packet[MOLD_HEADER..upTo])
    {
      var h := HeaderBytes(session, seqno, n);
      forall i | 0 <= i < MOLD_HEADER {
        packet[i] := h[i];
      }
    }

    method CopyBlock(at: nat, block: Data)
      requires MOLD_HEADER <= at && at + |block| <= packet.Length
      modifies packet
      ensures packet[MOLD_HEADER..at + |block|] == old(packet[MOLD_HEADER..at]) + block
    {
      forall i | 0 <= i < |block| {
        packet[at + i] := block[i];
      }
    }

    /** Append one block to the buffer. */
    method Append(m: Data)
      requires Valid() && Framable(m) && OnePacket(pending + [m], mtu)
      modifies this, packet
      ensures Valid() && Taken() == old(Taken()) + [m] && messages == old(messages) + 1
      ensures pending == old(pending) + [m] && groups == old(groups) && written == old(written)
      ensures lastHb == old(lastHb)
    {
      hide FrameAll, Size, Unpack, Sent, Frame, Framable;
      SizeAppend(pending, m);
      FrameAllAppend(pending, m);
      FrameLength(m);
      CopyBlock(used, Frame(m));
      used := used + 2 + |m|;
      count := count + 1;
      messages := messages + 1;
      assert Unpack(written) + (pending + [m]) == Unpack(written) + pending + [m];
      pending := pending + [m];
    }

    /** Take one message: send the buffer first if the message does not fit, or the count is about to run out. */
    method Push(m: Data)
      requires Valid() && Framable(m) && 2 + |m| <= mtu - MOLD_HEADER && Fits(messages + 1, 8)
      modifies this, packet
      ensures Valid() && Taken() == old(Taken()) + [m] && messages == old(messages) + 1 && lastHb == old(lastHb)
      ensures pending != [] && pending[|pending| - 1] == m
      ensures Greedy(old(groups), old(pending), mtu) ==> Greedy(groups, pending, mtu)
      ensures old(written) <= written && Heartbeats(written) == old(Heartbeats(written))
    {
      hide FrameAll, Size, Unpack, Sent, Framable, Fits, OnePacket, Greedy, DataPacket, Heartbeats;
      RoomIff(pending, m, mtu);
      AloneFits(m, mtu);
      GreedyNext(groups, pending, m, mtu);
      if used + 2 + |m| > mtu || count == END_OF_SESSION - 1 {
        Flush();
      }
      Append(m);
    }

    /** A header with no blocks: the next sequence number, and a count that carries nothing. */
    method Marker(n: nat)
      requires Valid() && pending == [] && (n == 0 || n == END_OF_SESSION) && Fits(messages + 1, 8)
      modifies `file, `written
      ensures Valid() && Taken() == old(Taken())
      ensures written == old(written) + [HeaderBytes(session, messages + 1, n)]
    {
      hide FrameAll, Size, Unpack, Sent, HeaderBytes, Framable, Fits, OnePacket, Frame16;
      SentMarker(written, groups, file, mtu, session, sequence, n);
      Write(HeaderBytes(session, sequence, n));
    }

    /** On feed time, after a message: a quiet line is marked once per interval, and the mark names the next message. */
    method Heartbeat(m: Data) returns (beat: bool)
      requires Valid() && Fits(messages + 1, 8)
      modifies this, packet
      ensures Valid() && Taken() == old(Taken()) && messages == old(messages)
      ensures beat <==> Due(old(lastHb), m, heartbeatNs)
      ensures lastHb == NextClock(old(lastHb), m, heartbeatNs)
      ensures Heartbeats(written) == if beat then old(Heartbeats(written)) + [HeaderBytes(session, messages + 1, 0)]
                                     else old(Heartbeats(written))
      ensures !beat ==> pending == old(pending) && groups == old(groups) && written == old(written)
      ensures beat ==> pending == [] && written != [] && written[|written| - 1] == HeaderBytes(session, messages + 1, 0)
      ensures old(written) <= written
    {
      hide Valid, Taken, Fits, HeaderBytes, DataPacket, Field, Elapsed, Heartbeats, Due, NextClock;
      ClockStep(lastHb, m, heartbeatNs);
      beat := false;
      if heartbeatNs > 0 && |m| >= 11 {
        var ts := Field(m, 5, 6);
        if lastHb == 0 { ClockIsFree(ts); }
        if Elapsed(lastHb, ts) >= heartbeatNs {
          Flush();
          MarkerIsHeartbeat(written, session, messages + 1);
          Marker(0);
          ClockIsFree(ts);
          beat := true;
        }
      }
    }

    /** The clock is no part of what the packer must keep. */
    method ClockIsFree(ts: nat)
      requires Valid()
      modifies `lastHb
      ensures Valid() && Taken() == old(Taken()) && lastHb == ts
    {
      lastHb := ts;
    }

    /** The heartbeats written so far, and where the clock stands, are what the messages taken call for. */
    ghost predicate Beaten()
      reads this
    {
      lastHb == Clock(Taken(), heartbeatNs) && Heartbeats(written) == Beats(Taken(), session, heartbeatNs)
    }

    /** One turn of the read loop. */
    method Take(m: Data)
      requires Valid() && Framable(m) && 2 + |m| <= mtu - MOLD_HEADER && Fits(messages + 2, 8)
      modifies this, packet
      ensures Valid() && Taken() == old(Taken()) + [m] && messages == old(messages) + 1
      ensures heartbeatNs == 0 && Greedy(old(groups), old(pending), mtu) ==> Greedy(groups, pending, mtu)
      ensures old(Beaten()) && messages == |Taken()| ==> Beaten()
    {
      hide Fits, Greedy, Valid, Taken, Field, HeaderBytes, Heartbeats, Clock, Beats, NextClock;
      FitsBelow(messages + 1, messages + 2, 8);
      BeatsNext(Taken(), m, session, heartbeatNs);
      Push(m);
      var beat := Heartbeat(m);
    }

    /** Send what is left, then the end of session. */
    method Finish()
      requires Valid() && Fits(messages + 1, 8)
      modifies this, packet
      ensures Valid() && Taken() == old(Taken()) && pending == [] && messages == old(messages)
      ensures groups == if old(pending) == [] then old(groups) else old(groups) + [old(pending)]
      ensures written != [] && written[|written| - 1] == HeaderBytes(session, messages + 1, END_OF_SESSION)
      ensures Heartbeats(written) == old(Heartbeats(written))
    {
      hide Valid, Taken, Fits, HeaderBytes, DataPacket, Heartbeats;
      Flush();
      EndIsNoHeartbeat(written, session, messages + 1);
      Marker(END_OF_SESSION);
    }
  }

  /** The unsigned difference of two feed timestamps. */
  function Elapsed(since: nat, ts: nat): nat {
    (ts - since) % 0x1_0000_0000_0000_0000
  }

  /** Whether the interval has run out: never on a short message, and the first timestamp starts the clock. */
  predicate Due(since: nat, m: Data, interval: nat) {
    && interval > 0 && |m| >= 11
    && Elapsed(if since == 0 then Field(m, 5, 6) else since, Field(m, 5, 6)) >= interval
  }

  /** Where the clock stands after a message. */
  function NextClock(since: nat, m: Data, interval: nat): nat {
    if interval > 0 && |m| >= 11 && (since == 0 || Due(since, m, interval)) then Field(m, 5, 6) else since
  }

  /** The clock as the read loop keeps it. */
  lemma ClockStep(since: nat, m: Data, interval: nat)
    ensures interval == 0 || |m| < 11 ==> !Due(since, m, interval) && NextClock(since, m, interval) == since
    ensures interval > 0 && |m| >= 11 ==>
      var ts := Field(m, 5, 6);
      var start := if since == 0 then ts else since;
      && (Due(since, m, interval) <==> Elapsed(start, ts) >= interval)
      && NextClock(since, m, interval) == if Elapsed(start, ts) >= interval then ts else start
  {
    hide Elapsed, Field;
  }

  function Clock(ms: seq<Data>, interval: nat): nat {
    if ms == [] then 0 else NextClock(Clock(ms[..|ms| - 1], interval), ms[|ms| - 1], interval)
  }

  /** The heartbeats the messages call for: one after each that finds the interval over, naming the next message. */
  function Beats(ms: seq<Data>, session: Data, interval: nat): seq<Data> {
    if ms == [] then []
    else
      var init, m := ms[..|ms| - 1], ms[|ms| - 1];
      Beats(init, session, interval)
        + if Due(Clock(init, interval), m, interval) then [HeaderBytes(session, |ms| + 1, 0)] else []
  }

  lemma NothingBeats(session: Data, interval: nat)
    ensures Clock([], interval) == 0 && Beats([], session, interval) == [] && Heartbeats([]) == []
  {
  }

  lemma BeatsNext(ms: seq<Data>, m: Data, session: Data, interval: nat)
    ensures Clock(ms + [m], interval) == NextClock(Clock(ms, interval), m, interval)
    ensures Beats(ms + [m], session, interval) == if Due(Clock(ms, interval), m, interval)
      then Beats(ms, session, interval) + [HeaderBytes(session, |ms| + 2, 0)] else Beats(ms, session, interval)
  {
    hide NextClock, Due, HeaderBytes;
    assert (ms + [m])[..|ms|] == ms;
  }

  predicate IsHeartbeat(p: Data) {
    ParseHeader(p).Some? && ParseHeader(p).value.count == 0
  }

  /** The heartbeats among packets: those whose count is zero. */
  function Heartbeats(packets: seq<Data>): seq<Data> {
    if packets == [] then []
    else
      var p := packets[|packets| - 1];
      Heartbeats(packets[..|packets| - 1]) + if IsHeartbeat(p) then [p] else []
  }

  lemma HeartbeatsAppend(packets: seq<Data>, p: Data)
    ensures Heartbeats(packets + [p]) == Heartbeats(packets) + if IsHeartbeat(p) then [p] else []
  {
    assert (packets + [p])[..|packets|] == packets;
  }

  lemma DataIsNoHeartbeat(packets: seq<Data>, session: Data, sequence: nat, ms: seq<Data>)
    requires Fits(sequence, 8) && 0 < |ms| < END_OF_SESSION && forall m :: m in ms ==> Framable(m)
    ensures Heartbeats(packets + [DataPacket(session, sequence, ms)]) == Heartbeats(packets)
  {
    hide DataPacket, ParseHeader, Heartbeats, Fits, Framable;
    HeartbeatsAppend(packets, DataPacket(session, sequence, ms));
    DataPacketCarries(session, sequence, ms);
  }

  lemma MarkerIsHeartbeat(packets: seq<Data>, session: Data, sequence: nat)
    requires Fits(sequence, 8)
    ensures Heartbeats(packets + [HeaderBytes(session, sequence, 0)])
         == Heartbeats(packets) + [HeaderBytes(session, sequence, 0)]
  {
    hide HeaderBytes, ParseHeader, Heartbeats, Fits;
    HeartbeatsAppend(packets, HeaderBytes(session, sequence, 0));
    MarkerCarriesNothing(session, sequence, 0);
  }

  lemma EndIsNoHeartbeat(packets: seq<Data>, session: Data, sequence: nat)
    requires Fits(sequence, 8)
    ensures Heartbeats(packets + [HeaderBytes(session, sequence, END_OF_SESSION)]) == Heartbeats(packets)
  {
    hide HeaderBytes, ParseHeader, Heartbeats, Fits;
    HeartbeatsAppend(packets, HeaderBytes(session, sequence, END_OF_SESSION));
    MarkerCarriesNothing(session, sequence, END_OF_SESSION);
  }

  // ---- when a heartbeat is due ---------------------------------------------------------------------

  /** A message long enough to have a timestamp, and what it says. */
  predicate Timed(m: Data) {
    |m| >= 11
  }

  function TimeAt(ms: seq<Data>, i: nat): nat
    requires i < |ms| && Timed(ms[i])
  {
    Field(ms[i], 5, 6)
  }

  /** Positive timestamps that never fall. */
  predicate Clocked(ms: seq<Data>) {
    forall i, j :: 0 <= i <= j < |ms| && Timed(ms[i]) && Timed(ms[j]) ==> 0 < TimeAt(ms, i) <= TimeAt(ms, j)
  }

  /**
   * Where a line of messages is cut into intervals: at the first timestamp, and then at each message that comes an
   * interval or more behind the last cut; between two cuts, and behind the last one, none does.
   */
  predicate Paced(ms: seq<Data>, interval: nat, marks: seq<nat>) {
    && (forall j :: 0 <= j < |marks| ==> marks[j] < |ms| && Timed(ms[marks[j]]))
    && (forall i :: 0 <= i < |ms| && Timed(ms[i]) ==> marks != [] && marks[0] <= i)
    && (forall j :: 0 <= j < |marks| ==> marks[j] < Until(ms, marks, j) <= |ms|)
    && (forall j :: 0 <= j < |marks| - 1 ==> TimeAt(ms, Until(ms, marks, j)) - TimeAt(ms, marks[j]) >= interval)
    && (forall j :: 0 <= j < |marks| ==> Quiet(ms, interval, marks[j], Until(ms, marks, j)))
  }

  /** No timestamp lies an interval or more behind the first of the stretch. */
  predicate Quiet(ms: seq<Data>, interval: nat, from: nat, until: nat)
    requires from < until <= |ms| && Timed(ms[from])
  {
    forall i :: from <= i < until && Timed(ms[i]) ==> TimeAt(ms, i) - TimeAt(ms, from) < interval
  }

  /** The cut after mark j, or the end of the messages. */
  function Until(ms: seq<Data>, marks: seq<nat>, j: nat): nat {
    if j + 1 < |marks| then marks[j + 1] else |ms|
  }

  /** A heartbeat behind every cut but the first, each under the number of the message after it. */
  function BeatsBehind(marks: seq<nat>, session: Data): seq<Data> {
    if |marks| <= 1 then []
    else BeatsBehind(marks[..|marks| - 1], session) + [HeaderBytes(session, marks[|marks| - 1] + 2, 0)]
  }

  /** There is one way to cut messages into intervals. */
  lemma {:induction false} PacedOnce(ms: seq<Data>, interval: nat, a: seq<nat>, b: seq<nat>, n: nat)
    requires interval > 0 && Paced(ms, interval, a) && Paced(ms, interval, b) && n <= |a|
    ensures n <= |b| && a[..n] == b[..n]
  {
    hide Paced;
    if n > 0 {
      PacedOnce(ms, interval, a, b, n - 1);
      NextOnce(ms, interval, a, b, n - 1);
      assert a[..n] == a[..n - 1] + [a[n - 1]] && b[..n] == b[..n - 1] + [b[n - 1]];
    }
  }

  lemma NextOnce(ms: seq<Data>, interval: nat, a: seq<nat>, b: seq<nat>, n: nat)
    requires interval > 0 && Paced(ms, interval, a) && Paced(ms, interval, b)
    requires n < |a| && n <= |b| && a[..n] == b[..n]
    ensures n < |b| && a[n] == b[n]
  {
    if n == 0 {
      assert Timed(ms[a[0]]) && Timed(ms[b[0]]);
    } else {
      var j := n - 1;
      assert a[..n][j] == b[..n][j] && Until(ms, a, j) == a[n];
      assert Quiet(ms, interval, a[j], a[n]) && Quiet(ms, interval, b[j], Until(ms, b, j));
    }
  }

  /** Heartbeats take time: so many of them, and their intervals, fit between the first timestamp and any later one. */
  lemma {:induction false} BeatsTakeTime(ms: seq<Data>, interval: nat, marks: seq<nat>, j: nat, i: nat)
    requires Clocked(ms) && Paced(ms, interval, marks) && j < |marks| && marks[j] <= i < |ms| && Timed(ms[i])
    ensures j * interval <= TimeAt(ms, i) - TimeAt(ms, marks[0])
  {
    if j > 0 { BeatsTakeTime(ms, interval, marks, j - 1, marks[j - 1]); }
  }

  lemma StampBelow(m: Data)
    requires Timed(m)
    ensures Field(m, 5, 6) < 0x1_0000_0000_0000
  {
    FromBigEndianRoundTrip(m[5..11]);
    assert Pow256(6) == 0x1_0000_0000_0000;
  }

  /**
   * For any timestamps: a beat is due when one lies an interval or more behind the clock, and also when it lies
   * before the clock, since the unsigned difference is then past any interval a day could have.
   */
  lemma DueIff(since: nat, m: Data, interval: nat)
    requires since < 0x1_0000_0000_0000 && 0 < interval <= 0xFFFF_0000_0000_0000
    ensures Due(since, m, interval) <==>
      Timed(m) && since > 0 && (Field(m, 5, 6) < since || Field(m, 5, 6) - since >= interval)
  {
    if Timed(m) { StampBelow(m); }
  }

  /** The clock stands at the last cut. */
  predicate ClockAt(ms: seq<Data>, marks: seq<nat>, clock: nat) {
    if marks == [] then clock == 0
    else var last := marks[|marks| - 1]; last < |ms| && Timed(ms[last]) && clock == TimeAt(ms, last)
  }

  lemma QuietOn(ms: seq<Data>, m: Data, interval: nat, from: nat)
    requires from < |ms| && Timed(ms[from]) && Quiet(ms, interval, from, |ms|)
    requires Timed(m) ==> Field(m, 5, 6) - TimeAt(ms, from) < interval
    ensures Quiet(ms + [m], interval, from, |ms| + 1)
  {
    hide Field;
  }

  lemma QuietStill(ms: seq<Data>, m: Data, interval: nat, from: nat, until: nat)
    requires from < until <= |ms| && Timed(ms[from]) && Quiet(ms, interval, from, until)
    ensures Quiet(ms + [m], interval, from, until)
  {
    hide Field;
  }

  lemma PacedOn(ms: seq<Data>, m: Data, interval: nat, marks: seq<nat>)
    requires Paced(ms, interval, marks)
    requires Timed(m) ==> marks != [] && Field(m, 5, 6) - TimeAt(ms, marks[|marks| - 1]) < interval
    ensures Paced(ms + [m], interval, marks)
  {
    hide Field, Quiet;
    forall j | 0 <= j < |marks|
      ensures Quiet(ms + [m], interval, marks[j], Until(ms + [m], marks, j))
    {
      if j < |marks| - 1 {
        QuietStill(ms, m, interval, marks[j], marks[j + 1]);
      } else {
        QuietOn(ms, m, interval, marks[j]);
      }
    }
  }

  lemma FirstCut(ms: seq<Data>, m: Data, interval: nat)
    requires Paced(ms, interval, []) && Timed(m) && interval > 0
    ensures Paced(ms + [m], interval, [|ms|])
  {
    hide Field;
  }

  lemma NextCut(ms: seq<Data>, m: Data, interval: nat, marks: seq<nat>)
    requires Paced(ms, interval, marks) && marks != [] && interval > 0
    requires Timed(m) && Field(m, 5, 6) - TimeAt(ms, marks[|marks| - 1]) >= interval
    ensures Paced(ms + [m], interval, marks + [|ms|])
  {
    hide Field, Quiet;
    var now, cuts := ms + [m], marks + [|ms|];
    forall j | 0 <= j < |cuts|
      ensures cuts[j] < Until(now, cuts, j) <= |now| && Quiet(now, interval, cuts[j], Until(now, cuts, j))
    {
      if j < |marks| {
        assert Until(now, cuts, j) == Until(ms, marks, j);
        QuietStill(ms, m, interval, marks[j], Until(ms, marks, j));
      } else {
        QuietAlone(ms, m, interval);
      }
    }
  }

  lemma QuietAlone(ms: seq<Data>, m: Data, interval: nat)
    requires Timed(m) && interval > 0
    ensures Quiet(ms + [m], interval, |ms|, |ms| + 1)
  {
    hide Field;
  }

  /** Behind a cut, the clock's unsigned difference is the true one. */
  lemma DueLater(ms: seq<Data>, m: Data, interval: nat, marks: seq<nat>, clock: nat)
    requires Clocked(ms + [m]) && Timed(m) && marks != [] && ClockAt(ms, marks, clock) && interval > 0
    ensures 0 < clock <= Field(m, 5, 6) && (Due(clock, m, interval) <==> Field(m, 5, 6) - clock >= interval)
  {
    hide Field;
    var now := ms + [m];
    assert TimeAt(now, marks[|marks| - 1]) == clock && TimeAt(now, |ms|) == Field(m, 5, 6);
    StampBelow(m);
  }

  lemma NothingPaced(session: Data, interval: nat)
    ensures Paced([], interval, []) && ClockAt([], [], Clock([], interval))
    ensures Beats([], session, interval) == BeatsBehind([], session)
  {
  }

  lemma ClockedInit(ms: seq<Data>, m: Data)
    requires Clocked(ms + [m])
    ensures Clocked(ms)
  {
    hide Field;
    forall i, j | 0 <= i <= j < |ms| && Timed(ms[i]) && Timed(ms[j])
      ensures 0 < TimeAt(ms, i) <= TimeAt(ms, j)
    {
      assert TimeAt(ms + [m], i) == TimeAt(ms, i) && TimeAt(ms + [m], j) == TimeAt(ms, j);
    }
  }

  lemma OneMorePaced(ms: seq<Data>, m: Data, session: Data, interval: nat, marks: seq<nat>, clock: nat)
    returns (cuts: seq<nat>)
    requires interval > 0 && Clocked(ms + [m]) && Paced(ms, interval, marks) && ClockAt(ms, marks, clock)
    ensures Paced(ms + [m], interval, cuts) && ClockAt(ms + [m], cuts, NextClock(clock, m, interval))
    ensures BeatsBehind(cuts, session) == BeatsBehind(marks, session)
      + if Due(clock, m, interval) then [HeaderBytes(session, |ms| + 2, 0)] else []
  {
    hide Field, Elapsed, Paced, Clocked, HeaderBytes;
    cuts := marks;
    if !Timed(m) {
      PacedOn(ms, m, interval, marks);
    } else if marks == [] {
      NoneElapsed(Field(m, 5, 6));
      FirstCut(ms, m, interval);
      cuts := [|ms|];
    } else {
      DueLater(ms, m, interval, marks, clock);
      if Field(m, 5, 6) - clock >= interval {
        NextCut(ms, m, interval, marks);
        cuts := marks + [|ms|];
        assert cuts[..|cuts| - 1] == marks;
      } else {
        PacedOn(ms, m, interval, marks);
      }
    }
  }

  lemma {:induction false} NeverBeats(ms: seq<Data>, session: Data)
    ensures Beats(ms, session, 0) == []
  {
    if ms != [] { NeverBeats(ms[..|ms| - 1], session); }
  }

  lemma NoneElapsed(ts: nat)
    ensures Elapsed(ts, ts) == 0
  {
  }

  /** On timestamps that never fall, the heartbeats called for are those behind the cuts. */
  lemma {:induction false} BeatsArePaced(ms: seq<Data>, session: Data, interval: nat) returns (marks: seq<nat>)
    requires interval > 0 && Clocked(ms)
    ensures Paced(ms, interval, marks) && ClockAt(ms, marks, Clock(ms, interval))
    ensures Beats(ms, session, interval) == BeatsBehind(marks, session)
  {
    hide Beats, Clock, Field, Elapsed, Paced, Clocked, ClockAt, BeatsBehind, Due, NextClock, Timed;
    NothingPaced(session, interval);
    if ms == [] { return []; }
    var init, m := ms[..|ms| - 1], ms[|ms| - 1];
    assert ms == init + [m];
    ClockedInit(init, m);
    marks := BeatsArePaced(init, session, interval);
    BeatsNext(init, m, session, interval);
    marks := OneMorePaced(init, m, session, interval, marks, Clock(init, interval));
  }

  // ---- greedy groups ---------------------------------------------------------------------------------

  /** What comes after group j: the next group, or what is still waiting. */
  function Following(groups: seq<seq<Data>>, tail: seq<Data>, j: nat): seq<Data> {
    if j + 1 < |groups| then groups[j + 1] else tail
  }

  predicate Closed(g: seq<Data>, following: seq<Data>, mtu: nat) {
    following == [] || !OnePacket(g + [following[0]], mtu)
  }

  /** No group could have taken the message that starts the next one. */
  predicate Maximal(groups: seq<seq<Data>>, tail: seq<Data>, mtu: nat) {
    forall j :: 0 <= j < |groups| ==> Closed(groups[j], Following(groups, tail, j), mtu)
  }

  /** The state of a run with no heartbeats: only the last group is still open. */
  predicate Greedy(groups: seq<seq<Data>>, pending: seq<Data>, mtu: nat) {
    Maximal(groups, pending, mtu) && (pending == [] ==> groups == [])
  }

  lemma GreedyNext(groups: seq<seq<Data>>, pending: seq<Data>, m: Data, mtu: nat)
    ensures Greedy(groups, pending, mtu) ==> Greedy(groups, pending + [m], mtu)
    ensures Greedy(groups, pending, mtu) && pending != [] && !OnePacket(pending + [m], mtu) ==>
      Greedy(groups + [pending], [] + [m], mtu)
  {
    if Greedy(groups, pending, mtu) {
      forall j | 0 <= j < |groups|
        ensures Closed(groups[j], Following(groups, pending + [m], j), mtu)
      {
        assert Closed(groups[j], Following(groups, pending, j), mtu);
      }
      var next := groups + [pending];
      forall j | 0 <= j < |groups|
        ensures next[j] == groups[j] && Following(next, [] + [m], j) == Following(groups, pending, j)
      {
      }
    }
  }

  lemma NothingGreedy(mtu: nat)
    ensures Greedy([], [], mtu)
  {
  }

  lemma GreedyClosed(groups: seq<seq<Data>>, pending: seq<Data>, mtu: nat)
    requires Greedy(groups, pending, mtu)
    ensures Maximal(if pending == [] then groups else groups + [pending], [], mtu)
  {
    var all := groups + [pending];
    forall j | 0 <= j < |groups|
      ensures all[j] == groups[j] && Following(all, [], j) == Following(groups, pending, j)
    {
    }
  }

  lemma RoomIff(ms: seq<Data>, m: Data, mtu: nat)
    requires OnePacket(ms, mtu)
    ensures OnePacket(ms + [m], mtu) <==> MOLD_HEADER + Size(ms) + 2 + |m| <= mtu && |ms| != END_OF_SESSION - 1
    ensures MOLD_HEADER + Size([]) + 2 + |m| <= mtu ==> 2 + |m| <= mtu - MOLD_HEADER
    ensures Size([]) == 0
  {
    SizeAppend(ms, m);
  }

  lemma AloneFits(m: Data, mtu: nat)
    requires 2 + |m| <= mtu - MOLD_HEADER
    ensures OnePacket([] + [m], mtu)
  {
    SizeAppend([], m);
    EmptySize();
  }

  function Flatten(groups: seq<seq<Data>>): seq<Data> {
    if groups == [] then [] else Flatten(groups[..|groups| - 1]) + groups[|groups| - 1]
  }

  lemma FlattenAppend(groups: seq<seq<Data>>, g: seq<Data>)
    ensures Flatten(groups + [g]) == Flatten(groups) + g
  {
    assert (groups + [g])[..|groups|] == groups;
  }

  // ---- greedy packing is optimal -----------------------------------------------------------

  /** A way to cut the messages into consecutive packets. */
  predicate Split(groups: seq<seq<Data>>, ms: seq<Data>, mtu: nat) {
    Flatten(groups) == ms && forall k :: 0 <= k < |groups| ==> OnePacket(groups[k], mtu)
  }

  /** How many messages the first j groups hold. */
  function Reach(groups: seq<seq<Data>>, j: nat): nat
    requires j <= |groups|
  {
    if j == 0 then 0 else Reach(groups, j - 1) + |groups[j - 1]|
  }

  lemma {:induction false} ReachIsPrefix(groups: seq<seq<Data>>, j: nat)
    requires j <= |groups|
    ensures Reach(groups, j) <= |Flatten(groups)| && Flatten(groups[..j]) == Flatten(groups)[..Reach(groups, j)]
    ensures Reach(groups, |groups|) == |Flatten(groups)|
    decreases |groups|
  {
    if groups != [] {
      var init := groups[..|groups| - 1];
      ReachOfPrefix(groups, |groups| - 1, |groups| - 1);
      if j == |groups| {
        ReachIsPrefix(init, j - 1);
        assert groups[..j] == groups;
      } else {
        ReachIsPrefix(init, j);
        ReachOfPrefix(groups, |groups| - 1, j);
        assert init[..j] == groups[..j];
      }
    }
  }

  lemma {:induction false} ReachOfPrefix(groups: seq<seq<Data>>, n: nat, j: nat)
    requires j <= n <= |groups|
    ensures Reach(groups[..n], j) == Reach(groups, j)
  {
    if j > 0 { ReachOfPrefix(groups, n, j - 1); }
  }

  /** The j-th group is the stretch of messages between two reaches. */
  lemma GroupIsStretch(groups: seq<seq<Data>>, j: nat)
    requires j < |groups|
    ensures Reach(groups, j) <= Reach(groups, j + 1) <= |Flatten(groups)|
    ensures groups[j] == Flatten(groups)[Reach(groups, j)..Reach(groups, j + 1)]
  {
    ReachIsPrefix(groups, j);
    ReachIsPrefix(groups, j + 1);
    FlattenAppend(groups[..j], groups[j]);
    assert groups[..j + 1] == groups[..j] + [groups[j]];
    assert Flatten(groups)[..Reach(groups, j + 1)] == Flatten(groups)[..Reach(groups, j)] + groups[j];
  }

  /** A stretch inside one that fits a packet fits a packet. */
  lemma StretchFits(ms: seq<Data>, a: nat, b: nat, c: nat, d: nat, mtu: nat)
    requires a <= b <= c <= d <= |ms| && OnePacket(ms[a..d], mtu)
    ensures OnePacket(ms[b..c], mtu)
  {
    assert ms[a..d] == ms[a..b] + ms[b..c] + ms[c..d];
    SizeConcat(ms[a..b] + ms[b..c], ms[c..d]);
    SizeConcat(ms[a..b], ms[b..c]);
  }

  /** Greedy stays ahead: after any number of packets it has sent at least as many messages as any other split. */
  lemma {:induction false} GreedyStaysAhead(
      groups: seq<seq<Data>>, split: seq<seq<Data>>, ms: seq<Data>, mtu: nat, j: nat)
    requires Split(groups, ms, mtu) && Split(split, ms, mtu) && Maximal(groups, [], mtu)
    requires forall k :: 0 <= k < |groups| ==> groups[k] != []
    requires j <= |groups| && j <= |split|
    ensures Reach(groups, j) >= Reach(split, j)
  {
    hide Flatten, OnePacket, Maximal, Split, Reach;
    ReachStart(groups, split);
    SplitPart(groups, ms, mtu, j);
    SplitPart(split, ms, mtu, j);
    if j > 0 {
      GreedyStaysAhead(groups, split, ms, mtu, j - 1);
      if j < |groups| {
        BlockedStretch(groups, ms, mtu, j);
        CannotOvertake(ms, Reach(split, j - 1), Reach(groups, j - 1), Reach(groups, j), Reach(split, j), mtu);
      }
    }
  }

  lemma ReachStart(a: seq<seq<Data>>, b: seq<seq<Data>>)
    ensures Reach(a, 0) == Reach(b, 0) == 0
  {
  }

  lemma SplitPart(split: seq<seq<Data>>, ms: seq<Data>, mtu: nat, j: nat)
    requires Split(split, ms, mtu) && j <= |split|
    ensures Flatten(split) == ms && Reach(split, j) <= |ms| && (j == |split| ==> Reach(split, j) == |ms|)
    ensures j > 0 ==> Reach(split, j - 1) <= Reach(split, j)
    ensures j > 0 ==> OnePacket(ms[Reach(split, j - 1)..Reach(split, j)], mtu)
  {
    ReachIsPrefix(split, j);
    if j > 0 { GroupIsStretch(split, j - 1); }
  }

  /** A greedy group and the message after it, as one stretch, do not fit a packet. */
  lemma BlockedStretch(groups: seq<seq<Data>>, ms: seq<Data>, mtu: nat, j: nat)
    requires Flatten(groups) == ms && Maximal(groups, [], mtu) && 1 <= j < |groups| && groups[j] != []
    ensures Reach(groups, j - 1) <= Reach(groups, j) < |ms|
    ensures !OnePacket(ms[Reach(groups, j - 1)..Reach(groups, j) + 1], mtu)
  {
    hide Flatten, OnePacket, Maximal, Reach;
    GroupIsStretch(groups, j - 1);
    GroupIsStretch(groups, j);
    GroupsClosed(groups, mtu, j);
    JoinStretch(ms, Reach(groups, j - 1), Reach(groups, j), Reach(groups, j + 1));
  }

  lemma JoinStretch(ms: seq<Data>, b: nat, c: nat, d: nat)
    requires b <= c < d <= |ms|
    ensures ms[b..c] + [ms[c..d][0]] == ms[b..c + 1]
  {
  }

  lemma GroupsClosed(groups: seq<seq<Data>>, mtu: nat, j: nat)
    requires Maximal(groups, [], mtu) && 1 <= j < |groups| && groups[j] != []
    ensures !OnePacket(groups[j - 1] + [groups[j][0]], mtu)
  {
    assert Closed(groups[j - 1], Following(groups, [], j - 1), mtu);
  }

  lemma CannotOvertake(ms: seq<Data>, a: nat, b: nat, c: nat, d: nat, mtu: nat)
    requires a <= b <= c < |ms| && a <= d <= |ms|
    requires OnePacket(ms[a..d], mtu) && !OnePacket(ms[b..c + 1], mtu)
    ensures d <= c
  {
    if c < d { StretchFits(ms, a, b, c + 1, d, mtu); }
  }

  /** No order-preserving split of the messages into packets uses fewer of them. */
  lemma GreedyIsOptimal(groups: seq<seq<Data>>, split: seq<seq<Data>>, ms: seq<Data>, mtu: nat)
    requires Split(groups, ms, mtu) && Split(split, ms, mtu) && Maximal(groups, [], mtu)
    requires forall k :: 0 <= k < |groups| ==> groups[k] != []
    ensures |groups| <= |split|
  {
    if |split| < |groups| {
      var n := |split|;
      GreedyStaysAhead(groups, split, ms, mtu, n);
      ReachIsPrefix(split, n);
      GroupIsStretch(groups, n);
    }
  }

  /** For an MTU a datagram can have, the buffer is always full before the count can reach the reserved value. */
  lemma CountNeverRunsOut(ms: seq<Data>, mtu: nat)
    requires mtu <= 0xFFFF && OnePacket(ms, mtu)
    ensures |ms| < END_OF_SESSION - 1
  {
    SizeIsLength(ms);
  }

  // ---- the program ------------------------------------------------------------------------------

  /**
   * Pack a whole file. What comes out, whatever the MTU and the heartbeat interval, tiles the sequence numbers,
   * respects the MTU, carries exactly the messages read, holds exactly the heartbeats they call for, and ends the
   * session.
   */
  method Wrap(ms: seq<Data>, mtu: nat, session: Data, heartbeatNs: nat)
    returns (r: Result, file: Data, ghost written: seq<Data>, ghost groups: seq<seq<Data>>)
    requires forall m :: m in ms ==> Framable(m)
    requires Fits(|ms| + 1, 8)
    ensures r.BadMtu? <==> mtu <= MOLD_HEADER + 2
    ensures r.TooLong? <==> mtu > MOLD_HEADER + 2 && exists m :: m in ms && 2 + |m| > mtu - MOLD_HEADER
    ensures file == FileOf(written) && Tiles(written) && (r.Wrapped? ==> Unpack(written) == ms)
    ensures forall p :: p in written ==> |p| <= mtu
    ensures r.TooLong? ==> exists i :: StoppedAt(ms, i, mtu, session, heartbeatNs, written)
    ensures r.Wrapped? ==>
      written != [] && written[|written| - 1] == HeaderBytes(session, |ms| + 1, END_OF_SESSION)
    ensures r.Wrapped? ==> Heartbeats(written) == Beats(ms, session, heartbeatNs)
    ensures r.Wrapped? && heartbeatNs > 0 && Clocked(ms) ==>
      exists marks :: Paced(ms, heartbeatNs, marks) && Heartbeats(written) == BeatsBehind(marks, session)
    ensures r.Wrapped? && heartbeatNs == 0 ==>
      Heartbeats(written) == [] &&
      Split(groups, ms, mtu) && forall split :: Split(split, ms, mtu) ==> |groups| <= |split|
  {
    hide Fits, FileOf, Tiles, Unpack, Flatten, HeaderBytes, Framable, Greedy, Maximal, Split, Packer.Valid;
    hide Packer.Taken;
    hide Heartbeats, Beats, Clock, Paced, Clocked, BeatsBehind;
    file, written, groups := [], [], [];
    NothingSent(mtu);
    if mtu <= MOLD_HEADER + 2 { return BadMtu, file, written, groups; }
    var w := new Packer(mtu, session, heartbeatNs);
    NothingGreedy(mtu);
    NothingBeats(session, heartbeatNs);
    for i := 0 to |ms|
      invariant w.Valid() && fresh(w) && fresh(w.packet) && w.mtu == mtu && w.session == session
      invariant w.heartbeatNs == heartbeatNs
      invariant w.Taken() == ms[..i] && w.messages == i && w.Beaten()
      invariant heartbeatNs == 0 ==> Greedy(w.groups, w.pending, mtu)
      invariant forall k :: 0 <= k < i ==> 2 + |ms[k]| <= mtu - MOLD_HEADER
    {
      assert ms[i] in ms;
      if 2 + |ms[i]| > mtu - MOLD_HEADER {
        StoppedHere(w, ms, i);
        return TooLong, w.file, w.written, w.groups;
      }
      FitsBelow(i + 2, |ms| + 1, 8);
      w.Take(ms[i]);
      assert ms[..i + 1] == ms[..i] + [ms[i]];
    }
    assert ms[..|ms|] == ms;
    if heartbeatNs == 0 { GreedyClosed(w.groups, w.pending, mtu); }
    w.Finish();
    file, written, groups := w.file, w.written, w.groups;
    TakenAll(w, ms);
    if heartbeatNs > 0 && Clocked(ms) {
      ghost var marks := BeatsArePaced(ms, session, heartbeatNs);
    }
    if heartbeatNs == 0 { NeverBeats(ms, session); }
    return Wrapped, file, written, groups;
  }

  /**
   * What a run that meets a message too long leaves behind: the packets already sent, which carry the messages
   * before it but for those still waiting in the buffer, and the heartbeats up to there.
   */
  ghost predicate StoppedAt(
      ms: seq<Data>, i: nat, mtu: nat, session: Data, heartbeatNs: nat, written: seq<Data>) {
    && i < |ms| && 2 + |ms[i]| > mtu - MOLD_HEADER
    && (forall k :: 0 <= k < i ==> 2 + |ms[k]| <= mtu - MOLD_HEADER)
    && Unpack(written) <= ms[..i] && OnePacket(ms[|Unpack(written)|..i], mtu)
    && Heartbeats(written) == Beats(ms[..i], session, heartbeatNs)
  }

  lemma StoppedHere(w: Packer, ms: seq<Data>, i: nat)
    requires w.Valid() && w.Beaten() && i < |ms| && w.Taken() == ms[..i]
    requires 2 + |ms[i]| > w.mtu - MOLD_HEADER && forall k :: 0 <= k < i ==> 2 + |ms[k]| <= w.mtu - MOLD_HEADER
    ensures StoppedAt(ms, i, w.mtu, w.session, w.heartbeatNs, w.written)
    ensures w.file == FileOf(w.written) && Tiles(w.written) && forall p :: p in w.written ==> |p| <= w.mtu
  {
    hide Unpack, OnePacket, Heartbeats, Beats, Tiles, FileOf;
    var sent := |Unpack(w.written)|;
    assert ms[sent..i] == ms[..i][sent..] == w.pending;
  }

  lemma TakenAll(w: Packer, ms: seq<Data>)
    requires w.Valid() && w.pending == [] && w.Taken() == ms
    ensures w.file == FileOf(w.written) && Tiles(w.written) && Unpack(w.written) == ms && Split(w.groups, ms, w.mtu)
    ensures forall p :: p in w.written ==> |p| <= w.mtu
    ensures Maximal(w.groups, [], w.mtu) ==> forall split :: Split(split, ms, w.mtu) ==> |w.groups| <= |split|
  {
    forall split | Maximal(w.groups, [], w.mtu) && Split(split, ms, w.mtu)
      ensures |w.groups| <= |split|
    {
      GreedyIsOptimal(w.groups, split, ms, w.mtu);
    }
  }
}
