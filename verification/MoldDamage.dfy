/** The fault injector: drops, copies, delays, truncates, blacks out and injects packets, renumbering as it goes. */
module MoldDamage {
  import opened Wrappers
  import opened Bytes
  import opened Itch
  import opened MoldPacket
  import Rng

  const BLANK8: Data := [Ch(' '), Ch(' '), Ch(' '), Ch(' '), Ch(' '), Ch(' '), Ch(' '), Ch(' ')]
  const UINT64: nat := 0x1_0000_0000_0000_0000

  /** What became of one packet. */
  datatype Fate = Outage | Dropped | Held | Sent(copies: nat, cut: bool) | Injected(state: byte)

  /** One packet's place in the output numbering, what became of it, and its bytes as they would be written. */
  datatype Slot = Slot(start: nat, count: nat, fate: Fate, bytes: Data)

  /** Whether the packet lost its tail. */
  predicate Cut(s: Slot) {
    s.fate.Sent? && s.fate.cut
  }

  predicate Missing(s: Slot) {
    s.fate.Outage? || s.fate.Dropped?
  }

  // ---- the order of writing ---------------------------------------------------------------

  datatype Delivery = Delivery(written: seq<Data>, held: Option<Data>)

  function Copies(p: Data, n: nat): seq<Data> {
    seq(n, _ => p)
  }

  function Release(held: Option<Data>): seq<Data> {
    match held
    case None => []
    case Some(p) => [p]
  }

  /** A held packet waits for the next one that is sent, and goes right behind it and its copies. */
  function Deliver(slots: seq<Slot>): Delivery {
    if slots == [] then Delivery([], None)
    else
      var d := Deliver(slots[..|slots| - 1]);
      var s := slots[|slots| - 1];
      match s.fate
      case Outage => d
      case Dropped => d
      case Injected(_) => Delivery(d.written + [s.bytes], d.held)
      case Held => Delivery(d.written, Some(s.bytes))
      case Sent(n, _) => Delivery(d.written + Copies(s.bytes, n) + Release(d.held), None)
  }

  /** Everything in the file once the input has ended. */
  function Output(slots: seq<Slot>): seq<Data> {
    Deliver(slots).written + Release(Deliver(slots).held)
  }

  lemma DeliverAppend(slots: seq<Slot>, s: Slot)
    ensures var d := Deliver(slots);
      Deliver(slots + [s])
      == match s.fate
         case Outage => d
         case Dropped => d
         case Injected(_) => Delivery(d.written + [s.bytes], d.held)
         case Held => Delivery(d.written, Some(s.bytes))
         case Sent(n, _) => Delivery(d.written + Copies(s.bytes, n) + Release(d.held), None)
  {
    assert (slots + [s])[..|slots|] == slots;
  }

  /** Only one packet is ever held back: nothing else is waiting when a packet is held. */
  predicate OneHeldAtATime(slots: seq<Slot>) {
    forall k :: 0 <= k < |slots| && slots[k].fate.Held? ==> Deliver(slots[..k]).held.None?
  }

  lemma {:induction false} HeldSince(slots: seq<Slot>, k: nat, n: nat)
    requires OneHeldAtATime(slots) && k < n <= |slots| && slots[k].fate.Held?
    requires forall j :: k < j < n ==> !slots[j].fate.Sent?
    ensures Deliver(slots[..n]).held == Some(slots[k].bytes)
  {
    var s := slots[n - 1];
    assert slots[..n] == slots[..n - 1] + [s];
    DeliverAppend(slots[..n - 1], s);
    if n - 1 > k {
      HeldSince(slots, k, n - 1);
    }
  }

  /** A held packet is written right after the next packet that is sent, and after any copy of it. */
  lemma HeldFollowsNextSent(slots: seq<Slot>, k: nat, n: nat)
    requires OneHeldAtATime(slots) && k < n < |slots| && slots[k].fate.Held? && slots[n].fate.Sent?
    requires forall j :: k < j < n ==> !slots[j].fate.Sent?
    ensures Deliver(slots[..n + 1]).written
         == Deliver(slots[..n]).written + Copies(slots[n].bytes, slots[n].fate.copies) + [slots[k].bytes]
    ensures Deliver(slots[..n + 1]).held == None
  {
    HeldSince(slots, k, n);
    assert slots[..n + 1] == slots[..n] + [slots[n]];
    DeliverAppend(slots[..n], slots[n]);
  }

  /** A packet still held at the end of the input is the last one written. */
  lemma HeldAtEnd(slots: seq<Slot>, k: nat)
    requires OneHeldAtATime(slots) && k < |slots| && slots[k].fate.Held?
    requires forall j :: k < j < |slots| ==> !slots[j].fate.Sent?
    ensures Output(slots) == Deliver(slots).written + [slots[k].bytes]
  {
    HeldSince(slots, k, |slots|);
    assert slots[..|slots|] == slots;
  }

  function Weight(s: Slot): nat {
    match s.fate
    case Outage => 0
    case Dropped => 0
    case Sent(n, _) => n
    case _ => 1
  }

  function TotalWeight(slots: seq<Slot>): nat {
    if slots == [] then 0 else TotalWeight(slots[..|slots| - 1]) + Weight(slots[|slots| - 1])
  }

  /** Nothing held is lost: with at most one packet held at a time, every surviving packet is written. */
  lemma {:induction false} DeliveryConserves(slots: seq<Slot>)
    requires OneHeldAtATime(slots)
    ensures |Output(slots)| == TotalWeight(slots)
  {
    if slots != [] {
      var init, s := slots[..|slots| - 1], slots[|slots| - 1];
      forall k | 0 <= k < |init| && init[k].fate.Held?
        ensures Deliver(init[..k]).held.None?
      {
        assert init[..k] == slots[..k] && slots[k].fate.Held?;
      }
      DeliveryConserves(init);
    }
  }

  // ---- the numbering -------------------------------------------------------------------------

  /** The number after everything these slots cover. */
  function NextNumber(slots: seq<Slot>): nat {
    if slots == [] then 1 else NextNumber(slots[..|slots| - 1]) + slots[|slots| - 1].count
  }

  /** Each slot starts where the one before it ends. */
  predicate SlotsTile(slots: seq<Slot>) {
    forall k :: 0 <= k < |slots| ==> slots[k].start == NextNumber(slots[..k])
  }

  lemma NextNumberAppend(slots: seq<Slot>, s: Slot)
    ensures NextNumber(slots + [s]) == NextNumber(slots) + s.count
    ensures SlotsTile(slots) && s.start == NextNumber(slots) ==> SlotsTile(slots + [s])
  {
    var all := slots + [s];
    assert all[..|slots|] == slots;
    forall k | 0 <= k < |slots|
      ensures all[..k] == slots[..k]
    {
    }
  }

  lemma {:induction false} NextNumberGrows(slots: seq<Slot>, i: nat, j: nat)
    requires i <= j <= |slots|
    ensures NextNumber(slots[..i]) <= NextNumber(slots[..j])
    decreases j - i
  {
    if i < j {
      assert slots[..j][..j - 1] == slots[..j - 1];
      NextNumberGrows(slots, i, j - 1);
    }
  }

  predicate Covers(s: Slot, x: nat) {
    s.start <= x < s.start + s.count
  }

  /** The ranges of two slots do not meet, and come in the order of the slots. */
  lemma RangesInOrder(slots: seq<Slot>, i: nat, j: nat)
    requires SlotsTile(slots) && i < j < |slots|
    ensures slots[i].start + slots[i].count <= slots[j].start
  {
    NextNumberGrows(slots, i + 1, j);
    assert slots[..i + 1][..i] == slots[..i];
  }

  lemma {:induction false} SomeSlotCovers(slots: seq<Slot>, x: nat)
    requires SlotsTile(slots) && 1 <= x < NextNumber(slots)
    ensures exists k :: 0 <= k < |slots| && Covers(slots[k], x)
  {
    var init, s := slots[..|slots| - 1], slots[|slots| - 1];
    if x < NextNumber(init) {
      forall k | 0 <= k < |init|
        ensures init[k].start == NextNumber(init[..k])
      {
        assert init[..k] == slots[..k];
      }
      SomeSlotCovers(init, x);
      var k :| 0 <= k < |init| && Covers(init[k], x);
      assert slots[k] == init[k];
    } else {
      assert Covers(slots[|slots| - 1], x);
    }
  }

  /** A packet is in the output exactly when some surviving slot holds it. */
  lemma {:induction false} SurvivorsAreWritten(slots: seq<Slot>, p: Data)
    requires OneHeldAtATime(slots) && OneOrTwoCopies(slots)
    ensures p in Output(slots) <==> exists k :: 0 <= k < |slots| && !Missing(slots[k]) && slots[k].bytes == p
  {
    if slots != [] {
      var init, s := slots[..|slots| - 1], slots[|slots| - 1];
      assert init + [s] == slots;
      HeldInPrefix(init, s);
      assert OneOrTwoCopies(init) by {
        assert forall k :: 0 <= k < |init| ==> init[k] == slots[k];
      }
      SurvivorsAreWritten(init, p);
      LastIsWritten(init, s, p);
      assert (exists k :: 0 <= k < |slots| && !Missing(slots[k]) && slots[k].bytes == p)
        <==> ((exists k :: 0 <= k < |init| && !Missing(init[k]) && init[k].bytes == p)
              || (!Missing(s) && s.bytes == p)) by {
        assert forall k :: 0 <= k < |init| ==> init[k] == slots[k];
        assert slots[|slots| - 1] == s;
      }
    }
  }

  lemma HeldInPrefix(init: seq<Slot>, s: Slot)
    requires OneHeldAtATime(init + [s])
    ensures OneHeldAtATime(init) && (s.fate.Held? ==> Deliver(init).held.None?)
  {
    var all := init + [s];
    forall k | 0 <= k < |init| && init[k].fate.Held?
      ensures Deliver(init[..k]).held.None?
    {
      assert init[..k] == all[..k] && all[k].fate.Held?;
    }
    assert all[..|init|] == init && all[|init|] == s;
  }

  lemma LastIsWritten(init: seq<Slot>, s: Slot, p: Data)
    requires s.fate.Held? ==> Deliver(init).held.None?
    requires s.fate.Sent? ==> s.fate.copies >= 1
    ensures p in Output(init + [s]) <==> p in Output(init) || (!Missing(s) && s.bytes == p)
  {
    DeliverAppend(init, s);
    if s.fate.Sent? {
      var cs := Copies(s.bytes, s.fate.copies);
      assert cs[0] == s.bytes && forall q :: q in cs ==> q == s.bytes;
    }
  }

  /** A packet whose own header claims a number. */
  predicate Holds(p: Data, x: nat) {
    ParseHeader(p).Some? && ParseHeader(p).value.sequence <= x < ParseHeader(p).value.sequence + HeaderCount(p)
  }

  /** The slot's place in the numbering is the one its bytes claim. */
  predicate Headed(s: Slot) {
    ParseHeader(s.bytes).Some? && ParseHeader(s.bytes).value.sequence == s.start && HeaderCount(s.bytes) == s.count
  }

  predicate AllHeaded(slots: seq<Slot>) {
    forall k :: 0 <= k < |slots| && !Missing(slots[k]) ==> Headed(slots[k])
  }

  /** Every number up to the next one belongs to exactly one slot. */
  lemma OneSlotCovers(slots: seq<Slot>, x: nat) returns (k: nat)
    requires SlotsTile(slots) && 1 <= x < NextNumber(slots)
    ensures k < |slots| && forall j :: 0 <= j < |slots| ==> (Covers(slots[j], x) <==> j == k)
  {
    SomeSlotCovers(slots, x);
    k :| 0 <= k < |slots| && Covers(slots[k], x);
    forall j | 0 <= j < |slots| && Covers(slots[j], x)
      ensures j == k
    {
      if j < k { RangesInOrder(slots, j, k); }
      if k < j { RangesInOrder(slots, k, j); }
    }
  }

  /**
   * The partition, in the packets written: a number is claimed by the header of some packet of the output exactly
   * when the one slot it belongs to was neither dropped nor lost in the outage, and then by one packet and its copies.
   */
  lemma NumbersArePartitioned(slots: seq<Slot>, x: nat) returns (k: nat)
    requires SlotsTile(slots) && OneHeldAtATime(slots) && OneOrTwoCopies(slots) && AllHeaded(slots)
    requires 1 <= x < NextNumber(slots)
    ensures k < |slots| && forall j :: 0 <= j < |slots| ==> (Covers(slots[j], x) <==> j == k)
    ensures (exists p :: p in Output(slots) && Holds(p, x)) <==> !Missing(slots[k])
    ensures forall p :: p in Output(slots) && Holds(p, x) ==> p == slots[k].bytes
  {
    hide Output, OneHeldAtATime, OneOrTwoCopies, SlotsTile, NextNumber, HeaderCount, ParseHeader;
    k := OneSlotCovers(slots, x);
    forall p | p in Output(slots) && Holds(p, x)
      ensures p == slots[k].bytes && !Missing(slots[k])
    {
      SurvivorsAreWritten(slots, p);
      var j :| 0 <= j < |slots| && !Missing(slots[j]) && slots[j].bytes == p;
      assert Headed(slots[j]) && Covers(slots[j], x);
    }
    if !Missing(slots[k]) {
      SurvivorsAreWritten(slots, slots[k].bytes);
      assert Headed(slots[k]) && Covers(slots[k], x);
      assert slots[k].bytes in Output(slots) && Holds(slots[k].bytes, x);
    }
  }

  /** No packet of the output claims a number outside the ones numbered. */
  lemma NothingElseIsClaimed(slots: seq<Slot>, p: Data, x: nat)
    requires SlotsTile(slots) && OneHeldAtATime(slots) && OneOrTwoCopies(slots) && AllHeaded(slots)
    requires p in Output(slots) && Holds(p, x)
    ensures 1 <= x < NextNumber(slots)
  {
    hide Output, OneHeldAtATime, OneOrTwoCopies, NextNumber, HeaderCount, ParseHeader;
    SurvivorsAreWritten(slots, p);
    var j :| 0 <= j < |slots| && !Missing(slots[j]) && slots[j].bytes == p;
    assert Headed(slots[j]) && Covers(slots[j], x);
    PlaceInRange(slots, j);
  }

  lemma PlaceInRange(slots: seq<Slot>, j: nat)
    requires SlotsTile(slots) && j < |slots|
    ensures 1 <= slots[j].start && slots[j].start + slots[j].count <= NextNumber(slots)
  {
    assert slots[..j + 1][..j] == slots[..j] && slots[..j + 1][j] == slots[j];
    NextNumberGrows(slots, 0, j);
    NextNumberGrows(slots, j + 1, |slots|);
    assert slots[..|slots|] == slots;
  }

  // ---- the input -------------------------------------------------------------------------------

  function HeaderCount(p: Data): nat {
    match ParseHeader(p)
    case None => 0
    case Some(h) => h.MessageCount()
  }

  function NextInput(packets: seq<Data>): nat {
    if packets == [] then 1 else NextInput(packets[..|packets| - 1]) + HeaderCount(packets[|packets| - 1])
  }

  /** Every packet has a header that names the next message: what a packer writes. */
  predicate Contiguous(packets: seq<Data>) {
    packets != [] ==>
      var init, p := packets[..|packets| - 1], packets[|packets| - 1];
      Contiguous(init) && ParseHeader(p).Some? && ParseHeader(p).value.sequence == NextInput(init)
  }

  /** The packer's own output is contiguous, by header alone. */
  lemma {:induction false} TilesAreContiguous(packets: seq<Data>)
    requires Tiles(packets)
    ensures Contiguous(packets) && NextInput(packets) == |Unpack(packets)| + 1
  {
    if packets != [] {
      TilesAreContiguous(packets[..|packets| - 1]);
    }
  }

  lemma ContiguousAppend(packets: seq<Data>, p: Data)
    ensures NextInput(packets + [p]) == NextInput(packets) + HeaderCount(p)
    ensures Contiguous(packets + [p]) <==>
      (Contiguous(packets) && ParseHeader(p).Some? && ParseHeader(p).value.sequence == NextInput(packets))
  {
    assert (packets + [p])[..|packets|] == packets;
  }

  // ---- the bytes ---------------------------------------------------------------------------------

  /** Overwrite the sequence number of a packet. */
  function Renumber(p: Data, sequence: nat): Data
    requires |p| >= MOLD_HEADER
  {
    p[..SESSION_LEN] + BigEndian(sequence, 8) + p[18..]
  }

  lemma RenumberChangesOnlyTheNumber(p: Data, sequence: nat)
    requires |p| >= MOLD_HEADER && Fits(sequence, 8)
    ensures var h := ParseHeader(p).value;
      |Renumber(p, sequence)| == |p| && Renumber(p, sequence)[18..] == p[18..]
      && ParseHeader(Renumber(p, sequence)) == Some(h.(sequence := sequence))
  {
    var q := Renumber(p, sequence);
    FieldAt(q, p[..SESSION_LEN], sequence, 8, p[18..]);
    assert q[..SESSION_LEN] == p[..SESSION_LEN];
    assert q[18..] == p[18..];
    assert q[18..20] == q[18..][..2] && p[18..20] == p[18..][..2];
  }

  /** Clip the tail of a packet, keeping its header. */
  function Clip(p: Data): Data
    requires |p| > MOLD_HEADER + 4
  {
    p[..MOLD_HEADER + (|p| - MOLD_HEADER) / 2]
  }

  lemma ClipKeepsHeader(p: Data)
    requires |p| > MOLD_HEADER + 4
    ensures ParseHeader(Clip(p)) == ParseHeader(p) && |Clip(p)| < |p|
  {
    var q := Clip(p);
    assert q[..SESSION_LEN] == p[..SESSION_LEN] && q[10..18] == p[10..18] && q[18..20] == p[18..20];
  }

  /** A trading action in a packet of its own. */
  function ActionPacket(session: Data, sequence: nat, locate: nat, at: nat, state: byte): Data
    requires Fits(locate, 2) && Fits(at, 6)
  {
    DataPacket(session, sequence, [Encode(Message(locate, at, TradingAction(BLANK8, state, BLANK4)))])
  }

  lemma ActionPacketCarries(session: Data, sequence: nat, locate: nat, at: nat, state: byte)
    requires Fits(locate, 2) && Fits(at, 6) && Fits(sequence, 8)
    ensures var m := Message(locate, at, TradingAction(BLANK8, state, BLANK4));
      Encodable(m) && Carried(ActionPacket(session, sequence, locate, at, state)) == [Encode(m)]
      && ParseHeader(ActionPacket(session, sequence, locate, at, state))
        == Some(Header(SessionField(session), sequence, 1))
  {
    var m := Message(locate, at, TradingAction(BLANK8, state, BLANK4));
    HeaderRoundTrip(m);
    assert Pow256(2) == 65536;
    DataPacketCarries(session, sequence, [Encode(m)]);
  }

  /** The first message of a packet, if it is whole and long enough to carry a timestamp. */
  function FirstMessage(p: Data): Option<Data>
    requires |p| >= MOLD_HEADER
  {
    var bs := Blocks(p, MOLD_HEADER, HeaderCount(p));
    if bs != [] && |bs[0]| >= 11 then Some(bs[0]) else None
  }

  lemma FirstMessageFields(p: Data)
    requires |p| >= MOLD_HEADER && FirstMessage(p).Some?
    ensures var m := FirstMessage(p).value; |m| >= 11 && Fits(Field(m, 1, 2), 2) && Fits(Field(m, 5, 6), 6)
  {
    var m := FirstMessage(p).value;
    FromBigEndianRoundTrip(m[1..3]);
    FromBigEndianRoundTrip(m[5..11]);
  }

  // ---- the counters ------------------------------------------------------------------------------

  datatype Tally = Tally(
    dropped: nat, disconnected: nat, duped: nat, reordered: nat, truncated: nat, halted: nat)

  function CountSlots(slots: seq<Slot>): Tally {
    if slots == [] then Tally(0, 0, 0, 0, 0, 0)
    else
      var t := CountSlots(slots[..|slots| - 1]);
      match slots[|slots| - 1].fate
      case Outage => t.(disconnected := t.disconnected + 1)
      case Dropped => t.(dropped := t.dropped + 1)
      case Held => t.(reordered := t.reordered + 1)
      case Injected(_) => t.(halted := t.halted + 1)
      case Sent(n, cut) =>
        t.(duped := t.duped + (if n == 2 then 1 else 0), truncated := t.truncated + if cut then 1 else 0)
  }

  /** Sent packets are sent once, or twice when duplicated. */
  predicate OneOrTwoCopies(slots: seq<Slot>) {
    forall k :: 0 <= k < |slots| && slots[k].fate.Sent? ==> 1 <= slots[k].fate.copies <= 2
  }

  lemma {:induction false} CountsConserve(slots: seq<Slot>)
    requires OneOrTwoCopies(slots)
    ensures var t := CountSlots(slots);
      TotalWeight(slots) + t.dropped + t.disconnected == |slots| + t.duped
  {
    if slots != [] {
      CountsConserve(slots[..|slots| - 1]);
    }
  }

  predicate NoneCut(slots: seq<Slot>) {
    forall k :: 0 <= k < |slots| ==> !Cut(slots[k])
  }

  lemma {:induction false} CutsAreCounted(slots: seq<Slot>)
    ensures CountSlots(slots).truncated == 0 <==> NoneCut(slots)
  {
    if slots != [] {
      var init, s := slots[..|slots| - 1], slots[|slots| - 1];
      CutsAreCounted(init);
      assert slots == init + [s];
    }
  }

  /** Conservation: what is written is what was read, less what was lost, plus copies and injected notices. */
  lemma PacketsConserved(slots: seq<Slot>, read: nat)
    requires OneOrTwoCopies(slots) && OneHeldAtATime(slots) && |slots| == read + CountSlots(slots).halted
    ensures var t := CountSlots(slots);
      |Output(slots)| == read - t.dropped - t.disconnected + t.duped + t.halted
  {
    CountsConserve(slots);
    DeliveryConserves(slots);
  }

  /** The outage takes one contiguous run of packets. */
  predicate OneOutage(slots: seq<Slot>) {
    forall i, j, k :: 0 <= i < j < k < |slots| && slots[i].fate.Outage? && slots[k].fate.Outage?
      ==> slots[j].fate.Outage?
  }

  function Notices(slots: seq<Slot>): seq<byte> {
    if slots == [] then []
    else
      var s := slots[|slots| - 1];
      Notices(slots[..|slots| - 1]) + if s.fate.Injected? then [s.fate.state] else []
  }

  // ---- what one more slot keeps ---------------------------------------------------------------------

  /** The state that the loop's variables describe, as one predicate over the slots so far. */
  ghost predicate Ledger(
      slots: seq<Slot>, out: seq<Data>, held: Option<Data>, t: Tally, until: nat, notices: seq<byte>) {
    && Deliver(slots) == Delivery(out, held)
    && OneHeldAtATime(slots) && OneOrTwoCopies(slots)
    && CountSlots(slots) == t
    && OneOutage(slots)
    && (until > 0 ==> slots != [] && slots[|slots| - 1].fate.Outage?)
    && (t.disconnected == 0 ==> forall k :: 0 <= k < |slots| ==> !slots[k].fate.Outage?)
    && Notices(slots) == notices
  }

  lemma EmptyLedger()
    ensures Ledger([], [], None, Tally(0, 0, 0, 0, 0, 0), 0, [])
    ensures SlotsTile([]) && NextNumber([]) == 1
  {
  }

  lemma {:induction false} LedgerOutage(
      slots: seq<Slot>, out: seq<Data>, held: Option<Data>, t: Tally, was: nat, until: nat, ns: seq<byte>, s: Slot)
    requires Ledger(slots, out, held, t, was, ns) && s.fate == Outage && (was > 0 || t.disconnected == 0)
    ensures Ledger(slots + [s], out, held, t.(disconnected := t.disconnected + 1), until, ns)
  {
    LedgerFrame(slots, s);
    OutageFrame(slots, s);
  }

  lemma {:induction false} LedgerInjected(
      slots: seq<Slot>, out: seq<Data>, held: Option<Data>, t: Tally, ns: seq<byte>, s: Slot)
    requires Ledger(slots, out, held, t, 0, ns) && s.fate.Injected?
    ensures Ledger(slots + [s], out + [s.bytes], held, t.(halted := t.halted + 1), 0, ns + [s.fate.state])
  {
    LedgerFrame(slots, s);
  }

  lemma {:induction false} LedgerDropped(
      slots: seq<Slot>, out: seq<Data>, held: Option<Data>, t: Tally, ns: seq<byte>, s: Slot)
    requires Ledger(slots, out, held, t, 0, ns) && s.fate == Dropped
    ensures Ledger(slots + [s], out, held, t.(dropped := t.dropped + 1), 0, ns)
  {
    LedgerFrame(slots, s);
  }

  lemma {:induction false} LedgerHeld(
      slots: seq<Slot>, out: seq<Data>, t: Tally, ns: seq<byte>, s: Slot)
    requires Ledger(slots, out, None, t, 0, ns) && s.fate == Held
    ensures Ledger(slots + [s], out, Some(s.bytes), t.(reordered := t.reordered + 1), 0, ns)
  {
    LedgerFrame(slots, s);
  }

  lemma {:induction false} LedgerSent(
      slots: seq<Slot>, out: seq<Data>, held: Option<Data>, t: Tally, ns: seq<byte>, s: Slot)
    requires Ledger(slots, out, held, t, 0, ns) && s.fate.Sent? && 1 <= s.fate.copies <= 2
    ensures Ledger(slots + [s], out + Copies(s.bytes, s.fate.copies) + Release(held), None,
                   t.(duped := t.duped + (if s.fate.copies == 2 then 1 else 0),
                      truncated := t.truncated + if s.fate.cut then 1 else 0), 0, ns)
  {
    LedgerFrame(slots, s);
  }

  /** Appending a slot changes nothing that was said about the ones before it. */
  lemma LedgerFrame(slots: seq<Slot>, s: Slot)
    ensures var all := slots + [s];
      && all[..|all| - 1] == slots && all[|all| - 1] == s
      && (OneHeldAtATime(slots) && (s.fate.Held? ==> Deliver(slots).held.None?) ==> OneHeldAtATime(all))
      && (OneOutage(slots) && !s.fate.Outage? ==> OneOutage(all))
  {
    var all := slots + [s];
    if OneOutage(slots) && !s.fate.Outage? { OutageFrame(slots, s); }
    if OneHeldAtATime(slots) && (s.fate.Held? ==> Deliver(slots).held.None?) {
      forall k | 0 <= k < |all| && all[k].fate.Held?
        ensures Deliver(all[..k]).held.None?
      {
        if k < |slots| {
          assert all[..k] == slots[..k] && slots[k].fate.Held?;
        } else {
          assert all[..k] == slots;
        }
      }
    }
  }

  lemma OutageFrame(slots: seq<Slot>, s: Slot)
    requires OneOutage(slots)
    requires s.fate.Outage? ==>
      (slots != [] && slots[|slots| - 1].fate.Outage?) || forall k :: 0 <= k < |slots| ==> !slots[k].fate.Outage?
    ensures OneOutage(slots + [s])
  {
    var all := slots + [s];
    forall i, j, k | 0 <= i < j < k < |all| && all[i].fate.Outage? && all[k].fate.Outage?
      ensures all[j].fate.Outage?
    {
      assert slots[i].fate.Outage?;
      if k < |slots| {
        assert slots[k].fate.Outage?;
      } else if j < |slots| - 1 {
        assert slots[|slots| - 1].fate.Outage?;
      }
    }
  }

  // ---- the program -------------------------------------------------------------------------------------

  datatype Config = Config(
    drop: nat, duplicate: nat, reorder: nat, truncate: nat,
    disconnectAt: nat, disconnectFor: nat, disconnectAtNs: nat, haltAtNs: nat, haltForNs: nat)

  /** A rate of zero is a fault that never happens, and an outage lasts what it was asked to. */
  predicate WithinConfig(c: Config, t: Tally) {
    && (c.drop == 0 ==> t.dropped == 0) && (c.duplicate == 0 ==> t.duped == 0) && (c.reorder == 0 ==> t.reordered == 0)
    && t.disconnected <= c.disconnectFor && (c.disconnectAt == 0 && c.disconnectAtNs == 0 ==> t.disconnected == 0)
    && (c.truncate == 0 ==> t.truncated == 0) && (c.haltAtNs == 0 ==> t.halted == 0)
  }

  /** Nothing was asked for. */
  predicate Quiet(c: Config) {
    c.drop == c.duplicate == c.reorder == c.truncate == c.disconnectAt == c.disconnectAtNs == c.haltAtNs == 0
  }

  function Timestamp(m: Data): nat
    requires |m| >= 11
  {
    Field(m, 5, 6)
  }

  /** Whether an outage begins with this packet. */
  predicate OutageDue(c: Config, p: Data) {
    |p| >= MOLD_HEADER &&
    if c.disconnectAt > 0 && ParseHeader(p).value.sequence >= c.disconnectAt then true
    else c.disconnectAtNs > 0 && FirstMessage(p).Some? && Timestamp(FirstMessage(p).value) >= c.disconnectAtNs
  }

  /** Whether a packet is lost, given how many already were: an outage starts once and lasts `disconnectFor` packets. */
  predicate Lost(c: Config, already: nat, p: Data) {
    c.disconnectFor > 0 && if already == 0 then OutageDue(c, p) else already < c.disconnectFor
  }

  /** When a halt ends: the sum of two 64-bit words, cut to one. */
  function ResumeAt(c: Config): nat {
    (c.haltAtNs + c.haltForNs) % UINT64
  }

  /** The trading action to inject ahead of a packet, given those injected already. */
  function NoticeDue(c: Config, ns: seq<byte>, p: Data): (state: Option<byte>)
    ensures state.Some? ==> |p| >= MOLD_HEADER && FirstMessage(p).Some?
  {
    if c.haltAtNs == 0 || |p| < MOLD_HEADER || FirstMessage(p).None? then None
    else
      var ts := Timestamp(FirstMessage(p).value);
      if ns == [] && ts >= c.haltAtNs then Some(Ch('H'))
      else if ns == [Ch('H')] && ts >= ResumeAt(c) then Some(Ch('T'))
      else None
  }

  /** The injected packet: the number of the packet it goes ahead of, and that packet's session, locate and time. */
  function NoticeOf(p: Data, offset: nat, state: byte): (s: Slot)
    requires |p| >= MOLD_HEADER && FirstMessage(p).Some?
    ensures s.start == Shifted(p, offset) && s.count == 1 && s.fate == Injected(state)
  {
    FirstMessageFields(p);
    var m := FirstMessage(p).value;
    Slot(Shifted(p, offset), 1, Injected(state),
      ActionPacket(ParseHeader(p).value.session, Shifted(p, offset), Field(m, 1, 2), Timestamp(m), state))
  }

  /** What goes out ahead of a packet that is not lost. */
  function AheadOf(c: Config, was: seq<Slot>, p: Data): seq<Slot> {
    match NoticeDue(c, Notices(was), p)
    case None => []
    case Some(state) => [NoticeOf(p, |Notices(was)|, state)]
  }

  /**
   * One packet in: the notice that is due, if any, and then the packet's own slot, numbered by every notice that
   * went ahead of it, and lost exactly when the outage has it.
   */
  predicate OneStep(c: Config, was: seq<Slot>, now: seq<Slot>, p: Data) {
    var lost := Lost(c, CountSlots(was).disconnected, p);
    var ahead := was + if lost then [] else AheadOf(c, was, p);
    && now != [] && now[..|now| - 1] == ahead
    && SlotOf(now[|now| - 1], p, |Notices(ahead)|) && (now[|now| - 1].fate.Outage? <==> lost)
  }

  lemma SurvivingStep(c: Config, was: seq<Slot>, p: Data, s: Slot)
    requires !Lost(c, CountSlots(was).disconnected, p) && !s.fate.Outage?
    requires SlotOf(s, p, |Notices(was + AheadOf(c, was, p))|)
    ensures OneStep(c, was, was + AheadOf(c, was, p) + [s], p)
  {
    hide Lost, SlotOf, Notices, AheadOf;
    var ahead := was + AheadOf(c, was, p);
    assert (ahead + [s])[..|ahead|] == ahead;
  }

  /** The slots are the packets', taken one step each, in the order of the input. */
  predicate Traced(c: Config, slots: seq<Slot>, packets: seq<Data>)
    decreases |packets|
  {
    if packets == [] then slots == []
    else
      && slots != []
      && Traced(c, Before(slots), packets[..|packets| - 1])
      && OneStep(c, Before(slots), slots, packets[|packets| - 1])
  }

  /** All but the last packet's slot and a notice right ahead of it. */
  function Before(slots: seq<Slot>): seq<Slot>
    requires slots != []
  {
    var ahead := slots[..|slots| - 1];
    if ahead != [] && ahead[|ahead| - 1].fate.Injected? then ahead[..|ahead| - 1] else ahead
  }

  /** The number a packet carries once `offset` messages have been injected ahead of it. */
  function Shifted(p: Data, offset: nat): nat
    requires |p| >= MOLD_HEADER
  {
    (ParseHeader(p).value.sequence + offset) % UINT64
  }

  function Numbered(p: Data, offset: nat): Data {
    if offset > 0 && |p| >= MOLD_HEADER then Renumber(p, Shifted(p, offset)) else p
  }

  function StartOf(p: Data, offset: nat): nat {
    if |p| >= MOLD_HEADER then Shifted(p, offset) else 0
  }

  /** A surviving packet's slot: renumbered, possibly clipped, otherwise as it came. */
  predicate SlotOf(s: Slot, p: Data, offset: nat) {
    && s.start == StartOf(p, offset) && s.count == HeaderCount(p) && !s.fate.Injected?
    && (if Cut(s) then |p| > MOLD_HEADER + 4 && s.bytes == Clip(Numbered(p, offset))
        else s.bytes == Numbered(p, offset))
    && (s.fate.Sent? ==> 1 <= s.fate.copies <= 2)
    && (IsEndOfSession(p) ==> s.fate == Outage || s.fate == Sent(1, false))
  }

  /**
   * What a receiver reads from a surviving packet: its header with the number of its slot and nothing else
   * changed, in front of the same bytes, possibly fewer.
   */
  lemma SlotBytes(s: Slot, p: Data, offset: nat)
    requires SlotOf(s, p, offset) && |p| >= MOLD_HEADER && !s.fate.Outage?
    ensures |s.bytes| >= MOLD_HEADER
    ensures ParseHeader(s.bytes) == Some(ParseHeader(p).value.(sequence := s.start))
    ensures s.bytes[MOLD_HEADER..] <= p[MOLD_HEADER..]
    ensures |s.bytes| == |p| <==> !Cut(s)
  {
    hide FromBigEndian, BigEndian, HeaderCount, IsEndOfSession;
    var q := Numbered(p, offset);
    FromBigEndianRoundTrip(p[10..18]);
    assert Pow256(8) == UINT64;
    if offset > 0 {
      RenumberChangesOnlyTheNumber(p, Shifted(p, offset));
      assert q[MOLD_HEADER..] == q[18..][2..] && p[MOLD_HEADER..] == p[18..][2..];
    }
    NumberedLength(p, offset);
    if Cut(s) {
      ClipKeepsHeader(q);
      assert Clip(q)[MOLD_HEADER..] == q[MOLD_HEADER..][..(|q| - MOLD_HEADER) / 2];
    }
  }

  /** The walk reads nothing before its offset, and over fewer bytes stops earlier or at the same place. */
  lemma {:induction false} FewerBlocks(a: Data, b: Data, off: nat, remaining: nat)
    requires MOLD_HEADER <= off && |a| >= MOLD_HEADER && |b| >= MOLD_HEADER
    requires a[MOLD_HEADER..] <= b[MOLD_HEADER..]
    ensures Blocks(a, off, remaining) <= Blocks(b, off, remaining)
    ensures |a| == |b| ==> Blocks(a, off, remaining) == Blocks(b, off, remaining)
    decreases remaining
  {
    if remaining > 0 && off + 2 <= |a| {
      SameSlice(a, b, off, off + 2);
      var n := Field(a, off, 2);
      if off + 2 + n <= |a| {
        SameSlice(a, b, off + 2, off + 2 + n);
        FewerBlocks(a, b, off + 2 + n, remaining - 1);
      }
    }
  }

  lemma SameSlice(a: Data, b: Data, from: nat, to: nat)
    requires MOLD_HEADER <= from <= to <= |a| && |b| >= MOLD_HEADER && a[MOLD_HEADER..] <= b[MOLD_HEADER..]
    ensures to <= |b| && a[from..to] == b[from..to]
  {
    var h := MOLD_HEADER;
    assert |a[h..]| <= |b[h..]|;
    SliceOfRest(a, h, from, to);
    SliceOfRest(b, h, from, to);
  }

  lemma SliceOfRest(a: Data, h: nat, from: nat, to: nat)
    requires h <= from <= to <= |a|
    ensures a[from..to] == a[h..][from - h..to - h]
  {
  }

  /** What a receiver decodes of a surviving packet: the packet's own messages, or the first of them if it was cut. */
  lemma SlotCarries(s: Slot, p: Data, offset: nat)
    requires SlotOf(s, p, offset) && |p| >= MOLD_HEADER && !s.fate.Outage?
    ensures Carried(s.bytes) <= Carried(p)
    ensures !Cut(s) ==> Carried(s.bytes) == Carried(p)
  {
    SlotBytes(s, p, offset);
    hide SlotOf, ParseHeader;
    FewerBlocks(s.bytes, p, MOLD_HEADER, HeaderCount(p));
  }

  class Damager {
    const c: Config
    var seqOffset: nat
    var haltSent: bool
    var resumeSent: bool
    var read: nat
    var held: Option<Data>
    var disconnectUntil: nat
    var tally: Tally
    var out: seq<Data>
    ghost var slots: seq<Slot>

    ghost predicate Valid()
      reads this
    {
      && Ledger(slots, out, held, tally, disconnectUntil,
                if resumeSent then [Ch('H'), Ch('T')] else if haltSent then [Ch('H')] else [])
      && (resumeSent ==> haltSent)
      && seqOffset == tally.halted == (if resumeSent then 2 else if haltSent then 1 else 0)
      && |slots| == read + tally.halted
      && Configured()
    }

    ghost predicate Configured()
      reads this
    {
      && WithinConfig(c, tally)
      && (c.reorder == 0 ==> held.None?) && (c.haltAtNs == 0 ==> !haltSent)
      && tally.disconnected + disconnectUntil == (if tally.disconnected == 0 then 0 else c.disconnectFor)
      && (c.disconnectAt == 0 && c.disconnectAtNs == 0 ==> disconnectUntil == 0)
    }

    constructor (c: Config)
      ensures Valid() && this.c == c && slots == [] && out == [] && read == 0
    {
      this.c := c;
      seqOffset, haltSent, resumeSent, read, held := 0, false, false, 0, None;
      disconnectUntil, tally, out := 0, Tally(0, 0, 0, 0, 0, 0), [];
      slots := [];
      EmptyLedger();
    }

    method Hit(rate: nat) returns (b: bool)
      ensures rate == 0 ==> !b
    {
      b := Rng.Chance();
      b := b && rate > 0;
    }

    /** Inject the halt, or the resume that ends it, ahead of the first packet at or past its time. */
    method Inject(p: Data)
      requires Valid() && disconnectUntil == 0 && |p| >= MOLD_HEADER && FirstMessage(p).Some? && c.haltAtNs > 0
      modifies this
      ensures Valid() && disconnectUntil == 0 && read == old(read) && tally.disconnected == old(tally.disconnected)
      ensures slots == old(slots) + AheadOf(c, old(slots), p)
      ensures Quiet(c) ==> out == old(out)
    {
      hide Ledger, Blocks, Notices, CountSlots, NoticeOf, Field, ParseHeader, FirstMessage;
      LedgerFacts(slots, out, held, tally, disconnectUntil, States());
      var m := FirstMessage(p).value;
      FirstMessageFields(p);
      var ts, locate := Timestamp(m), Field(m, 1, 2);
      assert [] + [Ch('H')] == [Ch('H')] && [Ch('H')] + [Ch('T')] == [Ch('H'), Ch('T')];
      if !haltSent && ts >= c.haltAtNs {
        InjectOne(p, locate, ts, Ch('H'));
        haltSent := true;
      } else if haltSent && !resumeSent && ts >= ResumeAt(c) {
        InjectOne(p, locate, ts, Ch('T'));
        resumeSent := true;
      }
    }

    method InjectOne(p: Data, locate: nat, ts: nat, state: byte)
      requires disconnectUntil == 0 && |p| >= MOLD_HEADER && FirstMessage(p).Some?
      requires locate == Field(FirstMessage(p).value, 1, 2) && ts == Timestamp(FirstMessage(p).value)
      requires Ledger(slots, out, held, tally, disconnectUntil, States())
      modifies `out, `slots, `tally, `seqOffset
      ensures Ledger(slots, out, held, tally, disconnectUntil, States() + [state])
      ensures tally == old(tally).(halted := old(tally.halted) + 1) && seqOffset == old(seqOffset) + 1
      ensures slots == old(slots) + [NoticeOf(p, old(seqOffset), state)]
    {
      hide Ledger, Shifted, ParseHeader;
      FirstMessageFields(p);
      var session := ParseHeader(p).value.session;
      var bytes := ActionPacket(session, Shifted(p, seqOffset), locate, ts, state);
      ghost var s := NoticeOf(p, seqOffset, state);
      LedgerInjected(slots, out, held, tally, States(), s);
      out := out + [bytes];
      slots := slots + [s];
      tally := tally.(halted := tally.halted + 1);
      seqOffset := seqOffset + 1;
    }

    /** One packet: lost in an outage, dropped, held back, or sent, after any notice that is due. */
    method Process(p: Data)
      requires Valid()
      modifies this
      ensures Valid() && read == old(read) + 1
      ensures OneStep(c, old(slots), slots, p)
      ensures Quiet(c) ==> out == old(out) + [p]
    {
      hide Ledger, Blocks, SlotOf, OneStep, Notices, CountSlots;
      LedgerFacts(slots, out, held, tally, disconnectUntil, States());
      var starts := disconnectUntil == 0 && tally.disconnected == 0 && OutageDue(c, p);
      var until := if starts then c.disconnectFor else disconnectUntil;
      if until > 0 {
        Lose(p, until - 1);
        return;
      }
      if c.haltAtNs > 0 && |p| >= MOLD_HEADER && FirstMessage(p).Some? {
        Inject(p);
      }
      ghost var ahead := slots;
      assert ahead == old(slots) + AheadOf(c, old(slots), p);
      LedgerFacts(slots, out, held, tally, disconnectUntil, States());
      ghost var s := Route(p);
      SurvivingStep(c, old(slots), p, s);
    }

    /** A packet goes missing in the outage. */
    method Lose(p: Data, left: nat)
      requires Valid() && Lost(c, tally.disconnected, p) && left == c.disconnectFor - tally.disconnected - 1
      modifies `disconnectUntil, `tally, `read, `slots
      ensures Valid() && read == old(read) + 1
      ensures OneStep(c, old(slots), slots, p) && !Quiet(c)
    {
      hide Ledger, Blocks, Clip, Renumber, ParseHeader, HeaderCount, StartOf, Shifted, Notices, CountSlots, Numbered;
      LedgerFacts(slots, out, held, tally, disconnectUntil, States());
      ghost var s := Slot(StartOf(p, seqOffset), HeaderCount(p), Outage, Numbered(p, seqOffset));
      LedgerOutage(slots, out, held, tally, disconnectUntil, left, States(), s);
      disconnectUntil := left;
      tally := tally.(disconnected := tally.disconnected + 1);
      read := read + 1;
      slots := slots + [s];
      assert slots[..|slots| - 1] == old(slots) + [] && SlotOf(s, p, seqOffset);
    }

    /** The notices injected so far, in order. */
    ghost function States(): seq<byte>
      reads this
    {
      if resumeSent then [Ch('H'), Ch('T')] else if haltSent then [Ch('H')] else []
    }

    /** Renumber, then drop, hold, clip, send and copy, as the draws decide; the end of session is never damaged. */
    method Route(p: Data) returns (ghost s: Slot)
      requires Valid() && disconnectUntil == 0
      modifies `read, `held, `tally, `out, `slots
      ensures Valid() && read == old(read) + 1 && seqOffset == old(seqOffset)
      ensures slots == old(slots) + [s] && SlotOf(s, p, seqOffset) && !s.fate.Outage?
      ensures Quiet(c) ==> out == old(out) + [p]
    {
      hide Ledger, Clip, Renumber, ParseHeader, HeaderCount, StartOf, Shifted;
      var haveHdr := |p| >= MOLD_HEADER;
      var packet := p;
      if seqOffset > 0 && haveHdr {
        packet := Renumber(packet, Shifted(p, seqOffset));
      }
      assert packet == Numbered(p, seqOffset);
      var structural := IsEndOfSession(p);
      ghost var start, count := StartOf(p, seqOffset), HeaderCount(p);
      NumberedLength(p, seqOffset);
      var drop := Hit(c.drop);
      if !structural && drop {
        s := Slot(start, count, Dropped, packet);
        Drop(s);
        return;
      }
      var reorder := Hit(c.reorder);
      if !structural && held.None? && reorder {
        s := Slot(start, count, Held, packet);
        Hold(packet, s);
        return;
      }
      var clip := Hit(c.truncate);
      var cut := !structural && clip && |packet| > MOLD_HEADER + 4;
      if cut { packet := Clip(packet); }
      var copy := Hit(c.duplicate);
      var twice := !structural && copy;
      s := Slot(start, count, Sent(if twice then 2 else 1, cut), packet);
      Send(packet, twice, cut, s);
      SendTwice(old(out), packet, None);
    }

    method Drop(ghost s: Slot)
      requires Valid() && disconnectUntil == 0 && s.fate == Dropped && c.drop > 0
      modifies `read, `tally, `slots
      ensures Valid() && read == old(read) + 1 && slots == old(slots) + [s]
    {
      hide Ledger;
      LedgerDropped(slots, out, held, tally, States(), s);
      tally := tally.(dropped := tally.dropped + 1);
      slots, read := slots + [s], read + 1;
    }

    method Hold(packet: Data, ghost s: Slot)
      requires Valid() && disconnectUntil == 0 && held.None? && s.fate == Held && s.bytes == packet && c.reorder > 0
      modifies `read, `held, `tally, `slots
      ensures Valid() && read == old(read) + 1 && slots == old(slots) + [s]
    {
      hide Ledger;
      LedgerHeld(slots, out, tally, States(), s);
      held := Some(packet);
      tally := tally.(reordered := tally.reordered + 1);
      slots, read := slots + [s], read + 1;
    }

    method Send(packet: Data, twice: bool, cut: bool, ghost s: Slot)
      requires Valid() && disconnectUntil == 0 && s.bytes == packet && s.fate == Sent(if twice then 2 else 1, cut)
      requires (twice ==> c.duplicate > 0) && (cut ==> c.truncate > 0)
      modifies `read, `held, `tally, `out, `slots
      ensures out == old(out) + Copies(packet, if twice then 2 else 1) + Release(old(held)) && held.None?
      ensures Valid() && read == old(read) + 1 && slots == old(slots) + [s]
    {
      hide Ledger, Copies, Release;
      LedgerSent(slots, out, held, tally, States(), s);
      SendTwice(out, packet, held);
      if cut { tally := tally.(truncated := tally.truncated + 1); }
      out := out + [packet];
      if twice {
        out := out + [packet];
        tally := tally.(duped := tally.duped + 1);
      }
      if held.Some? {
        out := out + [held.value];
        held := None;
      }
      slots, read := slots + [s], read + 1;
    }
  }

  predicate IsEndOfSession(p: Data) {
    |p| >= MOLD_HEADER && Field(p, 18, 2) == END_OF_SESSION
  }

  lemma NumberedLength(p: Data, offset: nat)
    ensures |Numbered(p, offset)| == |p|
  {
  }

  lemma SendTwice(out: seq<Data>, p: Data, held: Option<Data>)
    ensures Copies(p, 1) == [p] && Copies(p, 2) == [p, p]
    ensures out + Copies(p, 1) + Release(held) == if held.Some? then out + [p] + [held.value] else out + [p]
    ensures out + Copies(p, 2) + Release(held) == if held.Some? then out + [p] + [p] + [held.value] else out + [p] + [p]
  {
    assert Copies(p, 2) == [p] + [p];
  }

  lemma LedgerFacts(slots: seq<Slot>, out: seq<Data>, held: Option<Data>, t: Tally, until: nat, ns: seq<byte>)
    requires Ledger(slots, out, held, t, until, ns)
    ensures Notices(slots) == ns && CountSlots(slots) == t && OneOrTwoCopies(slots)
  {
  }

  // ---- the whole run ---------------------------------------------------------------------------------------

  lemma TracedStep(c: Config, was: seq<Slot>, now: seq<Slot>, packets: seq<Data>, p: Data)
    requires Traced(c, was, packets) && OneStep(c, was, now, p)
    ensures Traced(c, now, packets + [p])
  {
    hide Notices, NoticeDue, Lost;
    assert (packets + [p])[..|packets|] == packets;
    var ahead := now[..|now| - 1];
    if ahead == was {
      assert was == [] || !was[|was| - 1].fate.Injected?;
    } else {
      assert ahead[..|ahead| - 1] == was && ahead[|ahead| - 1].fate.Injected?;
    }
    assert Before(now) == was;
  }

  /**
   * The slots tile the numbers 1.., each under the header its packet shows, and the next number is the input's
   * next number plus what was injected.
   */
  ghost predicate Numbers(slots: seq<Slot>, packets: seq<Data>) {
    Contiguous(packets) && NextInput(packets) + 2 < UINT64 ==>
      SlotsTile(slots) && AllHeaded(slots) && NextNumber(slots) == NextInput(packets) + |Notices(slots)|
  }

  lemma NoticesAppend(slots: seq<Slot>, s: Slot)
    ensures Notices(slots + [s]) == Notices(slots) + if s.fate.Injected? then [s.fate.state] else []
  {
    assert (slots + [s])[..|slots|] == slots;
  }

  /** One more slot in its place, under its own header. */
  lemma NumberedNext(slots: seq<Slot>, s: Slot)
    requires SlotsTile(slots) && AllHeaded(slots) && s.start == NextNumber(slots) && (!Missing(s) ==> Headed(s))
    ensures SlotsTile(slots + [s]) && AllHeaded(slots + [s]) && NextNumber(slots + [s]) == NextNumber(slots) + s.count
  {
    hide Headed, NextNumber, SlotsTile;
    NextNumberAppend(slots, s);
  }

  lemma SlotIsHeaded(s: Slot, p: Data, offset: nat)
    requires SlotOf(s, p, offset) && |p| >= MOLD_HEADER && !Missing(s)
    ensures Headed(s)
  {
    SlotBytes(s, p, offset);
  }

  lemma NoticeIsHeaded(p: Data, offset: nat, state: byte)
    requires |p| >= MOLD_HEADER && FirstMessage(p).Some?
    ensures Headed(NoticeOf(p, offset, state))
  {
    hide ActionPacket, ParseHeader;
    var m := FirstMessage(p).value;
    FirstMessageFields(p);
    assert Pow256(8) == UINT64;
    ActionPacketCarries(ParseHeader(p).value.session, Shifted(p, offset), Field(m, 1, 2), Timestamp(m), state);
  }

  lemma NumbersStep(c: Config, was: seq<Slot>, now: seq<Slot>, packets: seq<Data>, p: Data)
    requires Numbers(was, packets) && OneStep(c, was, now, p) && |Notices(now)| <= 2
    ensures Numbers(now, packets + [p])
  {
    hide NextNumber, NextInput, SlotsTile, AllHeaded, Contiguous, SlotOf, HeaderCount, NoticeDue, Lost, Headed, Notices;
    ContiguousAppend(packets, p);
    if Contiguous(packets + [p]) && NextInput(packets + [p]) + 2 < UINT64 {
      var s := now[|now| - 1];
      var ahead := now[..|now| - 1];
      assert now == ahead + [s];
      NoticesAppend(ahead, s);
      SlotPlace(s, p, |Notices(ahead)|);
      ShiftedNumber(p, packets, |Notices(ahead)|);
      if ahead == was {
      } else {
        var state := NoticeDue(c, Notices(was), p).value;
        var notice := NoticeOf(p, |Notices(was)|, state);
        assert ahead == was + [notice];
        NoticesAppend(was, notice);
        ShiftedNumber(p, packets, |Notices(was)|);
        NoticeIsHeaded(p, |Notices(was)|, state);
        NumberedNext(was, notice);
      }
      NumberedNext(ahead, s);
    }
  }

  /**
   * The slot holds the input's own messages for its numbers, less the notices ahead: the first of them if it was
   * cut, and otherwise all.
   */
  ghost predicate CarriesItsOwn(s: Slot, input: seq<Data>, offset: nat) {
    && 1 + offset <= s.start && s.start - 1 - offset + s.count <= |input|
    && var own := input[s.start - 1 - offset..s.start - 1 - offset + s.count];
       Carried(s.bytes) <= own && (!Cut(s) ==> Carried(s.bytes) == own)
  }

  /** The slots of the packets that came through, each with the notices ahead of it. */
  ghost predicate AllCarry(slots: seq<Slot>, input: seq<Data>) {
    forall k :: 0 <= k < |slots| && !Missing(slots[k]) && !slots[k].fate.Injected? ==>
      CarriesItsOwn(slots[k], input, |Notices(slots[..k])|)
  }

  ghost predicate Carries(slots: seq<Slot>, packets: seq<Data>) {
    Tiles(packets) && NextInput(packets) + 2 < UINT64 ==> AllCarry(slots, Unpack(packets))
  }

  lemma CarriesStill(s: Slot, input: seq<Data>, more: seq<Data>, offset: nat)
    requires CarriesItsOwn(s, input, offset)
    ensures CarriesItsOwn(s, input + more, offset)
  {
    var a := s.start - 1 - offset;
    assert (input + more)[a..a + s.count] == input[a..a + s.count];
  }

  lemma CarriesNow(s: Slot, packets: seq<Data>, p: Data, offset: nat)
    requires SlotOf(s, p, offset) && !Missing(s) && Tiles(packets + [p])
    requires NextInput(packets) + offset < UINT64
    ensures CarriesItsOwn(s, Unpack(packets + [p]), offset)
  {
    hide Unpack, Carried, SlotOf, ParseHeader, HeaderCount, Tiles, NextInput, StartOf, Shifted;
    UnpackAppend(packets, p);
    TileOf(packets, p);
    ShiftedNumber(p, packets, offset);
    SlotCarries(s, p, offset);
    SlotPlace(s, p, offset);
    TakesTail(Unpack(packets), Carried(p));
  }

  lemma TakesTail(input: seq<Data>, more: seq<Data>)
    ensures (input + more)[|input|..|input| + |more|] == more
  {
  }

  lemma TileOf(packets: seq<Data>, p: Data)
    requires Tiles(packets + [p])
    ensures ParseHeader(p).Some? && |p| >= MOLD_HEADER
    ensures ParseHeader(p).value.sequence == NextInput(packets) == |Unpack(packets)| + 1
    ensures HeaderCount(p) == |Carried(p)|
  {
    UnpackAppend(packets, p);
    TilesAreContiguous(packets);
    hide Unpack, Carried, Tiles, NextInput;
  }

  lemma CarriesStep(c: Config, was: seq<Slot>, now: seq<Slot>, packets: seq<Data>, p: Data)
    requires Carries(was, packets) && OneStep(c, was, now, p) && |Notices(now)| <= 2
    ensures Carries(now, packets + [p])
  {
    hide Unpack, Carried, CarriesItsOwn, SlotOf, NoticeDue, Lost, Notices, HeaderCount, NextInput, Tiles;
    TilesAppend(packets, p);
    if Tiles(packets + [p]) && NextInput(packets + [p]) + 2 < UINT64 {
      UnpackAppend(packets, p);
      var s, ahead := now[|now| - 1], now[..|now| - 1];
      assert now == ahead + [s];
      NoticesAppend(ahead, s);
      forall k | 0 <= k < |now| && !Missing(now[k]) && !now[k].fate.Injected?
        ensures CarriesItsOwn(now[k], Unpack(packets + [p]), |Notices(now[..k])|)
      {
        if k < |was| {
          assert now[k] == was[k] && now[..k] == was[..k];
          CarriesStill(was[k], Unpack(packets), Carried(p), |Notices(was[..k])|);
        } else {
          assert k == |ahead| && now[..k] == ahead;
          CarriesNow(s, packets, p, |Notices(ahead)|);
        }
      }
    }
  }

  lemma TilesAppend(packets: seq<Data>, p: Data)
    ensures Tiles(packets + [p]) ==> Tiles(packets) && NextInput(packets) <= NextInput(packets + [p])
  {
    UnpackAppend(packets, p);
    ContiguousAppend(packets, p);
  }

  /** Every packet of the output is a notice, or a packet of the input that carries its own numbers' messages. */
  ghost predicate Decoded(slots: seq<Slot>, out: seq<Data>, input: seq<Data>) {
    forall p :: p in out ==> DecodedBy(slots, p, input)
  }

  ghost predicate DecodedBy(slots: seq<Slot>, p: Data, input: seq<Data>) {
    exists k :: 0 <= k < |slots| && !Missing(slots[k]) && slots[k].bytes == p
      && (slots[k].fate.Injected? || CarriesItsOwn(slots[k], input, |Notices(slots[..k])|))
  }

  lemma OutputIsDecoded(slots: seq<Slot>, input: seq<Data>)
    requires OneHeldAtATime(slots) && OneOrTwoCopies(slots) && AllCarry(slots, input)
    ensures Decoded(slots, Output(slots), input)
  {
    hide Output, OneHeldAtATime, OneOrTwoCopies, CarriesItsOwn, Notices;
    forall p | p in Output(slots)
      ensures DecodedBy(slots, p, input)
    {
      SurvivorsAreWritten(slots, p);
    }
  }

  lemma SlotPlace(s: Slot, p: Data, offset: nat)
    requires SlotOf(s, p, offset)
    ensures s.start == StartOf(p, offset) && s.count == HeaderCount(p) && !s.fate.Injected?
    ensures |p| >= MOLD_HEADER && !Missing(s) ==> Headed(s)
  {
    if |p| >= MOLD_HEADER && !Missing(s) { SlotIsHeaded(s, p, offset); }
  }

  lemma ShiftedNumber(p: Data, packets: seq<Data>, offset: nat)
    requires ParseHeader(p).Some? && ParseHeader(p).value.sequence == NextInput(packets)
    requires NextInput(packets) + offset < UINT64
    ensures |p| >= MOLD_HEADER && StartOf(p, offset) == Shifted(p, offset) == NextInput(packets) + offset
  {
  }

  /** One number of the output: in one packet and its copies, or in none when the slot it belongs to is missing. */
  ghost predicate AccountedAt(slots: seq<Slot>, out: seq<Data>, x: nat) {
    exists k :: 0 <= k < |slots| && OnlyIn(slots, k, x) && WrittenFor(slots[k], out, x)
  }

  predicate OnlyIn(slots: seq<Slot>, k: nat, x: nat) {
    forall j :: 0 <= j < |slots| ==> (Covers(slots[j], x) <==> j == k)
  }

  predicate WrittenFor(s: Slot, out: seq<Data>, x: nat) {
    && ((exists p :: p in out && Holds(p, x)) <==> !Missing(s))
    && forall p :: p in out && Holds(p, x) ==> p == s.bytes
  }

  /** The numbers of the output, from 1 up to `next`: all of them accounted for, and no other ever claimed. */
  ghost predicate Accounted(slots: seq<Slot>, out: seq<Data>, next: nat) {
    && (forall x: nat :: 1 <= x < next ==> AccountedAt(slots, out, x))
    && (forall p, x: nat :: p in out && Holds(p, x) ==> 1 <= x < next)
  }

  lemma OutputIsAccounted(slots: seq<Slot>)
    requires SlotsTile(slots) && OneHeldAtATime(slots) && OneOrTwoCopies(slots) && AllHeaded(slots)
    ensures Accounted(slots, Output(slots), NextNumber(slots))
  {
    hide Output, OneHeldAtATime, OneOrTwoCopies, SlotsTile, NextNumber, AllHeaded, Holds, Covers, AccountedAt;
    forall p, x: nat | p in Output(slots) && Holds(p, x)
      ensures 1 <= x < NextNumber(slots)
    {
      NothingElseIsClaimed(slots, p, x);
    }
    forall x: nat | 1 <= x < NextNumber(slots)
      ensures AccountedAt(slots, Output(slots), x)
    {
      NumberIsAccounted(slots, x);
    }
  }

  lemma NumberIsAccounted(slots: seq<Slot>, x: nat)
    requires SlotsTile(slots) && OneHeldAtATime(slots) && OneOrTwoCopies(slots) && AllHeaded(slots)
    requires 1 <= x < NextNumber(slots)
    ensures AccountedAt(slots, Output(slots), x)
  {
    hide Output, OneHeldAtATime, OneOrTwoCopies, SlotsTile, NextNumber, AllHeaded, Holds, Covers;
    var k := NumbersArePartitioned(slots, x);
    assert OnlyIn(slots, k, x) && WrittenFor(slots[k], Output(slots), x);
  }

  // ---- when the outage and the notices fall -----------------------------------------------------------

  /** How many of the slots are packets of the input. */
  function Inputs(slots: seq<Slot>): nat {
    if slots == [] then 0
    else Inputs(slots[..|slots| - 1]) + if slots[|slots| - 1].fate.Injected? then 0 else 1
  }

  lemma InputsAppend(slots: seq<Slot>, s: Slot)
    ensures Inputs(slots + [s]) == Inputs(slots) + if s.fate.Injected? then 0 else 1
    ensures CountSlots(slots + [s]).disconnected == CountSlots(slots).disconnected + if s.fate.Outage? then 1 else 0
  {
    assert (slots + [s])[..|slots|] == slots;
  }

  /** The first message a receiver decodes of the packet has a timestamp at or past the mark. */
  predicate StampedFrom(p: Data, mark: nat) {
    Carried(p) != [] && |Carried(p)[0]| >= 11 && Field(Carried(p)[0], 5, 6) >= mark
  }

  /** The packet is at or past one of the marks given for an outage, by its number or by its time. */
  predicate PastMark(c: Config, p: Data) {
    || (ParseHeader(p).Some? && 0 < c.disconnectAt <= ParseHeader(p).value.sequence)
    || (c.disconnectAtNs > 0 && StampedFrom(p, c.disconnectAtNs))
  }

  /** Packet `first` is the first past a mark, or there is none and it is the end of the input. */
  predicate StartsOutage(c: Config, packets: seq<Data>, first: nat) {
    && first <= |packets|
    && (forall i :: 0 <= i < first ==> !PastMark(c, packets[i]))
    && (first < |packets| ==> PastMark(c, packets[first]))
  }

  predicate InOutage(c: Config, first: nat, i: nat) {
    first <= i < first + c.disconnectFor
  }

  /** The packets lost are the ones from the first past a mark, as many as were asked for. */
  predicate OutageFalls(c: Config, slots: seq<Slot>, first: nat) {
    forall j :: 0 <= j < |slots| && !slots[j].fate.Injected? ==>
      (slots[j].fate.Outage? <==> InOutage(c, first, Inputs(slots[..j])))
  }

  /** Packet x is the first from `from` on that is not lost and stamped at or past the mark, or the end of the input. */
  predicate FirstStamped(c: Config, packets: seq<Data>, first: nat, from: nat, mark: nat, x: nat) {
    && x <= |packets|
    && (forall i :: from <= i < x && !InOutage(c, first, i) ==> !StampedFrom(packets[i], mark))
    && (x < |packets| ==> from <= x && !InOutage(c, first, x) && StampedFrom(packets[x], mark))
  }

  /**
   * Ahead of which packets the halt and the resume go: the first packet that gets through at or past the mark, and
   * the first one behind it at or past the end of the halt, a sum of two 64-bit words cut to one.
   */
  predicate NoticesAt(c: Config, packets: seq<Data>, first: nat, halt: nat, resume: nat) {
    if c.haltAtNs == 0 then halt == resume == |packets|
    else
      && FirstStamped(c, packets, first, 0, c.haltAtNs, halt)
      && FirstStamped(c, packets, first, halt + 1, (c.haltAtNs + c.haltForNs) % UINT64, resume)
  }

  /** The slot is a trading action, the packet's session, and the locate and the time of its first message. */
  predicate Announces(s: Slot, p: Data, state: byte) {
    && s.fate == Injected(state) && Carried(p) != [] && |Carried(p)[0]| >= 11 && ParseHeader(p).Some?
    && var m := Carried(p)[0];
       var action := Message(Field(m, 1, 2), Field(m, 5, 6), TradingAction(BLANK8, state, BLANK4));
       && Encodable(action) && Carried(s.bytes) == [Encode(action)]
       && ParseHeader(s.bytes).Some? && ParseHeader(s.bytes).value.session == ParseHeader(p).value.session
  }

  /** Right ahead of a packet's slot stands the notice that goes ahead of it, if any. */
  predicate NoticeAhead(slots: seq<Slot>, packets: seq<Data>, halt: nat, resume: nat, j: nat)
    requires j < |slots|
  {
    var i := Inputs(slots[..j]);
    if slots[j].fate.Injected? then j + 1 < |slots| && !slots[j + 1].fate.Injected?
    else if i < |packets| && i == halt then j > 0 && Announces(slots[j - 1], packets[i], Ch('H'))
    else if i < |packets| && i == resume then j > 0 && Announces(slots[j - 1], packets[i], Ch('T'))
    else i < |packets| && (j > 0 ==> !slots[j - 1].fate.Injected?)
  }

  /** The whole run, from the input alone: which packets are lost, and where the notices go. */
  predicate Scheduled(c: Config, slots: seq<Slot>, packets: seq<Data>, first: nat, halt: nat, resume: nat) {
    && StartsOutage(c, packets, first) && OutageFalls(c, slots, first)
    && NoticesAt(c, packets, first, halt, resume)
    && forall j :: 0 <= j < |slots| ==> NoticeAhead(slots, packets, halt, resume, j)
  }

  lemma StampedIff(p: Data, mark: nat)
    ensures StampedFrom(p, mark) <==>
      |p| >= MOLD_HEADER && FirstMessage(p).Some? && Timestamp(FirstMessage(p).value) >= mark
  {
    hide Blocks;
  }

  lemma NoticeAnnounces(p: Data, offset: nat, state: byte)
    requires |p| >= MOLD_HEADER && FirstMessage(p).Some?
    ensures Announces(NoticeOf(p, offset, state), p, state)
  {
    hide ActionPacket, Blocks, Encode;
    var m := FirstMessage(p).value;
    FirstMessageFields(p);
    assert Pow256(8) == UINT64;
    ActionPacketCarries(ParseHeader(p).value.session, Shifted(p, offset), Field(m, 1, 2), Timestamp(m), state);
  }

  /** How far the schedule has come: the packets read, those lost, and the notices sent. */
  ghost predicate OnSchedule(c: Config, slots: seq<Slot>, packets: seq<Data>, first: nat, halt: nat, resume: nat) {
    && Scheduled(c, slots, packets, first, halt, resume)
    && Inputs(slots) == |packets|
    && CountSlots(slots).disconnected == LostBy(c, first, |packets|)
    && Notices(slots) == NoticesBy(|packets|, halt, resume)
  }

  function LostBy(c: Config, first: nat, n: nat): nat {
    if n <= first then 0 else if n - first < c.disconnectFor then n - first else c.disconnectFor
  }

  function NoticesBy(n: nat, halt: nat, resume: nat): seq<byte> {
    if n <= halt then [] else if n <= resume then [Ch('H')] else [Ch('H'), Ch('T')]
  }

  /** The next packet is lost exactly when the outage, whose start it may be, has it. */
  lemma LostIff(c: Config, packets: seq<Data>, p: Data, first: nat) returns (now: nat)
    requires StartsOutage(c, packets, first)
    ensures StartsOutage(c, packets + [p], now)
    ensures if first < |packets| then now == first else now >= |packets|
    ensures Lost(c, LostBy(c, first, |packets|), p) <==> InOutage(c, now, |packets|)
    ensures LostBy(c, now, |packets| + 1)
      == LostBy(c, first, |packets|) + if InOutage(c, now, |packets|) then 1 else 0
  {
    hide StampedFrom, FirstMessage;
    StampedIff(p, c.disconnectAtNs);
    now := if first < |packets| || PastMark(c, p) then first else |packets| + 1;
  }

  /** The first packet stamped past a mark stays so, and the next packet is it when none was before. */
  lemma FirstStampedNext(c: Config, packets: seq<Data>, p: Data, first: nat, now: nat, from: nat, mark: nat, x: nat)
    returns (x': nat)
    requires FirstStamped(c, packets, first, from, mark, x)
    requires first < |packets| ==> now == first
    requires first >= |packets| ==> now >= |packets|
    ensures FirstStamped(c, packets + [p], now, from, mark, x')
    ensures if x < |packets| then x' == x
      else if from <= |packets| && !InOutage(c, now, |packets|) && StampedFrom(p, mark) then x' == |packets|
      else x' == |packets| + 1
  {
    hide StampedFrom;
    x' := if x < |packets| || (from <= |packets| && !InOutage(c, now, |packets|) && StampedFrom(p, mark)) then x
          else |packets| + 1;
  }

  /** Where the notices go, once the next packet is known, and what goes ahead of that packet. */
  lemma NoticesNext(
      c: Config, was: seq<Slot>, packets: seq<Data>, p: Data, first: nat, now: nat, halt: nat, resume: nat)
    returns (halt': nat, resume': nat)
    requires NoticesAt(c, packets, first, halt, resume) && Notices(was) == NoticesBy(|packets|, halt, resume)
    requires first < |packets| ==> now == first
    requires first >= |packets| ==> now >= |packets|
    ensures NoticesAt(c, packets + [p], now, halt', resume')
    ensures if halt < |packets| then halt' == halt else halt' >= |packets|
    ensures if resume < |packets| then resume' == resume else resume' >= |packets|
    ensures halt' == |packets| ==> resume' > |packets|
    ensures NoticeDue(c, Notices(was), p) == (
      if halt' == |packets| then Some(Ch('H'))
      else if resume' == |packets| then Some(Ch('T'))
      else if InOutage(c, now, |packets|) then NoticeDue(c, Notices(was), p) else None)
    ensures halt' == |packets| || resume' == |packets| ==> !InOutage(c, now, |packets|)
  {
    hide StampedFrom, FirstMessage, Notices, InOutage;
    var n := |packets|;
    StampedIff(p, c.haltAtNs);
    StampedIff(p, ResumeAt(c));
    if c.haltAtNs == 0 { return n + 1, n + 1; }
    halt' := FirstStampedNext(c, packets, p, first, now, 0, c.haltAtNs, halt);
    assert FirstStamped(c, packets, first, halt' + 1, ResumeAt(c), resume);
    resume' := FirstStampedNext(c, packets, p, first, now, halt' + 1, ResumeAt(c), resume);
  }

  /** What was said about the slots so far stays so. */
  lemma StillScheduled(
      c: Config, was: seq<Slot>, now: seq<Slot>, packets: seq<Data>, p: Data,
      first: nat, first': nat, halt: nat, halt': nat, resume: nat, resume': nat, j: nat)
    requires j < |was| < |now| && now[..|was|] == was
    requires NoticeAhead(was, packets, halt, resume, j)
    requires !was[j].fate.Injected? ==> (was[j].fate.Outage? <==> InOutage(c, first, Inputs(was[..j])))
    requires if first < |packets| then first' == first else first' >= |packets|
    requires if halt < |packets| then halt' == halt else halt' >= |packets|
    requires if resume < |packets| then resume' == resume else resume' >= |packets|
    ensures NoticeAhead(now, packets + [p], halt', resume', j)
    ensures !now[j].fate.Injected? ==> (now[j].fate.Outage? <==> InOutage(c, first', Inputs(now[..j])))
  {
    hide Announces, Inputs;
    assert now[..j] == was[..j] && now[j] == was[j];
  }

  /** The next packet's slot, with nothing ahead of it. */
  lemma AloneScheduled(was: seq<Slot>, s: Slot, packets: seq<Data>, p: Data, halt: nat, resume: nat)
    requires Inputs(was) == |packets| && halt != |packets| && resume != |packets| && !s.fate.Injected?
    requires was != [] ==> !was[|was| - 1].fate.Injected?
    ensures NoticeAhead(was + [s], packets + [p], halt, resume, |was|)
  {
    hide Announces, Inputs;
    assert (was + [s])[..|was|] == was;
  }

  /** The next packet's slot behind its notice. */
  lemma NoticedScheduled(
      was: seq<Slot>, notice: Slot, s: Slot, packets: seq<Data>, p: Data, halt: nat, resume: nat, state: byte)
    requires Inputs(was) == |packets| && !s.fate.Injected? && Announces(notice, p, state)
    requires if halt == |packets| then state == Ch('H') else resume == |packets| && state == Ch('T')
    ensures var now := was + [notice] + [s];
      && NoticeAhead(now, packets + [p], halt, resume, |was|)
      && NoticeAhead(now, packets + [p], halt, resume, |was| + 1)
      && now[..|was|] == was && now[..|was| + 1] == was + [notice]
  {
    var now := was + [notice] + [s];
    assert now[..|was|] == was && now[..|was| + 1] == was + [notice];
    InputsAppend(was, notice);
    hide Announces, Inputs;
  }

  /** What a step adds: the packet's slot, and a notice ahead of it when one is due and the packet is not lost. */
  lemma StepShape(c: Config, was: seq<Slot>, now: seq<Slot>, p: Data)
    requires OneStep(c, was, now, p)
    ensures now != [] && var s := now[|now| - 1];
      && !s.fate.Injected? && (s.fate.Outage? <==> Lost(c, CountSlots(was).disconnected, p))
      && now == (if s.fate.Outage? || NoticeDue(c, Notices(was), p).None? then was
                 else was + [NoticeOf(p, |Notices(was)|, NoticeDue(c, Notices(was), p).value)]) + [s]
  {
    hide Notices, NoticeDue, Lost, NoticeOf, CountSlots, StartOf, HeaderCount, Clip, Numbered, IsEndOfSession;
    assert now == now[..|now| - 1] + [now[|now| - 1]];
    assert was + [] == was;
  }

  /** What one more packet's slot, with any notice ahead of it, adds to the schedule. */
  ghost predicate Adds(
      c: Config, was: seq<Slot>, now: seq<Slot>, packets: seq<Data>, p: Data, first: nat, halt: nat, resume: nat) {
    var n := |packets|;
    && |was| < |now| && now[..|was|] == was && Inputs(now) == n + 1 && Inputs(now[..|now| - 1]) == n
    && CountSlots(now).disconnected == CountSlots(was).disconnected + (if InOutage(c, first, n) then 1 else 0)
    && Notices(now) == Notices(was) + (if halt == n then [Ch('H')] else if resume == n then [Ch('T')] else [])
    && (|now| == |was| + 1
        || (|now| == |was| + 2 && now[|was|].fate.Injected? && NoticeAhead(now, packets + [p], halt, resume, |was|)))
    && NoticeAhead(now, packets + [p], halt, resume, |now| - 1)
    && (now[|now| - 1].fate.Outage? <==> InOutage(c, first, n))
  }

  lemma AddsAlone(
      c: Config, was: seq<Slot>, s: Slot, packets: seq<Data>, p: Data, first: nat, halt: nat, resume: nat)
    requires Inputs(was) == |packets| && halt != |packets| && resume != |packets| && !s.fate.Injected?
    requires was != [] ==> !was[|was| - 1].fate.Injected?
    requires s.fate.Outage? <==> InOutage(c, first, |packets|)
    ensures Adds(c, was, was + [s], packets, p, first, halt, resume)
  {
    hide Announces, Inputs, InOutage, Notices, CountSlots, NoticeAhead;
    AloneScheduled(was, s, packets, p, halt, resume);
    OneMore(was, s);
  }

  lemma OneMore(was: seq<Slot>, s: Slot)
    requires !s.fate.Injected?
    ensures var now := was + [s];
      && now[..|now| - 1] == was && Inputs(now) == Inputs(was) + 1 && Notices(now) == Notices(was) + []
      && CountSlots(now).disconnected == CountSlots(was).disconnected + if s.fate.Outage? then 1 else 0
  {
    hide Inputs, Notices, CountSlots;
    InputsAppend(was, s);
    NoticesAppend(was, s);
    assert (was + [s])[..|was|] == was;
  }

  lemma AddsNoticed(
      c: Config, was: seq<Slot>, notice: Slot, s: Slot, packets: seq<Data>, p: Data,
      first: nat, halt: nat, resume: nat, state: byte)
    requires Inputs(was) == |packets| && !s.fate.Injected? && !s.fate.Outage? && !InOutage(c, first, |packets|)
    requires Announces(notice, p, state) && notice.fate == Injected(state)
    requires if halt == |packets| then state == Ch('H') else resume == |packets| && state == Ch('T')
    ensures Adds(c, was, was + [notice] + [s], packets, p, first, halt, resume)
  {
    hide Announces, Inputs, InOutage, Notices, CountSlots, NoticeAhead;
    NoticedScheduled(was, notice, s, packets, p, halt, resume, state);
    TwoMore(was, notice, s);
  }

  lemma TwoMore(was: seq<Slot>, notice: Slot, s: Slot)
    requires notice.fate.Injected? && !s.fate.Injected? && !s.fate.Outage?
    ensures var now := was + [notice] + [s];
      && now[..|now| - 1] == was + [notice] && Inputs(was + [notice]) == Inputs(was) && Inputs(now) == Inputs(was) + 1
      && CountSlots(now).disconnected == CountSlots(was).disconnected
      && Notices(now) == Notices(was) + [notice.fate.state]
  {
    hide Inputs, Notices, CountSlots;
    InputsAppend(was, notice);
    NoticesAppend(was, notice);
    InputsAppend(was + [notice], s);
    NoticesAppend(was + [notice], s);
    assert (was + [notice] + [s])[..|was| + 1] == was + [notice];
  }

  /** The next packet's own slot, and the notice ahead of it. */
  lemma NextScheduled(
      c: Config, was: seq<Slot>, now: seq<Slot>, packets: seq<Data>, p: Data, first: nat, halt: nat, resume: nat)
    requires OneStep(c, was, now, p) && Inputs(was) == |packets| && (halt == |packets| ==> resume != |packets|)
    requires was != [] ==> !was[|was| - 1].fate.Injected?
    requires Lost(c, CountSlots(was).disconnected, p) <==> InOutage(c, first, |packets|)
    requires halt == |packets| || resume == |packets| ==> !InOutage(c, first, |packets|)
    requires InOutage(c, first, |packets|) || NoticeDue(c, Notices(was), p)
      == (if halt == |packets| then Some(Ch('H')) else if resume == |packets| then Some(Ch('T')) else None)
    ensures Adds(c, was, now, packets, p, first, halt, resume)
  {
    StepShape(c, was, now, p);
    hide *;
    var s := now[|now| - 1];
    if s.fate.Outage? || NoticeDue(c, Notices(was), p).None? {
      AddsAlone(c, was, s, packets, p, first, halt, resume);
    } else {
      var state := NoticeDue(c, Notices(was), p).value;
      NoticeAnnounces(p, |Notices(was)|, state);
      AddsNoticed(c, was, NoticeOf(p, |Notices(was)|, state), s, packets, p, first, halt, resume, state);
    }
  }

  lemma LastIsPacket(slots: seq<Slot>, packets: seq<Data>, halt: nat, resume: nat)
    requires slots != [] && NoticeAhead(slots, packets, halt, resume, |slots| - 1)
    ensures !slots[|slots| - 1].fate.Injected?
  {
  }

  /** One packet more, and the schedule is that of the longer input. */
  lemma OnScheduleStep(
      c: Config, was: seq<Slot>, now: seq<Slot>, packets: seq<Data>, p: Data, first: nat, halt: nat, resume: nat)
    returns (first': nat, halt': nat, resume': nat)
    requires OnSchedule(c, was, packets, first, halt, resume) && OneStep(c, was, now, p)
    ensures OnSchedule(c, now, packets + [p], first', halt', resume')
  {
    hide Announces, Inputs, InOutage, Notices, NoticeDue, Lost, OneStep, CountSlots, StartsOutage, NoticesAt, Adds;
    hide NoticeAhead;
    first' := LostIff(c, packets, p, first);
    halt', resume' := NoticesNext(c, was, packets, p, first, first', halt, resume);
    if was != [] { LastIsPacket(was, packets, halt, resume); }
    NextScheduled(c, was, now, packets, p, first', halt', resume');
    Added(c, was, now, packets, p, first, first', halt, halt', resume, resume');
  }

  lemma NoticesByNext(n: nat, halt: nat, halt': nat, resume: nat, resume': nat)
    requires if halt < n then halt' == halt else halt' >= n
    requires if resume < n then resume' == resume else resume' >= n
    requires halt' == n ==> resume' > n
    requires halt >= n ==> resume >= n
    requires halt' > n ==> resume' > n
    ensures NoticesBy(n + 1, halt', resume')
      == NoticesBy(n, halt, resume) + if halt' == n then [Ch('H')] else if resume' == n then [Ch('T')] else []
  {
    assert [Ch('H')] + [Ch('T')] == [Ch('H'), Ch('T')];
  }

  lemma ResumeIsLater(c: Config, packets: seq<Data>, first: nat, halt: nat, resume: nat)
    requires NoticesAt(c, packets, first, halt, resume)
    ensures halt <= |packets| && resume <= |packets| && (resume < |packets| ==> halt < resume)
  {
  }

  /** What one more packet adds, and what was said before it, make the longer schedule. */
  lemma Added(
      c: Config, was: seq<Slot>, now: seq<Slot>, packets: seq<Data>, p: Data,
      first: nat, first': nat, halt: nat, halt': nat, resume: nat, resume': nat)
    requires OnSchedule(c, was, packets, first, halt, resume)
    requires Adds(c, was, now, packets, p, first', halt', resume')
    requires StartsOutage(c, packets + [p], first') && NoticesAt(c, packets + [p], first', halt', resume')
    requires LostBy(c, first', |packets| + 1)
      == LostBy(c, first, |packets|) + if InOutage(c, first', |packets|) then 1 else 0
    requires if first < |packets| then first' == first else first' >= |packets|
    requires if halt < |packets| then halt' == halt else halt' >= |packets|
    requires if resume < |packets| then resume' == resume else resume' >= |packets|
    requires halt' == |packets| ==> resume' > |packets|
    ensures OnSchedule(c, now, packets + [p], first', halt', resume')
  {
    hide Announces, Inputs, InOutage, Notices, CountSlots, StartsOutage, NoticesAt, NoticeAhead, LostBy, NoticesBy;
    ResumeIsLater(c, packets, first, halt, resume);
    ResumeIsLater(c, packets + [p], first', halt', resume');
    NoticesByNext(|packets|, halt, halt', resume, resume');
    forall j | 0 <= j < |now|
      ensures NoticeAhead(now, packets + [p], halt', resume', j)
      ensures !now[j].fate.Injected? ==> (now[j].fate.Outage? <==> InOutage(c, first', Inputs(now[..j])))
    {
      if j < |was| {
        StillScheduled(c, was, now, packets, p, first, first', halt, halt', resume, resume', j);
      }
    }
  }

  lemma NothingScheduled(c: Config)
    ensures OnSchedule(c, [], [], 0, 0, 0)
  {
  }

  /** Every run is on its schedule, which the input alone decides. */
  lemma {:induction false} RunIsScheduled(c: Config, slots: seq<Slot>, packets: seq<Data>)
    returns (first: nat, halt: nat, resume: nat)
    requires Traced(c, slots, packets)
    ensures OnSchedule(c, slots, packets, first, halt, resume)
    decreases |packets|
  {
    hide OnSchedule, OneStep;
    if packets == [] {
      NothingScheduled(c);
      return 0, 0, 0;
    }
    var init, p := packets[..|packets| - 1], packets[|packets| - 1];
    first, halt, resume := RunIsScheduled(c, Before(slots), init);
    first, halt, resume := OnScheduleStep(c, Before(slots), slots, init, p, first, halt, resume);
    assert init + [p] == packets;
  }

  lemma TracedIsScheduled(c: Config, slots: seq<Slot>, packets: seq<Data>)
    requires Traced(c, slots, packets)
    ensures exists first: nat, halt: nat, resume: nat :: Scheduled(c, slots, packets, first, halt, resume)
  {
    hide Scheduled;
    var first, halt, resume := RunIsScheduled(c, slots, packets);
  }

  /**
   * Damage a whole file. Every packet's fate is recorded in one slot; the output is those slots delivered in
   * order, the counters are their counts, one outage is one run, notices are a halt and then its resume, and on
   * contiguous input the slots partition the output numbers.
   */
  method Damage(packets: seq<Data>, c: Config) returns (out: seq<Data>, tally: Tally, ghost slots: seq<Slot>)
    ensures out == Output(slots) && Traced(c, slots, packets)
    ensures OneHeldAtATime(slots) && OneOutage(slots) && OneOrTwoCopies(slots)
    ensures Notices(slots) == [] || Notices(slots) == [Ch('H')] || Notices(slots) == [Ch('H'), Ch('T')]
    ensures tally == CountSlots(slots)
    ensures |out| == |packets| - tally.dropped - tally.disconnected + tally.duped + tally.halted
    ensures exists first: nat, halt: nat, resume: nat :: Scheduled(c, slots, packets, first, halt, resume)
    ensures WithinConfig(c, tally) && (Quiet(c) ==> out == packets)
    ensures tally.truncated == 0 <==> NoneCut(slots)
    ensures Contiguous(packets) && NextInput(packets) + 2 < UINT64 ==>
      SlotsTile(slots) && NextNumber(slots) == NextInput(packets) + tally.halted
      && Accounted(slots, out, NextInput(packets) + tally.halted)
    ensures Tiles(packets) && NextInput(packets) + 2 < UINT64 ==> Decoded(slots, out, Unpack(packets))
  {
    hide Decoded, AllCarry, Tiles, Unpack, Carries, NoneCut;
    hide Ledger, Numbers, Traced, OneStep, Accounted, Contiguous, NextInput, SlotsTile, NextNumber, Output, Quiet;
    hide OneHeldAtATime, OneOrTwoCopies, OneOutage, CountSlots, WithinConfig, Notices, OnSchedule, Scheduled;
    var d := new Damager(c);
    StartOfRun(c);
    for k := 0 to |packets|
      invariant d.Valid() && d.read == k && fresh(d)
      invariant Traced(c, d.slots, packets[..k])
      invariant Numbers(d.slots, packets[..k]) && Carries(d.slots, packets[..k])
      invariant d.c == c && (Quiet(c) ==> d.out == packets[..k])
    {
      ghost var was := d.slots;
      d.Process(packets[k]);
      LedgerFacts(d.slots, d.out, d.held, d.tally, d.disconnectUntil, d.States());
      TracedStep(c, was, d.slots, packets[..k], packets[k]);
      NumbersStep(c, was, d.slots, packets[..k], packets[k]);
      CarriesStep(c, was, d.slots, packets[..k], packets[k]);
      assert packets[..k + 1] == packets[..k] + [packets[k]];
    }
    assert packets[..|packets|] == packets;
    out, tally, slots := d.out, d.tally, d.slots;
    EndOfRun(d, packets);
    EndOfNumbers(slots, packets);
    CutsAreCounted(slots);
    TracedIsScheduled(c, slots, packets);
    if d.held.Some? {
      out := out + [d.held.value];
    }
  }

  lemma StartOfRun(c: Config)
    ensures Traced(c, [], []) && Numbers([], []) && Carries([], [])
  {
  }

  lemma EndOfRun(d: Damager, packets: seq<Data>)
    requires d.Valid() && d.read == |packets|
    ensures var out := if d.held.Some? then d.out + [d.held.value] else d.out;
      && out == Output(d.slots)
      && |out| == |packets| - d.tally.dropped - d.tally.disconnected + d.tally.duped + d.tally.halted
    ensures OneHeldAtATime(d.slots) && OneOutage(d.slots) && OneOrTwoCopies(d.slots) && d.tally == CountSlots(d.slots)
    ensures WithinConfig(d.c, d.tally) && (Quiet(d.c) ==> d.held.None?)
    ensures Notices(d.slots) == [] || Notices(d.slots) == [Ch('H')] || Notices(d.slots) == [Ch('H'), Ch('T')]
    ensures |Notices(d.slots)| == d.tally.halted
  {
    PacketsConserved(d.slots, d.read);
  }

  /** What the numbers say, once the run is over. */
  lemma EndOfNumbers(slots: seq<Slot>, packets: seq<Data>)
    requires OneHeldAtATime(slots) && OneOrTwoCopies(slots) && Numbers(slots, packets) && Carries(slots, packets)
    ensures Contiguous(packets) && NextInput(packets) + 2 < UINT64 ==>
      SlotsTile(slots) && NextNumber(slots) == NextInput(packets) + |Notices(slots)|
      && Accounted(slots, Output(slots), NextInput(packets) + |Notices(slots)|)
    ensures Tiles(packets) && NextInput(packets) + 2 < UINT64 ==> Decoded(slots, Output(slots), Unpack(packets))
  {
    hide Accounted, SlotsTile, AllHeaded, NextNumber, Contiguous, NextInput, Decoded, AllCarry, Tiles, Unpack;
    hide OneHeldAtATime, OneOrTwoCopies, Output, Notices;
    if Contiguous(packets) && NextInput(packets) + 2 < UINT64 {
      OutputIsAccounted(slots);
    }
    if Tiles(packets) && NextInput(packets) + 2 < UINT64 {
      OutputIsDecoded(slots, Unpack(packets));
    }
  }
}
