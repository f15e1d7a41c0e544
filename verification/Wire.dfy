/** The 20-byte Arbor header: the host and router codec of wire/arbor_wire.h, which
    edits a buffer in place, and the separate codec of reference/arbor-wire.h. */
module Wire {

  type Byte = bv8

  const HEADER_LENGTH: nat := 20
  const MAX_DEPTH: nat := 3
  const UNUSED: bv16 := 0xFFFF

  datatype Header = Header(
    kind: Byte,
    repair: bool,
    op: Byte,
    messageId: Byte,
    payloadValid: bool,
    payloadKind: Byte,
    creditValid: bool,
    depth: Byte,
    aggregated: bool,
    offsetA: bv32,
    offsetB: bv32,
    loc0: bv16,
    loc1: bv16,
    loc2: bv16,
    fanin0: Byte,
    fanin1: Byte,
    fanin2: Byte,
    dtype: Byte)

  const DATA: Byte := 0
  const AGG_MISS: Byte := 6

  // ------------------------------------------------------------ packed bytes

  function Flag(b: bool): Byte {
    if b then 1 else 0
  }

  /** arbor_make_byte0: version 2, packet type, repair, operation. */
  function MakeByte0(kind: Byte, repair: bool, op: Byte): Byte {
    (2 << 6) | ((kind & 7) << 3) | (Flag(repair) << 2) | (op & 3)
  }

  /** arbor_make_ctrl. */
  function MakeCtrl(payloadValid: bool, payloadKind: Byte, creditValid: bool, depth: Byte, aggregated: bool): Byte {
    (Flag(payloadValid) << 7) | ((payloadKind & 3) << 5) | (Flag(creditValid) << 4) | ((depth & 3) << 1)
        | Flag(aggregated)
  }

  function KindOf(byte0: Byte): Byte { (byte0 >> 3) & 7 }
  function RepairOf(byte0: Byte): bool { (byte0 >> 2) & 1 != 0 }
  function OpOf(byte0: Byte): Byte { byte0 & 3 }
  function PayloadValidOf(ctrl: Byte): bool { (ctrl >> 7) & 1 != 0 }
  function PayloadKindOf(ctrl: Byte): Byte { (ctrl >> 5) & 3 }
  function CreditValidOf(ctrl: Byte): bool { (ctrl >> 4) & 1 != 0 }
  function DepthOf(ctrl: Byte): Byte { (ctrl >> 1) & 3 }
  function AggregatedOf(ctrl: Byte): bool { ctrl & 1 != 0 }

  function SetKind(byte0: Byte, kind: Byte): Byte { (byte0 & 0xC7) | ((kind & 7) << 3) }
  function SetRepair(byte0: Byte, repair: bool): Byte { (byte0 & 0xFB) | (Flag(repair) << 2) }
  function SetDepth(ctrl: Byte, depth: Byte): Byte { (ctrl & 0xF9) | ((depth & 3) << 1) }
  function SetAggregated(ctrl: Byte, aggregated: bool): Byte { (ctrl & 0xFE) | Flag(aggregated) }

  function High24(v: bv32): Byte { ((v >> 16) & 0xFF) as bv8 }
  function Mid24(v: bv32): Byte { ((v >> 8) & 0xFF) as bv8 }
  function Low24(v: bv32): Byte { (v & 0xFF) as bv8 }

  function Join24(a: Byte, b: Byte, c: Byte): bv32 {
    ((a as bv32) << 16) | ((b as bv32) << 8) | (c as bv32)
  }

  function High16(v: bv16): Byte { (v >> 8) as bv8 }
  function Low16(v: bv16): Byte { (v & 0xFF) as bv8 }

  function Join16(a: Byte, b: Byte): bv16 {
    ((a as bv16) << 8) | (b as bv16)
  }

  function Bits2(x: Byte): Byte { x & 3 }
  function Bits3(x: Byte): Byte { x & 7 }
  function Bits24(v: bv32): bv32 { v & 0xFF_FFFF }

  lemma Byte0Fields(kind: Byte, repair: bool, op: Byte)
    ensures var b := MakeByte0(kind, repair, op);
            KindOf(b) == Bits3(kind) && RepairOf(b) == repair && OpOf(b) == Bits2(op) && b >> 6 == 2
  {
  }

  lemma CtrlFields(payloadValid: bool, payloadKind: Byte, creditValid: bool, depth: Byte, aggregated: bool)
    ensures var c := MakeCtrl(payloadValid, payloadKind, creditValid, depth, aggregated);
            && PayloadValidOf(c) == payloadValid && PayloadKindOf(c) == Bits2(payloadKind)
               && CreditValidOf(c) == creditValid
            && DepthOf(c) == Bits2(depth) && AggregatedOf(c) == aggregated && c & 8 == 0
  {
  }

  lemma Byte0Rebuilt(b: Byte)
    ensures MakeByte0(KindOf(b), RepairOf(b), OpOf(b)) == b <==> b >> 6 == 2
  {
  }

  lemma CtrlRebuilt(c: Byte)
    ensures MakeCtrl(PayloadValidOf(c), PayloadKindOf(c), CreditValidOf(c), DepthOf(c), AggregatedOf(c)) == c <==>
            c & 8 == 0
  {
  }

  lemma Split24(v: bv32)
    ensures Join24(High24(v), Mid24(v), Low24(v)) == Bits24(v)
  {
  }

  lemma Rejoin24(a: Byte, b: Byte, c: Byte)
    ensures var v := Join24(a, b, c); High24(v) == a && Mid24(v) == b && Low24(v) == c && v & 0xFF_FFFF == v
  {
  }

  lemma Split16(v: bv16)
    ensures Join16(High16(v), Low16(v)) == v
  {
  }

  lemma Rejoin16(a: Byte, b: Byte)
    ensures High16(Join16(a, b)) == a && Low16(Join16(a, b)) == b
  {
  }

  // ------------------------------------------------------------- the layout

  /** Byte `i` of a header. */
  function ByteAt(h: Header, i: nat): Byte
    requires i < HEADER_LENGTH
  {
    if i == 0 then MakeByte0(h.kind, h.repair, h.op)
    else if i == 1 then h.messageId
    else if i == 2 then MakeCtrl(h.payloadValid, h.payloadKind, h.creditValid, h.depth, h.aggregated)
    else if i == 3 then High24(h.offsetA)
    else if i == 4 then Mid24(h.offsetA)
    else if i == 5 then Low24(h.offsetA)
    else if i == 6 then High24(h.offsetB)
    else if i == 7 then Mid24(h.offsetB)
    else if i == 8 then Low24(h.offsetB)
    else if i == 9 then High16(h.loc0)
    else if i == 10 then Low16(h.loc0)
    else if i == 11 then h.fanin0
    else if i == 12 then h.fanin1
    else if i == 13 then h.fanin2
    else if i == 14 then 0
    else if i == 15 then h.dtype
    else if i == 16 then High16(h.loc1)
    else if i == 17 then Low16(h.loc1)
    else if i == 18 then High16(h.loc2)
    else Low16(h.loc2)
  }

  /** The 20 bytes of a header. */
  function Encode(h: Header): (w: seq<Byte>)
    ensures |w| == HEADER_LENGTH && forall i :: 0 <= i < HEADER_LENGTH ==> w[i] == ByteAt(h, i)
  {
    seq(HEADER_LENGTH, i requires 0 <= i < HEADER_LENGTH => ByteAt(h, i))
  }

  function Parse(w: seq<Byte>): Header
    requires |w| == HEADER_LENGTH
  {
    Header(KindOf(w[0]), RepairOf(w[0]), OpOf(w[0]), w[1],
           PayloadValidOf(w[2]), PayloadKindOf(w[2]), CreditValidOf(w[2]), DepthOf(w[2]), AggregatedOf(w[2]),
           Join24(w[3], w[4], w[5]), Join24(w[6], w[7], w[8]),
           Join16(w[9], w[10]), Join16(w[16], w[17]), Join16(w[18], w[19]), w[11], w[12], w[13], w[15])
  }

  /** Every field fits the bits it gets. */
  predicate Canonical(h: Header) {
    && Bits3(h.kind) == h.kind && Bits2(h.op) == h.op && Bits2(h.payloadKind) == h.payloadKind
       && Bits2(h.depth) == h.depth
    && Bits24(h.offsetA) == h.offsetA && Bits24(h.offsetB) == h.offsetB
  }

  /** What survives writing and parsing: each field cut to its bits. */
  function Truncated(h: Header): Header {
    h.(kind := Bits3(h.kind), op := Bits2(h.op), payloadKind := Bits2(h.payloadKind), depth := Bits2(h.depth),
       offsetA := Bits24(h.offsetA), offsetB := Bits24(h.offsetB))
  }

  /** The format, spelled out on one header whose fields all differ: version, type, repair and
      operation in the first byte, flags in the third, every number high byte first, the
      root's index in the middle and the other two at the end. */
  lemma LayoutExample()
    ensures Encode(Header(3, true, 2, 0x11, true, 2, true, 2, true, 0x223344, 0x556677, 0x8899, 0xAABB, 0xCCDD,
                          1, 2, 3, 4))
            == [0x9E, 0x11, 0xD5, 0x22, 0x33, 0x44, 0x55, 0x66, 0x77, 0x88, 0x99, 1, 2, 3, 0, 4, 0xAA, 0xBB, 0xCC, 0xDD]
  {
    assert MakeByte0(3, true, 2) == 0x9E && MakeCtrl(true, 2, true, 2, true) == 0xD5;
    assert High24(0x223344) == 0x22 && Mid24(0x223344) == 0x33 && Low24(0x223344) == 0x44;
    assert High24(0x556677) == 0x55 && Mid24(0x556677) == 0x66 && Low24(0x556677) == 0x77;
    assert High16(0x8899) == 0x88 && Low16(0x8899) == 0x99 && High16(0xAABB) == 0xAA && Low16(0xAABB) == 0xBB;
    assert High16(0xCCDD) == 0xCC && Low16(0xCCDD) == 0xDD;
  }

  /** The first nine bytes are those of the header. */
  ghost predicate FrontIs(w: seq<Byte>, h: Header)
    requires |w| == HEADER_LENGTH
  {
    && w[0] == MakeByte0(h.kind, h.repair, h.op) && w[1] == h.messageId
    && w[2] == MakeCtrl(h.payloadValid, h.payloadKind, h.creditValid, h.depth, h.aggregated)
    && w[3] == High24(h.offsetA) && w[4] == Mid24(h.offsetA) && w[5] == Low24(h.offsetA)
    && w[6] == High24(h.offsetB) && w[7] == Mid24(h.offsetB) && w[8] == Low24(h.offsetB)
  }

  /** The bytes behind the offsets are those of the header. */
  ghost predicate BackIs(w: seq<Byte>, h: Header)
    requires |w| == HEADER_LENGTH
  {
    && w[9] == High16(h.loc0) && w[10] == Low16(h.loc0) && w[11] == h.fanin0 && w[12] == h.fanin1 && w[13] == h.fanin2
    && w[14] == 0 && w[15] == h.dtype
    && w[16] == High16(h.loc1) && w[17] == Low16(h.loc1) && w[18] == High16(h.loc2) && w[19] == Low16(h.loc2)
  }

  lemma EncodedFront(h: Header)
    ensures FrontIs(Encode(h), h)
  {
    hide MakeByte0, MakeCtrl, High24, Mid24, Low24, High16, Low16, Encode;
    var w := Encode(h);
    assert w[0] == ByteAt(h, 0) && w[1] == ByteAt(h, 1) && w[2] == ByteAt(h, 2) && w[3] == ByteAt(h, 3)
      && w[4] == ByteAt(h, 4);
    assert w[5] == ByteAt(h, 5) && w[6] == ByteAt(h, 6) && w[7] == ByteAt(h, 7) && w[8] == ByteAt(h, 8);
  }

  lemma EncodedBack(h: Header)
    ensures BackIs(Encode(h), h)
  {
    hide MakeByte0, MakeCtrl, High24, Mid24, Low24, High16, Low16, Encode;
    var w := Encode(h);
    assert w[9] == ByteAt(h, 9) && w[10] == ByteAt(h, 10) && w[11] == ByteAt(h, 11) && w[12] == ByteAt(h, 12)
      && w[13] == ByteAt(h, 13);
    assert w[14] == ByteAt(h, 14) && w[15] == ByteAt(h, 15) && w[16] == ByteAt(h, 16) && w[17] == ByteAt(h, 17);
    assert w[18] == ByteAt(h, 18) && w[19] == ByteAt(h, 19);
  }

  /** The front and the back determine all 20 bytes. */
  lemma WholeIs(w: seq<Byte>, h: Header)
    requires |w| == HEADER_LENGTH && FrontIs(w, h) && BackIs(w, h)
    ensures w == Encode(h)
  {
    hide MakeByte0, MakeCtrl, High24, Mid24, Low24, High16, Low16, Encode, ByteAt;
    EncodedFront(h);
    EncodedBack(h);
  }

  lemma ParseOfBytes(w: seq<Byte>, h: Header)
    requires |w| == HEADER_LENGTH && FrontIs(w, h) && BackIs(w, h)
    ensures Parse(w) == Truncated(h)
  {
    hide MakeByte0, MakeCtrl, KindOf, RepairOf, OpOf, PayloadValidOf, PayloadKindOf, CreditValidOf, DepthOf,
         AggregatedOf,
         High24, Mid24, Low24, Join24, High16, Low16, Join16, Bits2, Bits3, Bits24;
    Byte0Fields(h.kind, h.repair, h.op);
    CtrlFields(h.payloadValid, h.payloadKind, h.creditValid, h.depth, h.aggregated);
    Split24(h.offsetA);
    Split24(h.offsetB);
    Split16(h.loc0);
    Split16(h.loc1);
    Split16(h.loc2);
  }

  /** Parsing what was written gives the header back exactly when it was canonical. */
  lemma ParseUndoesEncode(h: Header)
    ensures Parse(Encode(h)) == h <==> Canonical(h)
  {
    hide Parse, Encode, FrontIs, BackIs, Bits2, Bits3, Bits24;
    EncodedFront(h);
    EncodedBack(h);
    ParseOfBytes(Encode(h), h);
  }

  /** A buffer as a conforming sender leaves it: version 2, reserved bits clear. */
  predicate WellFormed(w: seq<Byte>)
    requires |w| == HEADER_LENGTH
  {
    w[0] >> 6 == 2 && w[2] & 8 == 0 && w[14] == 0
  }

  lemma ParsedFront(w: seq<Byte>)
    requires |w| == HEADER_LENGTH
    ensures FrontIs(w, Parse(w)) <==> w[0] >> 6 == 2 && w[2] & 8 == 0
  {
    hide MakeByte0, MakeCtrl, KindOf, RepairOf, OpOf, PayloadValidOf, PayloadKindOf, CreditValidOf, DepthOf,
         AggregatedOf,
         High24, Mid24, Low24, Join24, Join16;
    Byte0Rebuilt(w[0]);
    CtrlRebuilt(w[2]);
    Rejoin24(w[3], w[4], w[5]);
    Rejoin24(w[6], w[7], w[8]);
  }

  lemma ParsedBack(w: seq<Byte>)
    requires |w| == HEADER_LENGTH
    ensures BackIs(w, Parse(w)) <==> w[14] == 0
  {
    hide KindOf, RepairOf, OpOf, PayloadValidOf, PayloadKindOf, CreditValidOf, DepthOf, AggregatedOf, Join24, High16,
         Low16, Join16;
    Rejoin16(w[9], w[10]);
    Rejoin16(w[16], w[17]);
    Rejoin16(w[18], w[19]);
  }

  /** Writing what was parsed gives the buffer back exactly when it was well-formed. */
  lemma EncodeUndoesParse(w: seq<Byte>)
    requires |w| == HEADER_LENGTH
    ensures Encode(Parse(w)) == w <==> WellFormed(w)
  {
    hide Parse, Encode, FrontIs, BackIs;
    ParsedFront(w);
    ParsedBack(w);
    EncodedFront(Parse(w));
    EncodedBack(Parse(w));
    if WellFormed(w) { WholeIs(w, Parse(w)); }
  }

  // ------------------------------------------------- the two writers, in place

  function LocOffset(level: nat): nat {
    if level == 1 then 16 else if level >= 2 then 18 else 9
  }

  function LocOf(h: Header, level: nat): bv16 {
    if level == 0 then h.loc0 else if level == 1 then h.loc1 else h.loc2
  }

  function FaninOf(h: Header, level: nat): Byte {
    if level == 0 then h.fanin0 else if level == 1 then h.fanin1 else h.fanin2
  }

  method StoreOffset24(wire: array<Byte>, at: nat, value: bv32)
    requires at + 3 <= wire.Length
    modifies wire
    ensures wire[..] == old(wire[..])[at := High24(value)][at + 1 := Mid24(value)][at + 2 := Low24(value)]
  {
    wire[at], wire[at + 1], wire[at + 2] := High24(value), Mid24(value), Low24(value);
  }

  method StoreLocAt(wire: array<Byte>, level: nat, loc: bv16)
    requires wire.Length == HEADER_LENGTH
    modifies wire
    ensures wire[..] == old(wire[..])[LocOffset(level) := High16(loc)][LocOffset(level) + 1 := Low16(loc)]
    ensures forall k :: 0 <= k < HEADER_LENGTH && k != LocOffset(level) && k != LocOffset(level) + 1 ==>
            wire[k] == old(wire[k])
    ensures wire[LocOffset(level)] == High16(loc) && wire[LocOffset(level) + 1] == Low16(loc)
  {
    wire[LocOffset(level)], wire[LocOffset(level) + 1] := High16(loc), Low16(loc);
  }

  method StoreFaninAt(wire: array<Byte>, level: nat, fanin: Byte)
    requires wire.Length == HEADER_LENGTH
    modifies wire
    ensures wire[..] == if level >= MAX_DEPTH then old(wire[..]) else old(wire[..])[11 + level := fanin]
    ensures forall k :: 0 <= k < HEADER_LENGTH && k != 11 + level ==> wire[k] == old(wire[k])
    ensures level < MAX_DEPTH ==> wire[11 + level] == fanin
  {
    if level < MAX_DEPTH {
      wire[11 + level] := fanin;
    }
  }

  /** arbor_write_header, up to the offsets. */
  method WriteFront(wire: array<Byte>, h: Header)
    requires wire.Length == HEADER_LENGTH
    modifies wire
    ensures FrontIs(wire[..], h)
  {
    hide MakeByte0, MakeCtrl, High24, Mid24, Low24;
    wire[0] := MakeByte0(h.kind, h.repair, h.op);
    wire[1] := h.messageId;
    wire[2] := MakeCtrl(h.payloadValid, h.payloadKind, h.creditValid, h.depth, h.aggregated);
    StoreOffset24(wire, 3, h.offsetA);
    StoreOffset24(wire, 6, h.offsetB);
  }

  /** arbor_write_header: the stack, level by level. */
  method WriteStack(wire: array<Byte>, h: Header)
    requires wire.Length == HEADER_LENGTH
    modifies wire
    ensures forall k :: 0 <= k < 9 ==> wire[k] == old(wire[k])
    ensures forall j :: 0 <= j < MAX_DEPTH ==>
              wire[LocOffset(j)] == High16(LocOf(h, j)) && wire[LocOffset(j) + 1] == Low16(LocOf(h, j))
                  && wire[11 + j] == FaninOf(h, j)
  {
    hide High16, Low16;
    var i := 0;
    while i < MAX_DEPTH
      invariant 0 <= i <= MAX_DEPTH && forall k :: 0 <= k < 9 ==> wire[k] == old(wire[k])
      invariant forall j :: 0 <= j < i ==>
                  wire[LocOffset(j)] == High16(LocOf(h, j)) && wire[LocOffset(j) + 1] == Low16(LocOf(h, j))
                      && wire[11 + j] == FaninOf(h, j)
    {
      StoreLocAt(wire, i, LocOf(h, i));
      StoreFaninAt(wire, i, FaninOf(h, i));
      i := i + 1;
    }
  }

  /** arbor_write_header. */
  method WriteHeader(wire: array<Byte>, h: Header)
    requires wire.Length == HEADER_LENGTH
    modifies wire
    ensures wire[..] == Encode(h)
  {
    hide MakeByte0, MakeCtrl, High24, Mid24, Low24, High16, Low16, ByteAt, Encode;
    WriteFront(wire, h);
    WriteStack(wire, h);
    wire[14] := 0;
    wire[15] := h.dtype;
    assert wire[LocOffset(0)] == High16(h.loc0) && wire[LocOffset(1)] == High16(h.loc1)
      && wire[LocOffset(2)] == High16(h.loc2);
    WholeIs(wire[..], h);
  }

  /** WireHeader::Serialize, up to the offsets. */
  method SerializeFront(w: array<Byte>, h: Header)
    requires w.Length == HEADER_LENGTH
    modifies w
    ensures FrontIs(w[..], h)
  {
    hide High24, Mid24, Low24;
    w[0] := (2 << 6) | ((h.kind & 7) << 3) | (Flag(h.repair) << 2) | (h.op & 3);
    w[1] := h.messageId;
    w[2] := (Flag(h.payloadValid) << 7) | ((h.payloadKind & 3) << 5) | (Flag(h.creditValid) << 4)
            | ((h.depth & 3) << 1) | Flag(h.aggregated);
    StoreOffset24(w, 3, h.offsetA);
    StoreOffset24(w, 6, h.offsetB);
  }

  /** WireHeader::Serialize: the same bytes from the other code base, for every header. */
  method Serialize(w: array<Byte>, h: Header)
    requires w.Length == HEADER_LENGTH
    modifies w
    ensures w[..] == Encode(h)
  {
    hide MakeByte0, MakeCtrl, High24, Mid24, Low24, High16, Low16, ByteAt, Encode;
    SerializeFront(w, h);
    w[9], w[10] := High16(h.loc0), Low16(h.loc0);
    w[11], w[12], w[13] := h.fanin0, h.fanin1, h.fanin2;
    w[14] := 0;
    w[15] := h.dtype;
    w[16], w[17] := High16(h.loc1), Low16(h.loc1);
    w[18], w[19] := High16(h.loc2), Low16(h.loc2);
    WholeIs(w[..], h);
  }

  // ------------------------------------------------- editing a packet in place

  /** credit_push_agg_loc: append a slot index to the stack of a credit. */
  method CreditPushLoc(wire: array<Byte>, slot: bv16)
    requires wire.Length == HEADER_LENGTH
    modifies wire
    ensures wire[..] == Pushed(old(wire[..]), slot)
  {
    StoreLocAt(wire, DepthOf(wire[2]) as nat, slot);
    var ctrl := wire[2];
    ctrl := SetDepth(ctrl, DepthOf(ctrl) + 1);
    ctrl := SetAggregated(ctrl, false);
    wire[2] := ctrl;
  }

  /** request_pop_one_level: consume the top of the stack of a request. */
  method RequestPopLevel(wire: array<Byte>)
    requires wire.Length == HEADER_LENGTH
    modifies wire
    ensures wire[..] == Popped(old(wire[..]))
  {
    var ctrl := wire[2];
    var depth := DepthOf(ctrl);
    if depth == 0 {
      return;
    }
    wire[2] := SetDepth(ctrl, depth - 1);
  }

  /** master_finalize_header: a completed slot's header, one level up, with its count. */
  method MasterFinalizeHeader(wire: array<Byte>, count: bv16)
    requires wire.Length == HEADER_LENGTH
    modifies wire
    ensures wire[..] == Finalized(old(wire[..]), count)
  {
    var ctrl := wire[2];
    ctrl := SetAggregated(ctrl, true);
    ctrl := SetDepth(ctrl, DepthOf(ctrl) - 1);
    wire[2] := ctrl;
    StoreOffset24(wire, 6, count as bv32);
  }

  /** arbor_rewrite_to_agg_miss: turn a request into the report that its slot was lost. */
  method RewriteToAggMiss(wire: array<Byte>)
    requires wire.Length == HEADER_LENGTH
    modifies wire
    ensures wire[..] == Missed(old(wire[..]))
  {
    hide High24, Mid24, Low24, SetKind, SetRepair, MakeCtrl;
    ZeroBytes();
    var byte0 := wire[0];
    byte0 := SetKind(byte0, AGG_MISS);
    byte0 := SetRepair(byte0, false);
    wire[0] := byte0;
    wire[2] := MakeCtrl(false, DATA, false, 0, false);
    StoreOffset24(wire, 6, 0);
    ClearStack(wire);
    assert LevelCleared(wire[..], 0) && LevelCleared(wire[..], 1) && LevelCleared(wire[..], 2);
  }

  ghost predicate LevelCleared(w: seq<Byte>, j: nat)
    requires |w| == HEADER_LENGTH && j < MAX_DEPTH
  {
    w[LocOffset(j)] == 0xFF && w[LocOffset(j) + 1] == 0xFF && w[11 + j] == 0
  }

  /** No slots, no fan-ins, level by level. */
  method ClearStack(wire: array<Byte>)
    requires wire.Length == HEADER_LENGTH
    modifies wire
    ensures forall k :: 0 <= k < HEADER_LENGTH && (k < 9 || k == 14 || k == 15) ==> wire[k] == old(wire[k])
    ensures forall j: nat :: j < MAX_DEPTH ==> LevelCleared(wire[..], j)
  {
    hide High16, Low16;
    UnusedBytes();
    var i := 0;
    while i < MAX_DEPTH
      invariant 0 <= i <= MAX_DEPTH
      invariant forall k :: 0 <= k < HEADER_LENGTH && (k < 9 || k == 14 || k == 15) ==> wire[k] == old(wire[k])
      invariant forall j: nat :: j < i ==> LevelCleared(wire[..], j)
    {
      ghost var before := wire[..];
      StoreFaninAt(wire, i, 0);
      StoreLocAt(wire, i, UNUSED);
      forall j: nat | j < i ensures LevelCleared(wire[..], j) {
        assert LevelCleared(before, j);
      }
      assert LevelCleared(wire[..], i);
      i := i + 1;
    }
  }

  lemma UnusedBytes()
    ensures High16(UNUSED) == 0xFF && Low16(UNUSED) == 0xFF
  {
  }

  lemma ZeroBytes()
    ensures High24(0) == 0 && Mid24(0) == 0 && Low24(0) == 0
  {
  }

  // What the editing methods leave in the buffer.

  ghost function Pushed(w: seq<Byte>, slot: bv16): (r: seq<Byte>)
    requires |w| == HEADER_LENGTH
    ensures |r| == HEADER_LENGTH
  {
    var at := LocOffset(DepthOf(w[2]) as nat);
    w[at := High16(slot)][at + 1 := Low16(slot)][2 := SetAggregated(SetDepth(w[2], DepthOf(w[2]) + 1), false)]
  }

  ghost function Popped(w: seq<Byte>): (r: seq<Byte>)
    requires |w| == HEADER_LENGTH
    ensures |r| == HEADER_LENGTH
  {
    if DepthOf(w[2]) == 0 then w else w[2 := SetDepth(w[2], DepthOf(w[2]) - 1)]
  }

  ghost function Finalized(w: seq<Byte>, count: bv16): (r: seq<Byte>)
    requires |w| == HEADER_LENGTH
    ensures |r| == HEADER_LENGTH
  {
    var ctrl := SetAggregated(w[2], true);
    w[2 := SetDepth(ctrl, DepthOf(ctrl) - 1)]
     [6 := High24(count as bv32)][7 := Mid24(count as bv32)][8 := Low24(count as bv32)]
  }

  ghost function Missed(w: seq<Byte>): (r: seq<Byte>)
    requires |w| == HEADER_LENGTH
    ensures |r| == HEADER_LENGTH
  {
    [SetRepair(SetKind(w[0], AGG_MISS), false), w[1], MakeCtrl(false, DATA, false, 0, false), w[3], w[4], w[5], 0, 0, 0,
     0xFF, 0xFF, 0, 0, 0, w[14], w[15], 0xFF, 0xFF, 0xFF, 0xFF]
  }

  // --------------------------------------------- the edits mean stack operations

  /** The stack of slot indices, bottom (root) first. */
  function Stack(h: Header): seq<bv16> {
    if h.depth == 0 then []
    else if h.depth == 1 then [h.loc0]
    else if h.depth == 2 then [h.loc0, h.loc1]
    else [h.loc0, h.loc1, h.loc2]
  }

  /** WireHeader::PushAggLoc on the decoded view, refused on a full stack. */
  function PushAggLoc(h: Header, slot: bv16): Header
    requires h.depth & 3 == h.depth
  {
    if h.depth == 0 then h.(loc0 := slot, depth := 1)
    else if h.depth == 1 then h.(loc1 := slot, depth := 2)
    else if h.depth == 2 then h.(loc2 := slot, depth := 3)
    else h
  }

  lemma DepthIsSmall(c: Byte)
    ensures DepthOf(c) & 3 == DepthOf(c) && DepthOf(c) <= 3
    ensures DepthOf(c) < 3 ==> (DepthOf(c) + 1) & 3 == DepthOf(c) + 1
    ensures DepthOf(c) == 3 ==> (DepthOf(c) + 1) & 3 == 0
    ensures DepthOf(c) > 0 ==> (DepthOf(c) - 1) & 3 == DepthOf(c) - 1
  {
  }

  /** Pushing on the bytes is pushing on the view, and appends one index, exactly while
      the stack is not full; on a full stack the router's depth wraps to zero. */
  lemma PushCommutes(w: seq<Byte>, slot: bv16)
    requires |w| == HEADER_LENGTH
    ensures Parse(w).depth & 3 == Parse(w).depth
    ensures Parse(Pushed(w, slot)) == PushAggLoc(Parse(w), slot).(aggregated := false) <==> Parse(w).depth < 3
    ensures Parse(w).depth < 3 ==> Stack(Parse(Pushed(w, slot))) == Stack(Parse(w)) + [slot]
    ensures Parse(w).depth == 3 ==> Stack(Parse(Pushed(w, slot))) == []
  {
    DepthIsSmall(w[2]);
    Split16(slot);
    hide MakeByte0, MakeCtrl, KindOf, RepairOf, OpOf, PayloadValidOf, PayloadKindOf, CreditValidOf, DepthOf,
         AggregatedOf,
         Join24, High16, Low16, Join16, SetDepth, SetAggregated;
  }

  /** Popping on the bytes removes exactly the top index, and nothing from an empty stack. */
  lemma PopCommutes(w: seq<Byte>)
    requires |w| == HEADER_LENGTH
    ensures var h := Parse(w);
            && Parse(Popped(w)) == (if h.depth == 0 then h else h.(depth := h.depth - 1))
            && Stack(Parse(Popped(w))) == if h.depth == 0 then [] else Stack(h)[..|Stack(h)| - 1]
  {
    DepthIsSmall(w[2]);
    hide KindOf, RepairOf, OpOf, PayloadValidOf, PayloadKindOf, CreditValidOf, DepthOf, AggregatedOf, Join24, Join16,
         SetDepth;
  }

  /** Push and pop undo each other on the stack. */
  lemma PopUndoesPush(w: seq<Byte>, slot: bv16)
    requires |w| == HEADER_LENGTH && Parse(w).depth < 3
    ensures Stack(Parse(Popped(Pushed(w, slot)))) == Stack(Parse(w))
  {
    hide Parse, Pushed, Popped, Stack;
    PushCommutes(w, slot);
    PopCommutes(Pushed(w, slot));
  }

  /** Finalizing marks a master, consumes one level and stores the whole count, for a non-empty stack. */
  lemma FinalizeCommutes(w: seq<Byte>, count: bv16)
    requires |w| == HEADER_LENGTH && Parse(w).depth > 0
    ensures var h := Parse(w);
            && Parse(Finalized(w, count)) == h.(aggregated := true, depth := h.depth - 1, offsetB := count as bv32)
            && Stack(Parse(Finalized(w, count))) == Stack(h)[..|Stack(h)| - 1]
  {
    DepthIsSmall(w[2]);
    Split24(count as bv32);
    hide KindOf, RepairOf, OpOf, PayloadValidOf, PayloadKindOf, CreditValidOf, DepthOf, AggregatedOf,
         High24, Mid24, Low24, Join24, Join16, SetDepth, SetAggregated;
  }

  /** WireHeader::RewriteToAggMiss on the decoded view: it leaves the payload kind alone. */
  function ToAggMiss(h: Header): Header {
    h.(kind := AGG_MISS, repair := false, payloadValid := false, creditValid := false, aggregated := false, depth := 0,
       offsetB := 0, fanin0 := 0, fanin1 := 0, fanin2 := 0, loc0 := UNUSED, loc1 := UNUSED, loc2 := UNUSED)
  }

  lemma MissByte0(b: Byte)
    ensures var r := SetRepair(SetKind(b, AGG_MISS), false);
            KindOf(r) == AGG_MISS && !RepairOf(r) && OpOf(r) == OpOf(b) && r >> 6 == b >> 6
  {
  }

  /** The two AGG_MISS rewritings agree exactly on packets whose payload kind is DATA,
      which is what every request carries; offset and message id survive. */
  lemma AggMissCommutes(w: seq<Byte>)
    requires |w| == HEADER_LENGTH
    ensures Parse(Missed(w)) == ToAggMiss(Parse(w)) <==> Parse(w).payloadKind == DATA
    ensures Parse(Missed(w)) == ToAggMiss(Parse(w)).(payloadKind := DATA)
  {
    MissByte0(w[0]);
    CtrlFields(false, DATA, false, 0, false);
    hide MakeCtrl, KindOf, RepairOf, OpOf, PayloadValidOf, PayloadKindOf, CreditValidOf, DepthOf, AggregatedOf, Join24,
         Join16, SetKind, SetRepair;
  }

  /** A rewritten request is an AGG_MISS header with an empty stack and nothing else; whose
      it is, its message, offset, operation and type, survives. */
  lemma MissKeepsIdentity(w: seq<Byte>)
    requires |w| == HEADER_LENGTH
    ensures var h, m := Parse(w), Parse(Missed(w));
            && m.kind == AGG_MISS && !m.repair && !m.payloadValid && !m.creditValid && !m.aggregated
            && Stack(m) == [] && m.offsetB == 0
            && m.op == h.op && m.messageId == h.messageId && m.offsetA == h.offsetA && m.dtype == h.dtype
  {
    hide Parse, Missed;
    AggMissCommutes(w);
  }
}
