/** What a router does with a credit and with a normal request, as functions of
    the router's state (protocol/router.c).  The class in Router.dfy updates
    arrays in place and is proved to compute exactly these functions. */
module RouterModel {
  import opened Prelude
  import opened Reduction

  // Index written into an aggregation stack entry that was never pushed.
  const AGG_INDEX_UNUSED: nat := 0xFFFF
  const MAX_STACK_DEPTH: nat := 3

  // The two ECN bits of the IPv4 header: section 5 of RFC 3168.
  datatype Ecn = NotEct | Ect1 | Ect0 | Ce

  /** A DATA_REQUEST as the router sees it: the source rank, the header
      fields, and the payload words. */
  datatype Request = Request(
    source: nat,
    port: nat,
    offset: nat,
    merged: nat,
    aggregated: bool,
    depth: nat,
    locs: seq<nat>,
    fanins: seq<nat>,
    op: Op,
    dtype: nat,
    payloadValid: bool,
    dataKind: bool,
    ecn: Ecn,
    payload: Payload)

  ghost predicate WellFormed(q: Request, width: nat) {
    && |q.locs| == |q.fanins| == MAX_STACK_DEPTH
    && q.depth <= MAX_STACK_DEPTH
    && (forall i :: 0 <= i < MAX_STACK_DEPTH ==> q.fanins[i] < 0x100)
    && |q.payload| <= width
  }

  function Contribution(q: Request): nat {
    if q.aggregated then q.merged else 1
  }

  datatype Slot = Slot(
    ownerValid: bool,
    forwarded: bool,
    fanin: nat,
    count: nat,
    op: Op,
    dtype: nat,
    port: nat,
    offset: nat,
    aggLoc: nat,
    words: nat,
    responder: nat,
    master: Option<Request>)

  const EMPTY_SLOT: Slot := Slot(false, false, 0, 0, Nop, 0, 0, 0, 0, 0, 0, None)

  function BoundSlot(port: nat, offset: nat, index: nat, responder: nat): Slot {
    EMPTY_SLOT.(ownerValid := true, port := port, offset := offset, aggLoc := index, responder := responder)
  }

  datatype FailReason = Owner | Forwarded | FaninZero | BadContribution | FaninMismatch | Shape | Overflow

  datatype Verdict = Reject(reason: FailReason) | Accept(slot: Slot, complete: bool)

  /** Count one request into a slot, without looking at who sent it. */
  function SlotAccept(slot: Slot, q: Request, fanin: nat): Verdict {
    var contribution := Contribution(q);
    if !slot.ownerValid || slot.port != q.port || slot.offset != q.offset then Reject(Owner)
    else if slot.forwarded then Reject(Forwarded)
    else if fanin == 0 then Reject(FaninZero)
    else if contribution == 0 || contribution > fanin then Reject(BadContribution)
    else if slot.count == 0 then
      var s := slot.(fanin := fanin, op := q.op, dtype := q.dtype, words := |q.payload|, master := Some(q),
                     count := contribution);
      Accept(s, s.count == s.fanin)
    else if slot.fanin != fanin then Reject(FaninMismatch)
    else if slot.op != q.op || slot.dtype != q.dtype || slot.words != |q.payload| then Reject(Shape)
    else if contribution + slot.count > slot.fanin then Reject(Overflow)
    else
      var s := slot.(count := slot.count + contribution);
      Accept(s, s.count == s.fanin)
  }

  function OrEcn(a: Ecn, b: Ecn): Ecn {
    if a == NotEct then b else if b == NotEct || a == b then a else Ce
  }

  /** Merge the ECN bits of a contribution into the stored master. */
  function MergeEcn(slot: Slot, ecn: Ecn): Slot {
    match slot.master
    case None => slot
    case Some(m) => if ecn == NotEct then slot else slot.(master := Some(m.(ecn := OrEcn(m.ecn, ecn))))
  }

  function Finalize(slot: Slot, row: Payload): Request
    requires slot.master.Some? && slot.master.value.depth > 0 && slot.words <= |row|
  {
    slot.master.value.(
      payload := row[..slot.words],
      aggregated := true,
      depth := slot.master.value.depth - 1,
      merged := slot.count)
  }

  datatype RouterState = RouterState(slots: seq<Slot>, rows: seq<Payload>, alloc: nat)

  /** What leaves the router: a request (passed on, popped, or a completed
      master), an AGG_MISS for the request's offset, or nothing yet. */
  datatype Output = Forward(request: Request) | Master(request: Request) | Miss(port: nat, offset: nat) | Absorbed

  /** Structural consistency of a router with `width` words per register row. */
  ghost predicate Valid(s: RouterState, width: nat) {
    && 0 < |s.slots| == |s.rows| <= AGG_INDEX_UNUSED
    && s.alloc < |s.slots|
    && (forall i :: 0 <= i < |s.rows| ==> |s.rows[i]| == width)
    && (forall i :: 0 <= i < |s.slots| ==> SlotValid(s.slots[i], i, width))
  }

  ghost predicate SlotValid(slot: Slot, index: nat, width: nat) {
    && (slot.ownerValid ==> slot.aggLoc == index)
    && slot.words <= width
    && slot.fanin < 0x100
    && slot.count <= slot.fanin
    && (slot.count > 0 ==>
          && slot.ownerValid
          && slot.master.Some? && 0 < slot.master.value.depth <= MAX_STACK_DEPTH
          && |slot.master.value.locs| == |slot.master.value.fanins| == MAX_STACK_DEPTH
          && (forall i :: 0 <= i < MAX_STACK_DEPTH ==> slot.master.value.fanins[i] < 0x100))
    && (slot.ownerValid && !slot.forwarded ==> slot.count == 0 || slot.count < slot.fanin)
  }

  function NormalKind(q: Request): bool {
    !q.payloadValid || q.dataKind
  }

  /** An accepted contribution leaves a slot as consistent as it found it. */
  lemma AcceptKeepsSlot(slot: Slot, q: Request, fanin: nat, index: nat, width: nat)
    requires SlotValid(slot, index, width) && WellFormed(q, width) && 0 < q.depth && fanin < 0x100
    ensures var v := SlotAccept(slot, q, fanin);
      v.Accept? ==>
        var merged := MergeEcn(v.slot, q.ecn);
        && merged.words == |q.payload| <= width
        && merged.master.Some? && 0 < merged.master.value.depth
        && (forall row: Payload :: |row| == width ==> WellFormed(Finalize(merged, row), width))
        && SlotValid(if v.complete then merged.(forwarded := true) else merged, index, width)
  {}

  /** A consistent slot and row may take the place of another's. */
  lemma SlotReplaced(s: RouterState, i: nat, slot: Slot, row: Payload, width: nat)
    requires Valid(s, width) && i < |s.slots| && SlotValid(slot, i, width) && |row| == width
    ensures Valid(s.(slots := s.slots[i := slot], rows := s.rows[i := row]), width)
  {
    hide SlotValid;
  }

  /** Processing of one DATA_REQUEST.  `bypass` is set when the router is a
      RELAY of the responder's tree. */
  function HandleRequest(s: RouterState, bypass: bool, q: Request, width: nat): (r: (RouterState, Output))
    requires Valid(s, width) && WellFormed(q, width)
    ensures Valid(r.0, width)
    ensures r.1.Forward? || r.1.Master? ==> WellFormed(r.1.request, width)
  {
    if q.depth == 0 || bypass then (s, Forward(q))
    else
      var loc := q.locs[q.depth - 1];
      var fanin := q.fanins[q.depth - 1];
      if loc == AGG_INDEX_UNUSED || loc >= |s.slots| then (s, Miss(q.port, q.offset))
      else if fanin == 1 then (s, Forward(q.(depth := q.depth - 1)))
      else if !NormalKind(q) then (s, Miss(q.port, q.offset))
      else
        AcceptKeepsSlot(s.slots[loc], q, fanin, loc, width);
        match SlotAccept(s.slots[loc], q, fanin)
        case Reject(_) => (s, Miss(q.port, q.offset))
        case Accept(slot, complete) =>
          var row := Accumulate(slot.op, s.slots[loc].count == 0, s.rows[loc], q.payload);
          var merged := MergeEcn(slot, q.ecn);
          SlotReplaced(s, loc, if complete then merged.(forwarded := true) else merged, row, width);
          if complete then
            (s.(slots := s.slots[loc := merged.(forwarded := true)], rows := s.rows[loc := row]),
             Master(Finalize(merged, row)))
          else
            (s.(slots := s.slots[loc := merged], rows := s.rows[loc := row]), Absorbed)
  }

  /** A miss is reported for the very request that could not be taken in, and costs the
      router nothing. */
  lemma MissNamesRequest(s: RouterState, bypass: bool, q: Request, width: nat)
    requires Valid(s, width) && WellFormed(q, width) && HandleRequest(s, bypass, q, width).1.Miss?
    ensures HandleRequest(s, bypass, q, width) == (s, Miss(q.port, q.offset))
  {
  }

  predicate OwnedBy(slot: Slot, port: nat, offset: nat, responder: nat) {
    && slot.ownerValid && !slot.forwarded
    && slot.port == port && slot.offset == offset && slot.responder == responder
  }

  /** The first live slot of a credit at or after `from`; |slots| when there is none. */
  function FindSlot(slots: seq<Slot>, port: nat, offset: nat, responder: nat, from: nat): (r: nat)
    requires from <= |slots|
    ensures from <= r <= |slots|
    ensures r < |slots| ==> OwnedBy(slots[r], port, offset, responder)
    ensures forall i :: from <= i < r ==> !OwnedBy(slots[i], port, offset, responder)
    decreases |slots| - from
  {
    if from == |slots| then from
    else if OwnedBy(slots[from], port, offset, responder) then from
    else FindSlot(slots, port, offset, responder, from + 1)
  }

  /** A normal credit reaches an aggregation level: reuse its live slot or take
      the next one round-robin, whatever that one still holds. */
  function BindCredit(s: RouterState, port: nat, offset: nat, responder: nat, width: nat): (r: (RouterState, nat))
    requires Valid(s, width)
    ensures Valid(r.0, width)
    ensures r.1 < |r.0.slots| == |s.slots|
  {
    var found := FindSlot(s.slots, port, offset, responder, 0);
    if found < |s.slots| then (s, found)
    else
      (RouterState(
         s.slots[s.alloc := BoundSlot(port, offset, s.alloc, responder)],
         s.rows[s.alloc := seq(width, _ => 0)],
         (s.alloc + 1) % |s.slots|),
       s.alloc)
  }
}
