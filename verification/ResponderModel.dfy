/** One credit entry of a responder call, and what each arriving request does to
    it (protocol/responder.c).  Responder.dfy holds the class that updates the
    accumulators in place and is proved to compute these functions. */
module ResponderModel {
  import opened Prelude
  import opened Reduction

  datatype RequestKind = ControlAck | PayloadRequest

  /** A request or repair request taken from the receive queue.  `rank` is the
      requester whose address the packet carries; for an aggregated master it is
      the rank of the first contributor. */
  datatype Arrival = Arrival(
    rank: nat,
    repair: bool,
    aggregated: bool,
    depth: nat,
    merged: nat,
    kind: RequestKind,
    op: Op,
    dtypeSupported: bool,
    payload: Payload)

  /** What a responder call knows: its requesters, its own contribution to the
      offset (absent when no local source is registered), and the packet width. */
  datatype Call = Call(requesters: set<nat>, op: Op, local: Option<Payload>, width: nat)

  ghost predicate CallOk(c: Call) {
    c.local.Some? ==> |c.local.value| == c.width
  }

  function Expected(c: Call): nat {
    if |c.requesters| == 0 then 1 else |c.requesters|
  }

  datatype Entry = Entry(
    committed: bool,
    done: bool,
    repairMode: bool,
    op: Op,
    requesterBitmap: set<nat>,
    repairBitmap: set<nat>,
    directCount: nat,
    repairCount: nat,
    direct: Payload,
    repair: Payload,
    result: Payload)

  ghost predicate EntryOk(c: Call, e: Entry) {
    && |e.direct| == |e.repair| == |e.result| == c.width
    && (e.done ==> e.committed && c.requesters <= e.requesterBitmap)
  }

  /** The entry as reserve_credit leaves it for a pull message. */
  function Reserved(c: Call): Entry {
    var zero := seq(c.width, _ => 0);
    Entry(false, false, false, c.op, {}, {}, 0, 0, zero, zero, zero)
  }

  /** The entry as find_entry leaves it. */
  function ZeroEntry(width: nat): Entry {
    Reserved(Call({}, Nop, None, width))
  }

  /** The entry of a push message: committed when its credit is issued. */
  function SelfCommitted(c: Call): Entry
    requires CallOk(c)
  {
    Reserved(c).(committed := true, result := BuildResult(c, []))
  }

  /** accumulate_requester_input: deduplicated per path by its own bitmap. */
  function AccumulateInput(e: Entry, rank: nat, p: Payload, isRepair: bool, contribution: nat): (r: Entry)
    requires |p| <= |e.direct| == |e.repair|
    ensures |r.direct| == |r.repair| == |e.direct|
  {
    var amount := if contribution == 0 then 1 else contribution;
    if isRepair then
      if rank in e.repairBitmap then e
      else e.(repairBitmap := e.repairBitmap + {rank}, repairCount := e.repairCount + amount,
              repair := Accumulate(e.op, e.repairCount == 0, e.repair, p))
    else
      if rank in e.requesterBitmap then e
      else e.(requesterBitmap := e.requesterBitmap + {rank}, directCount := e.directCount + amount,
              direct := Accumulate(e.op, e.directCount == 0, e.direct, p))
  }

  /** build_result_payload: the remote reduction combined with the local source. */
  function BuildResult(c: Call, remote: Payload): (r: Payload)
    requires CallOk(c) && |remote| <= c.width
    ensures |r| == c.width
  {
    match c.local
    case None => remote + seq(c.width - |remote|, _ => 0)
    case Some(l) => Combine(c.op, l[..|remote|], remote) + l[|remote|..]
  }

  /** The words of a result: below the remote reduction's length the local word combined
      with the remote one, above it the local word alone; without a local source, the
      remote words and zeros. */
  lemma ResultWords(c: Call, remote: Payload, w: nat)
    requires CallOk(c) && |remote| <= c.width && w < c.width
    ensures var r := BuildResult(c, remote)[w];
            && (c.local.Some? && w < |remote| ==> r == CombineWord(c.op, c.local.value[w], remote[w]))
            && (c.local.Some? && w >= |remote| ==> r == c.local.value[w])
            && (c.local.None? && w < |remote| ==> r == remote[w])
            && (c.local.None? && w >= |remote| ==> r == 0)
  {
  }

  /** The result of a pull offset: every word is the reduction over the requesters and the
      responder itself, as rank `own`, with the local source as its input; without a
      local source, over the requesters alone. */
  ghost predicate HoldsReduction(c: Call, inputs: Inputs, bound: nat, own: nat, result: Payload)
    requires CallOk(c) && Shaped(inputs, c.width)
  {
    && |result| == c.width
    && match c.local
       case None =>
         && result == Fold(c.op, inputs, c.width, c.requesters, bound)
         && forall w :: 0 <= w < c.width ==> Reduces(c.op, result[w], inputs, c.width, w, c.requesters, bound)
       case Some(l) =>
         var all, ranks, top := With(inputs, own, l), c.requesters + {own}, bound + own + 1;
         && result == Fold(c.op, all, c.width, ranks, top)
         && forall w :: 0 <= w < c.width ==> Reduces(c.op, result[w], all, c.width, w, ranks, top)
  }

  /** The result of a push offset: the local source, or zeros. */
  ghost predicate HoldsOwn(c: Call, result: Payload)
    requires CallOk(c)
  {
    && |result| == c.width
    && forall w :: 0 <= w < c.width ==> result[w] == if c.local.Some? then c.local.value[w] else 0
  }

  lemma ResultIsOwn(c: Call)
    requires CallOk(c)
    ensures HoldsOwn(c, BuildResult(c, []))
  {
    forall w | 0 <= w < c.width ensures BuildResult(c, [])[w] == if c.local.Some? then c.local.value[w] else 0 {
      ResultWords(c, [], w);
    }
  }

  /** Combining the requesters' reduction with the local source reduces over all of them. */
  lemma ResultIsReduction(c: Call, inputs: Inputs, bound: nat, own: nat)
    requires CallOk(c) && Shaped(inputs, c.width) && c.requesters != {} && own !in c.requesters
    requires forall r :: r in c.requesters ==> r < bound
    ensures HoldsReduction(c, inputs, bound, own,
                           BuildResult(c, Fold(c.op, inputs, c.width, c.requesters, bound)))
  {
    hide Fold, Reduces;
    var remote := Fold(c.op, inputs, c.width, c.requesters, bound);
    var result := BuildResult(c, remote);
    match c.local
    case None =>
      assert result == remote;
      forall w | 0 <= w < c.width ensures Reduces(c.op, result[w], inputs, c.width, w, c.requesters, bound) {
        FoldReduces(c.op, inputs, c.width, w, c.requesters, bound);
      }
    case Some(l) =>
      var all, ranks, top := With(inputs, own, l), c.requesters + {own}, bound + own + 1;
      FoldWith(c.op, inputs, c.width, c.requesters, own, l, bound, top);
      forall w | 0 <= w < c.width ensures result[w] == Combine(c.op, l, remote)[w] { ResultWords(c, remote, w); }
      assert result == Combine(c.op, l, remote);
      forall w | 0 <= w < c.width ensures Reduces(c.op, result[w], all, c.width, w, ranks, top) {
        FoldReduces(c.op, all, c.width, w, ranks, top);
      }
  }

  /** mark_entry_done, and whether it counted the entry. */
  function MarkDone(c: Call, e: Entry): (r: (Entry, bool)) {
    if e.done || !e.committed || !(c.requesters <= e.requesterBitmap) then (e, false)
    else (e.(done := true), true)
  }

  function Commit(c: Call, e: Entry, remote: Payload): (r: (Entry, bool))
    requires CallOk(c) && |remote| <= c.width
  {
    MarkDone(c, e.(committed := true, result := BuildResult(c, remote)))
  }

  // What the handler did: dropped the packet, replayed the stored response,
  // recorded an input, recorded a consumption acknowledgement, or committed.
  datatype Action = Dropped | Replayed | Recorded | Acknowledged | Committed | Violation

  datatype Effect = Effect(entry: Entry, action: Action, counted: bool)

  predicate NothingAccumulated(e: Entry) {
    !e.committed && e.directCount == 0 && e.repairCount == 0
  }

  /** An aggregated acknowledgement without payload. */
  predicate IsControlAck(m: Arrival) {
    m.aggregated && m.kind == ControlAck && m.payload == []
  }

  /** A normal packet that the entry refuses before looking at its payload. */
  predicate Refused(c: Call, e: Entry, m: Arrival) {
    || (!m.repair && Expected(c) > 1 && !m.aggregated && m.depth == 0)
    || (!m.repair && m.kind == PayloadRequest &&
          ((!m.aggregated && Expected(c) > 1) || (m.aggregated && m.merged != Expected(c))))
    || (!m.repair && m.aggregated && e.repairMode)
    || (m.aggregated && m.kind == ControlAck && m.merged != Expected(c))
  }

  function OnRequest(c: Call, e0: Entry, m: Arrival): (r: Effect)
    requires CallOk(c) && EntryOk(c, e0) && |m.payload| <= c.width
    ensures EntryOk(c, r.entry)
  {
    if !m.dtypeSupported then Effect(e0, Dropped, false)
    else
      var e := if NothingAccumulated(e0) then e0.(op := m.op) else e0;
      if Refused(c, e, m) then Effect(e, Dropped, false)
      else if IsControlAck(m) then
        var acked := e.(requesterBitmap := c.requesters);
        if e.committed then
          var (d, counted) := MarkDone(c, acked);
          Effect(d, Acknowledged, counted)
        else
          var (d, counted) := Commit(c, acked, []);
          Effect(d, Committed, counted)
      else if e.committed && !m.repair then Effect(e, Replayed, false)
      else if m.repair then
        var a := AccumulateInput(e, m.rank, m.payload, true, 1);
        if !(c.requesters <= a.repairBitmap) then Effect(a, Recorded, false)
        else if a.committed then
          var (d, counted) := MarkDone(c, a.(requesterBitmap := c.requesters));
          Effect(d, Acknowledged, counted)
        else
          var (d, counted) := Commit(c, a.(requesterBitmap := c.requesters, repairBitmap := c.requesters), a.repair);
          Effect(d, Committed, counted)
      else if m.kind == PayloadRequest || Expected(c) <= 1 then
        var contribution := if m.kind == PayloadRequest then m.merged else 1;
        var a := AccumulateInput(e, m.rank, m.payload, false, contribution);
        if (m.kind == PayloadRequest && a.directCount >= Expected(c)) || c.requesters <= a.requesterBitmap then
          var (d, counted) := Commit(c, a.(requesterBitmap := c.requesters), a.direct);
          Effect(d, Committed, counted)
        else Effect(a, Recorded, false)
      else Effect(e, Violation, false)
  }

  /** try_enter_repair switches the entry to the repair path for good. */
  function EnterRepair(e: Entry): Entry {
    if e.done then e else e.(repairMode := true)
  }
}
