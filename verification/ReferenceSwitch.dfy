/** The slot machine of reference/arbor-switch-node.cc, and how it differs from
    the router's (protocol/router.c). */
module ReferenceSwitch {
  import opened Prelude
  import opened Reduction
  import R = RouterModel

  datatype Slot = Slot(
    valid: bool,
    forwarded: bool,
    fanin: nat,
    count: nat,
    op: Op,
    isControl: bool,
    ownerPort: nat,
    ownerOffset: nat,
    payloadLen: nat,
    ceSeen: bool,
    master: Option<R.Request>)

  const BLANK: Slot := Slot(false, false, 0, 0, Nop, false, 0, 0, 0, false, None)

  const COUNT_LIMIT: nat := 0x1_0000

  datatype Verdict = Miss | Counted(slot: Slot, complete: bool)

  /** The contribution count, cut to 16 bits. */
  function Contribution(q: R.Request): nat {
    if q.aggregated then q.merged % COUNT_LIMIT else 1
  }

  /** HandleUpstream's decision for a request with fan-in `f` above one. */
  function Decide(s: Slot, q: R.Request, f: nat): Verdict {
    var contribution := Contribution(q);
    var control := |q.payload| == 0;
    var ownerMatch := s.valid && s.ownerPort == q.port && s.ownerOffset == q.offset;
    var shapeOk := s.fanin == 0 || (s.op == q.op && s.isControl == control && s.fanin == f
                                    && s.payloadLen == |q.payload|);
    var overflow := s.fanin != 0 && (s.forwarded || s.count + contribution > s.fanin);
    if !ownerMatch || !shapeOk || overflow || contribution == 0 then Miss
    else
      var bound := if s.fanin == 0
        then s.(fanin := f, op := q.op, isControl := control, payloadLen := |q.payload|, master := Some(q)) else s;
      var counted := bound.(ceSeen := bound.ceSeen || q.ecn == R.Ce,
                            count := (bound.count + contribution) % COUNT_LIMIT);
      Counted(counted, counted.count == counted.fanin)
  }

  /** What leaves the switch. */
  datatype Output = Passed(request: R.Request) | Master(request: R.Request) | AggMiss(port: nat, offset: nat) | Kept

  /** A slot holds a header as soon as it has counted something. */
  ghost predicate SlotOk(s: Slot) {
    (s.fanin != 0 || s.count != 0) ==>
      && s.valid && s.master.Some? && s.master.value.depth > 0
      && s.master.value.port == s.ownerPort && s.master.value.offset == s.ownerOffset
  }

  /** A slot that has only met requests within their fan-ins never counts past its own,
      and is closed exactly when it has met it. */
  ghost predicate WithinFanin(s: Slot) {
    s.count <= s.fanin && (s.fanin != 0 ==> s.count > 0 && (s.count == s.fanin ==> s.forwarded))
  }

  /** The accounts of one request: it is passed on, reported as missed, or its contribution
      is in the slot's count, and the count leaves in a master exactly when it meets
      the fan-in the request names.  `through` says whether it is one to pass on. */
  ghost predicate Accounted(before: Slot, after: Slot, q: R.Request, f: nat, through: bool, output: Output)
    requires q.depth > 0
  {
    match output
    case Passed(p) => through && p == q.(depth := q.depth - 1) && after == before.(forwarded := after.forwarded)
    case AggMiss(port, offset) => !through && after == before && port == q.port && offset == q.offset
    case Kept => !through && Counts(before, after, q, f) && after.count != f && after.forwarded == before.forwarded
    case Master(m) =>
      && !through && Counts(before, after, q, f) && after.forwarded && (before.fanin != 0 ==> !before.forwarded)
      && m.aggregated && m.merged == after.count == f && m.port == q.port && m.offset == q.offset
      && after.master.Some? && m.payload == after.master.value.payload && m.depth + 1 == after.master.value.depth
      && (m.ecn == R.Ce <==> before.ceSeen || q.ecn == R.Ce)
  }

  ghost predicate Counts(before: Slot, after: Slot, q: R.Request, f: nat) {
    && before.valid && after.valid && after.fanin == f && after.count == (before.count + Contribution(q)) % COUNT_LIMIT
    && before.ownerPort == after.ownerPort == q.port && before.ownerOffset == after.ownerOffset == q.offset
    && after.ceSeen == (before.ceSeen || q.ecn == R.Ce)
  }

  class Switch {
    const controlAggregation: bool
    const slots: array<Slot>
    var allocPtr: nat

    ghost predicate Valid()
      reads this, slots
    {
      allocPtr < slots.Length && forall i :: 0 <= i < slots.Length ==> SlotOk(slots[i])
    }

    constructor (size: nat, controlAggregation: bool)
      requires size > 0
      ensures this.controlAggregation == controlAggregation && Valid() && fresh(slots) && slots.Length == size
              && forall i :: 0 <= i < size ==> slots[i] == BLANK
    {
      this.controlAggregation := controlAggregation;
      slots := new Slot[size](_ => BLANK);
      allocPtr := 0;
    }

    /** A normal credit at a LEVEL switch: take the next slot in rotation, whatever it holds. */
    method BindCredit(port: nat, offset: nat) returns (index: nat)
      requires Valid()
      modifies this`allocPtr, slots
      ensures Valid() && index == old(allocPtr) && allocPtr == (index + 1) % slots.Length
      ensures slots[..] == old(slots[..])[index := BLANK.(valid := true, ownerPort := port, ownerOffset := offset)]
    {
      index := allocPtr;
      slots[index] := BLANK.(valid := true, ownerPort := port, ownerOffset := offset);
      allocPtr := (allocPtr + 1) % slots.Length;
    }

    /** Requests that pass by the slot: those with nobody to wait for, and header-only ones
        if control requests are not aggregated. */
    predicate PassesBy(q: R.Request, f: nat)
      reads this
    {
      f == 1 || (|q.payload| == 0 && !controlAggregation)
    }

    /** HandleUpstream for a request with a stack: pass it, count it, or report a miss.
        Nothing but the slot on top of its stack changes; the request is accounted for;
        a slot stays within its fan-in if the request does; and wherever the C router holds
        the same slot, both do the same and go on holding the same. */
    method HandleUpstream(q: R.Request, loc: nat, f: nat) returns (output: Output)
      requires Valid() && q.depth > 0
      modifies slots
      ensures Valid()
      ensures var i := loc % slots.Length; slots[..] == old(slots[..])[i := slots[i]]
      ensures var i := loc % slots.Length; Accounted(old(slots[i]), slots[i], q, f, PassesBy(q, f), output)
      ensures var i := loc % slots.Length;
              WithinFanin(old(slots[i])) && 0 < f && Contribution(q) <= f < COUNT_LIMIT ==> WithinFanin(slots[i])
      ensures var i := loc % slots.Length; !PassesBy(q, f) ==> Mirrors(old(slots[i]), slots[i], q, f, output)
    {
      hide Mirrors;
      var i := loc % slots.Length;
      if f == 1 || (|q.payload| == 0 && !controlAggregation) {
        if slots[i].valid && !slots[i].forwarded && slots[i].ownerPort == q.port && slots[i].ownerOffset == q.offset {
          slots[i] := slots[i].(forwarded := true);
        }
        return Passed(q.(depth := q.depth - 1));
      }
      output := Count(i, q, f);
    }

    /** The count-or-miss half of HandleUpstream, on slot `i`. */
    method Count(i: nat, q: R.Request, f: nat) returns (output: Output)
      requires Valid() && q.depth > 0 && i < slots.Length
      modifies slots
      ensures Valid() && slots[..] == old(slots[..])[i := slots[i]]
      ensures Accounted(old(slots[i]), slots[i], q, f, false, output)
      ensures WithinFanin(old(slots[i])) && 0 < f && Contribution(q) <= f < COUNT_LIMIT ==> WithinFanin(slots[i])
      ensures Mirrors(old(slots[i]), slots[i], q, f, output)
    {
      hide Mirrors, Accounted, WithinFanin, SlotOk;
      ghost var before := slots[i];
      var contribution := if q.aggregated then q.merged % COUNT_LIMIT else 1;
      var control := |q.payload| == 0;
      var s := slots[i];
      if s.fanin != 0 { KnownOk(s); }
      if !s.valid || s.ownerPort != q.port || s.ownerOffset != q.offset || contribution == 0
         || (s.fanin != 0 && (s.op != q.op || s.isControl != control || s.fanin != f || s.payloadLen != |q.payload|))
         || (s.fanin != 0 && (s.forwarded || s.count + contribution > s.fanin)) {
        output := AggMiss(q.port, q.offset);
        Settled(before, slots[i], q, f, output);
        return;
      }
      if s.fanin == 0 {
        s := s.(fanin := f, op := q.op, isControl := control, payloadLen := |q.payload|, master := Some(q));
      }
      s := s.(ceSeen := s.ceSeen || q.ecn == R.Ce, count := (s.count + contribution) % COUNT_LIMIT);
      output := Kept;
      if s.count == s.fanin {
        var header := s.master.value;
        output := Master(header.(aggregated := true, merged := s.count, depth := header.depth - 1,
                                 ecn := if s.ceSeen then R.Ce else R.Ect0));
        s := s.(forwarded := true);
      }
      Settled(before, s, q, f, output);
      slots[i] := s;
    }
  }

  lemma KnownOk(s: Slot)
    requires SlotOk(s) && s.fanin != 0
    ensures s.master.Some? && s.master.value.depth > 0
  {
  }

  /** The C router, wherever it holds the same slot and the request respects its fan-in,
      does the same and goes on holding the same. */
  ghost predicate Mirrors(before: Slot, after: Slot, q: R.Request, f: nat, output: Output) {
    forall a: R.Slot, dtype: nat ::
      Twin(a, before) && Modest(Offer(q, f), dtype) && (a.count > 0 ==> a.dtype == dtype) ==>
        RouterStep(a, Offer(q, f)).1 == OutcomeOf(output) && Twin(RouterStep(a, Offer(q, f)).0, after)
  }

  // ------------------------------------------------------- the two machines

  /** The same slot in both machines. */
  ghost predicate Twin(a: R.Slot, b: Slot) {
    && a.ownerValid == b.valid && a.port == b.ownerPort && a.offset == b.ownerOffset && a.forwarded == b.forwarded
    && a.count == b.count && a.count < 0x100 && (a.count == 0 <==> b.fanin == 0) && (a.count == 0 ==> !a.forwarded)
    && (a.count > 0 ==> a.fanin == b.fanin < 0x100 && a.op == b.op && a.words == b.payloadLen
                        && b.isControl == (a.words == 0) && a.count <= a.fanin)
  }

  /** Requests the C router and the switch see alike: a count that fits, and the slot's datatype. */
  ghost predicate Comparable(a: R.Slot, q: R.Request, f: nat) {
    0 < f < 0x100 && (q.aggregated ==> q.merged < COUNT_LIMIT) && (a.count > 0 ==> q.dtype == a.dtype)
  }

  /** The switch decides as the router does, except that it does not check the first
      contribution against the fan-in: the two differ exactly on a first
      contribution larger than the fan-in. */
  lemma DecisionsAgreeIff(a: R.Slot, b: Slot, q: R.Request, f: nat)
    requires Twin(a, b) && Comparable(a, q, f) && a.ownerValid && a.port == q.port && a.offset == q.offset
    ensures (R.SlotAccept(a, q, f).Accept? <==> Decide(b, q, f).Counted?)
            <==> !(a.count == 0 && R.Contribution(q) > f)
  {
  }

  /** Whenever both count a request they agree on completion, and stay twins. */
  lemma CountingKeepsTwins(a: R.Slot, b: Slot, q: R.Request, f: nat)
    requires Twin(a, b) && Comparable(a, q, f)
    requires R.SlotAccept(a, q, f).Accept? && Decide(b, q, f).Counted?
    ensures R.SlotAccept(a, q, f).complete == Decide(b, q, f).complete
    ensures Twin(R.MergeEcn(R.SlotAccept(a, q, f).slot, q.ecn), Decide(b, q, f).slot)
  {
  }

  /** The oversized first contribution: the router reports a miss; the switch counts
      past the fan-in, so its slot can never complete. */
  lemma OversizedFirstSticks(a: R.Slot, b: Slot, q: R.Request, f: nat, later: R.Request, g: nat)
    requires Twin(a, b) && Comparable(a, q, f) && a.ownerValid && a.port == q.port && a.offset == q.offset
    requires a.count == 0 && R.Contribution(q) > f
    ensures R.SlotAccept(a, q, f) == R.Reject(R.BadContribution)
    ensures var stuck := Decide(b, q, f); stuck.Counted? && !stuck.complete && Decide(stuck.slot, later, g) == Miss
  {
  }

  // One request at a slot, with the fan-in it names.
  datatype Offer = Offer(request: R.Request, fanin: nat)

  datatype Outcome = Missed | Held | Completed(count: nat)

  function RouterStep(a: R.Slot, o: Offer): (R.Slot, Outcome) {
    match R.SlotAccept(a, o.request, o.fanin)
    case Reject(_) => (a, Missed)
    case Accept(c, complete) =>
      var merged := R.MergeEcn(c, o.request.ecn);
      if complete then (merged.(forwarded := true), Completed(c.count)) else (merged, Held)
  }

  function SwitchStep(b: Slot, o: Offer): (Slot, Outcome) {
    match Decide(b, o.request, o.fanin)
    case Miss => (b, Missed)
    case Counted(c, complete) => if complete then (c.(forwarded := true), Completed(c.count)) else (c, Held)
  }

  function RouterRun(a: R.Slot, os: seq<Offer>): seq<Outcome>
    decreases |os|
  {
    if os == [] then [] else [RouterStep(a, os[0]).1] + RouterRun(RouterStep(a, os[0]).0, os[1..])
  }

  function SwitchRun(b: Slot, os: seq<Offer>): seq<Outcome>
    decreases |os|
  {
    if os == [] then [] else [SwitchStep(b, os[0]).1] + SwitchRun(SwitchStep(b, os[0]).0, os[1..])
  }

  /** A request whose count respects the fan-in it names, of the datatype in use. */
  ghost predicate Modest(o: Offer, dtype: nat) {
    0 < o.fanin < 0x100 && R.Contribution(o.request) <= o.fanin && o.request.dtype == dtype
  }

  lemma StepsAgree(a: R.Slot, b: Slot, o: Offer, dtype: nat)
    requires Twin(a, b) && Modest(o, dtype) && (a.count > 0 ==> a.dtype == dtype)
    ensures RouterStep(a, o).1 == SwitchStep(b, o).1
    ensures Twin(RouterStep(a, o).0, SwitchStep(b, o).0)
            && (RouterStep(a, o).0.count > 0 ==> RouterStep(a, o).0.dtype == dtype)
  {
    var q := o.request;
    if a.ownerValid && a.port == q.port && a.offset == q.offset {
      DecisionsAgreeIff(a, b, q, o.fanin);
      if R.SlotAccept(a, q, o.fanin).Accept? { CountingKeepsTwins(a, b, q, o.fanin); }
    }
  }

  function OutcomeOf(output: Output): Outcome {
    match output
    case Master(m) => Completed(m.merged)
    case Kept => Held
    case _ => Missed
  }

  /** The header a completed slot sends. */
  function MasterOf(s: Slot): R.Request
    requires s.master.Some? && s.master.value.depth > 0
  {
    s.master.value.(aggregated := true, merged := s.count, depth := s.master.value.depth - 1,
                    ecn := if s.ceSeen then R.Ce else R.Ect0)
  }

  /** What a step that counts or misses as decided amounts to. */
  lemma Settled(b: Slot, after: Slot, q: R.Request, f: nat, output: Output)
    requires SlotOk(b) && q.depth > 0 && SwitchStep(b, Offer(q, f)) == (after, OutcomeOf(output)) && !output.Passed?
    requires output.AggMiss? ==> output == AggMiss(q.port, q.offset)
    requires output.Master? ==> after.master.Some? && after.master.value.depth > 0 && output.request == MasterOf(after)
    ensures SlotOk(after) && Accounted(b, after, q, f, false, output) && Mirrors(b, after, q, f, output)
    ensures WithinFanin(b) && 0 < f && Contribution(q) <= f < COUNT_LIMIT ==> WithinFanin(after)
  {
    hide Mirrors;
    Mirrored(b, after, q, f, output);
  }

  lemma Mirrored(b: Slot, after: Slot, q: R.Request, f: nat, output: Output)
    requires SwitchStep(b, Offer(q, f)) == (after, OutcomeOf(output))
    ensures Mirrors(b, after, q, f, output)
  {
    hide RouterStep, SwitchStep, Twin, Modest;
    forall a: R.Slot, dtype: nat | Twin(a, b) && Modest(Offer(q, f), dtype) && (a.count > 0 ==> a.dtype == dtype)
      ensures RouterStep(a, Offer(q, f)).1 == OutcomeOf(output) && Twin(RouterStep(a, Offer(q, f)).0, after)
    {
      StepsAgree(a, b, Offer(q, f), dtype);
    }
  }

  /** On every run of requests whose counts respect their fan-ins, the two machines
      miss, hold and complete at the same requests with the same counts. */
  lemma {:induction false} TwinsAgreeOnRuns(a: R.Slot, b: Slot, os: seq<Offer>, dtype: nat)
    requires Twin(a, b) && (a.count > 0 ==> a.dtype == dtype) && forall i :: 0 <= i < |os| ==> Modest(os[i], dtype)
    ensures RouterRun(a, os) == SwitchRun(b, os)
    decreases |os|
  {
    hide RouterStep, SwitchStep, Twin, Modest;
    if os != [] {
      StepsAgree(a, b, os[0], dtype);
      TwinsAgreeOnRuns(RouterStep(a, os[0]).0, SwitchStep(b, os[0]).0, os[1..], dtype);
    }
  }
}
