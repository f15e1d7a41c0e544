/** Runs of one router: what a slot holds after any sequence of credits and
    requests, and how long a slot survives the round-robin allocator. */
module RouterHistory {
  import opened Prelude
  import opened Reduction
  import opened RouterModel

  datatype Event = Credit(port: nat, offset: nat, responder: nat) | Data(request: Request, bypass: bool)

  ghost predicate EventOk(e: Event, width: nat) {
    e.Data? ==> WellFormed(e.request, width)
  }

  ghost predicate EventsOk(es: seq<Event>, width: nat) {
    forall i :: 0 <= i < |es| ==> EventOk(es[i], width)
  }

  ghost function Step(s: RouterState, e: Event, width: nat): (r: RouterState)
    requires Valid(s, width) && EventOk(e, width)
    ensures Valid(r, width) && |r.slots| == |s.slots|
  {
    match e
    case Credit(port, offset, responder) => BindCredit(s, port, offset, responder, width).0
    case Data(q, bypass) => HandleRequest(s, bypass, q, width).0
  }

  ghost function Run(s: RouterState, es: seq<Event>, width: nat): (r: RouterState)
    requires Valid(s, width) && EventsOk(es, width)
    ensures Valid(r, width) && |r.slots| == |s.slots|
  {
    if es == [] then s else Step(Run(s, es[..|es| - 1], width), es[|es| - 1], width)
  }

  /** Does this event bind a new slot?  A credit that still has one does not. */
  ghost predicate Binds(s: RouterState, e: Event) {
    e.Credit? && FindSlot(s.slots, e.port, e.offset, e.responder, 0) == |s.slots|
  }

  /** Does this event hand slot `i` to a new credit? */
  ghost predicate Rebinds(s: RouterState, e: Event, i: nat) {
    Binds(s, e) && s.alloc == i
  }

  /** Does slot `i` take in this event's request? */
  ghost predicate Takes(s: RouterState, e: Event, i: nat, width: nat)
    requires EventOk(e, width)
  {
    && e.Data? && !e.bypass && e.request.depth > 0
    && var level := e.request.depth - 1;
    && e.request.locs[level] == i < |s.slots|
    && i != AGG_INDEX_UNUSED
    && e.request.fanins[level] != 1
    && NormalKind(e.request)
    && SlotAccept(s.slots[i], e.request, e.request.fanins[level]).Accept?
  }

  /** The requests slot `i` took in since it was last bound, in order. */
  ghost function History(s: RouterState, es: seq<Event>, i: nat, width: nat): (h: seq<Request>)
    requires Valid(s, width) && EventsOk(es, width)
  {
    if es == [] then []
    else
      var before := es[..|es| - 1];
      var e := es[|es| - 1];
      var t := Run(s, before, width);
      if Rebinds(t, e, i) then []
      else if Takes(t, e, i, width) then History(s, before, i, width) + [e.request]
      else History(s, before, i, width)
  }

  ghost function TotalContribution(h: seq<Request>): nat {
    if h == [] then 0 else TotalContribution(h[..|h| - 1]) + Contribution(h[|h| - 1])
  }

  ghost predicate SameShape(h: seq<Request>) {
    forall i :: 0 <= i < |h| ==> h[i].op == h[0].op && h[i].dtype == h[0].dtype && |h[i].payload| == |h[0].payload|
                                 && h[i].port == h[0].port && h[i].offset == h[0].offset
  }

  ghost function FoldPayloads(h: seq<Request>): (r: Payload)
    requires h != [] && SameShape(h)
    ensures |r| == |h[0].payload|
  {
    if |h| == 1 then h[0].payload
    else
      var before := h[..|h| - 1];
      assert before[0] == h[0];
      Combine(h[0].op, FoldPayloads(before), h[|h| - 1].payload)
  }

  ghost function OrAll(h: seq<Request>): Ecn {
    if h == [] then NotEct else OrEcn(OrAll(h[..|h| - 1]), h[|h| - 1].ecn)
  }

  ghost predicate Carries(h: seq<Request>, e: Ecn) {
    exists i :: 0 <= i < |h| && h[i].ecn == e
  }

  /** The ECN field of a master, for every list of contributions.  It is CE
      when some contribution was CE, and also when both ECT code points met:
      the OR of 01 and 10 is 11. */
  lemma {:induction false} OrAllIsCe(h: seq<Request>)
    ensures OrAll(h) == Ce <==> Carries(h, Ce) || (Carries(h, Ect0) && Carries(h, Ect1))
    ensures OrAll(h) == NotEct <==> forall i :: 0 <= i < |h| ==> h[i].ecn == NotEct
    ensures OrAll(h) == Ect0 ==> Carries(h, Ect0)
    ensures OrAll(h) == Ect1 ==> Carries(h, Ect1)
  {
    if h != [] {
      var before, last := h[..|h| - 1], h[|h| - 1];
      OrAllIsCe(before);
      forall e: Ecn ensures Carries(h, e) <==> Carries(before, e) || last.ecn == e {
        if Carries(before, e) {
          var i :| 0 <= i < |before| && before[i].ecn == e;
          assert h[i].ecn == e;
        }
        if last.ecn == e { assert h[|h| - 1].ecn == e; }
      }
      assert forall i :: 0 <= i < |h| ==> h[i] == if i < |before| then before[i] else last;
    }
  }

  /** With the code points the hosts emit, ECT(0) and CE, the master is CE exactly
      when some contribution was. */
  lemma CeExactlyWhenSomeContributionIs(h: seq<Request>)
    requires forall i :: 0 <= i < |h| ==> h[i].ecn == Ect0 || h[i].ecn == Ce
    ensures OrAll(h) == Ce <==> Carries(h, Ce)
  {
    OrAllIsCe(h);
  }

  /** One ECT(1) contribution beside an ECT(0) one yields a master marked CE that no switch marked. */
  lemma MixedEctReadsAsCe(q: Request)
    ensures var h := [q.(ecn := Ect0), q.(ecn := Ect1)];
            OrAll(h) == Ce && !Carries(h, Ce)
  {
    var h := [q.(ecn := Ect0), q.(ecn := Ect1)];
    assert h[..1] == [q.(ecn := Ect0)];
    assert h[..1][..0] == [];
    assert OrAll(h[..1]) == OrEcn(OrAll([]), Ect0);
  }

  /** What a bound slot must look like, given the requests it took in. */
  ghost predicate Explains(s: RouterState, i: nat, h: seq<Request>, width: nat)
    requires Valid(s, width) && i < |s.slots|
  {
    var slot, row := s.slots[i], s.rows[i];
    if !slot.ownerValid then h == []
    else if h == [] then slot.count == 0 && !slot.forwarded && row == seq(width, _ => 0)
    else
      && SameShape(h) && |h[0].payload| <= width
      && h[0].port == slot.port && h[0].offset == slot.offset
      && slot.op == h[0].op && slot.dtype == h[0].dtype && slot.words == |h[0].payload|
      && slot.count == TotalContribution(h) > 0
      && row[..slot.words] == FoldPayloads(h)
      && slot.master == Some(h[0].(ecn := OrAll(h)))
      && (slot.forwarded <==> slot.count == slot.fanin)
  }

  lemma {:induction false} TakeExplained(s: RouterState, e: Event, i: nat, h: seq<Request>, width: nat)
    requires Valid(s, width) && EventOk(e, width) && i < |s.slots|
    requires Explains(s, i, h, width)
    requires Takes(s, e, i, width)
    ensures Explains(Step(s, e, width), i, h + [e.request], width)
  {
    var q := e.request;
    var t := Step(s, e, width);
    var slot, row := s.slots[i], s.rows[i];
    assert slot.ownerValid;
    if h != [] {
      assert slot.count > 0;
    }
    var row' := t.rows[i];
    if h == [] {
      FirstContribution(q.op, row, q.payload);
    } else {
      assert row'[..slot.words] == Combine(slot.op, row[..slot.words], q.payload);
      assert (h + [q])[0] == h[0];
    }
  }

  /** Nothing but a binding and a request it accepts changes a slot. */
  lemma OtherEventsKeepSlot(s: RouterState, e: Event, i: nat, width: nat)
    requires Valid(s, width) && EventOk(e, width) && i < |s.slots|
    requires !Rebinds(s, e, i) && !Takes(s, e, i, width)
    ensures Step(s, e, width).slots[i] == s.slots[i] && Step(s, e, width).rows[i] == s.rows[i]
  {
  }

  /** The slot waits for answers to exactly this credit of this responder. */
  ghost predicate AwaitsCredit(slot: Slot, port: nat, offset: nat, responder: nat) {
    slot.ownerValid && !slot.forwarded && slot.port == port && slot.offset == offset && slot.responder == responder
  }

  /** A credit always gets a slot that waits for it.  If it had one, nothing changes; if not,
      the next one in rotation is emptied for it, and every other slot is as before. */
  lemma CreditGetsSlot(s: RouterState, port: nat, offset: nat, responder: nat, width: nat)
    requires Valid(s, width)
    ensures var (t, i) := BindCredit(s, port, offset, responder, width);
            && i < |t.slots| == |t.rows| == |s.slots| == |s.rows|
            && AwaitsCredit(t.slots[i], port, offset, responder) && t.slots[i].aggLoc == i
            && if exists j :: 0 <= j < |s.slots| && AwaitsCredit(s.slots[j], port, offset, responder)
               then t == s
               else
                 && i == s.alloc && t.alloc == (if i + 1 == |s.slots| then 0 else i + 1)
                 && t.slots[i].count == 0 && (forall w :: 0 <= w < |t.rows[i]| ==> t.rows[i][w] == 0)
                 && forall j :: 0 <= j < |s.slots| && j != i ==> t.slots[j] == s.slots[j] && t.rows[j] == s.rows[j]
  {
    ModStep(s.alloc, |s.slots|);
    assert forall j :: 0 <= j < |s.slots| ==>
             (OwnedBy(s.slots[j], port, offset, responder) <==> AwaitsCredit(s.slots[j], port, offset, responder));
    var i := BindCredit(s, port, offset, responder, width).1;
    assert SlotValid(BindCredit(s, port, offset, responder, width).0.slots[i], i, width);
  }

  ghost predicate Initial(s: RouterState, width: nat) {
    && Valid(s, width)
    && (forall i :: 0 <= i < |s.slots| ==> s.slots[i] == EMPTY_SLOT)
  }

  /** Slot machine refinement: after any run, every bound slot is the exact
      summary of the requests it took in since it was bound.  The register is
      the reduction of their payloads, the count is the sum of their
      contributions, the master is the first of them with all ECN bits merged,
      and the slot has been forwarded exactly when the count met the fan-in. */
  lemma {:induction false} SlotIsItsHistory(s: RouterState, es: seq<Event>, i: nat, width: nat)
    requires Initial(s, width) && EventsOk(es, width) && i < |s.slots|
    ensures Explains(Run(s, es, width), i, History(s, es, i, width), width)
  {
    if es != [] {
      var before, e := es[..|es| - 1], es[|es| - 1];
      SlotIsItsHistory(s, before, i, width);
      var t := Run(s, before, width);
      var h := History(s, before, i, width);
      if Rebinds(t, e, i) {
      } else if Takes(t, e, i, width) {
        TakeExplained(t, e, i, h, width);
      } else {
        OtherEventsKeepSlot(t, e, i, width);
      }
    }
  }

  /** The slot this request looks for does not exist, or will not take it. */
  ghost predicate Misses(s: RouterState, q: Request)
    requires 0 < q.depth <= |q.locs| == |q.fanins|
  {
    var loc, fanin := q.locs[q.depth - 1], q.fanins[q.depth - 1];
    || loc >= |s.slots|
    || (fanin != 1 && ((q.payloadValid && !q.dataKind) || SlotAccept(s.slots[loc], q, fanin).Reject?))
  }

  /** What leaves the router, in every case.  A request without a level left, and any
      request at a relay, passes unchanged; one with fan-in 1 loses a level; one whose slot
      does not take it is reported; one that is taken leaves nothing behind it, unless its
      slot has then reached its fan-in. */
  lemma OutputIs(s: RouterState, q: Request, bypass: bool, width: nat)
    requires Valid(s, width) && WellFormed(q, width)
    ensures var out := HandleRequest(s, bypass, q, width).1;
            if q.depth == 0 || bypass then out == Forward(q)
            else if Misses(s, q) then out == Miss(q.port, q.offset)
            else if q.fanins[q.depth - 1] == 1 then out == Forward(q.(depth := q.depth - 1))
            else var i := q.locs[q.depth - 1];
                 && Takes(s, Data(q, bypass), i, width)
                 && (out == Absorbed || out.Master?)
                 && (out.Master? <==> Contribution(q) + s.slots[i].count == q.fanins[q.depth - 1])
  {
  }

  /** Over every run, the master that leaves a slot carries everything the slot took in
      since it was bound, the completing request included: the reduction of the payloads,
      the sum of the counts, which is the fan-in, the merged ECN bits, and otherwise the
      header of the first one, marked as aggregated and one level up. */
  lemma MasterIsItsHistory(s: RouterState, es: seq<Event>, q: Request, width: nat)
    requires Initial(s, width) && EventsOk(es + [Data(q, false)], width) && EventsOk(es, width) && WellFormed(q, width)
    requires HandleRequest(Run(s, es, width), false, q, width).1.Master?
    ensures 0 < q.depth <= |q.locs| && q.locs[q.depth - 1] < |s.slots|
    ensures var h := History(s, es + [Data(q, false)], q.locs[q.depth - 1], width);
            && h != [] && h[|h| - 1] == q && SameShape(h) && h[0].depth > 0
            && TotalContribution(h) == q.fanins[q.depth - 1]
            && HandleRequest(Run(s, es, width), false, q, width).1.request ==
               h[0].(payload := FoldPayloads(h), merged := TotalContribution(h), ecn := OrAll(h), aggregated := true,
                     depth := h[0].depth - 1)
  {
    hide HandleRequest, SlotAccept, FoldPayloads, OrAll, SameShape, TotalContribution, Valid;
    var t, e := Run(s, es, width), Data(q, false);
    OutputIs(t, q, false, width);
    var i := q.locs[q.depth - 1];
    var all := es + [e];
    assert all[..|all| - 1] == es;
    SlotIsItsHistory(s, all, i, width);
    MasterIsSlot(t, q, width);
  }

  /** A completed slot holds what its master carries. */
  lemma MasterIsSlot(s: RouterState, q: Request, width: nat)
    requires Valid(s, width) && WellFormed(q, width) && HandleRequest(s, false, q, width).1.Master?
    ensures var (t, out) := HandleRequest(s, false, q, width);
            var i := q.locs[q.depth - 1];
            && i < |t.slots| && t.slots[i].ownerValid && t.slots[i].master.Some? && t.slots[i].words <= |t.rows[i]|
            && t.slots[i].count == q.fanins[q.depth - 1]
            && var m := t.slots[i].master.value;
               && m.depth > 0
               && out.request == m.(payload := t.rows[i][..t.slots[i].words], merged := t.slots[i].count,
                                    aggregated := true, depth := m.depth - 1)
  {
  }

  /** A master leaves a slot once per binding: emitting it freezes the slot, and
      a frozen slot is changed by nothing but the next credit that takes it. */
  lemma MasterFreezesSlot(s: RouterState, e: Event, i: nat, width: nat)
    requires Valid(s, width) && EventOk(e, width) && i < |s.slots|
    requires s.slots[i].forwarded && !Rebinds(s, e, i)
    ensures Step(s, e, width).slots[i] == s.slots[i] && Step(s, e, width).rows[i] == s.rows[i]
    ensures e.Data? && HandleRequest(s, e.bypass, e.request, width).1.Master? ==>
              e.request.locs[e.request.depth - 1] != i
  {
  }

  /** No two live slots belong to the same credit. */
  ghost predicate OwnersDistinct(s: RouterState) {
    forall i, j :: 0 <= i < j < |s.slots| && s.slots[i].ownerValid && !s.slots[i].forwarded ==>
      !OwnedBy(s.slots[j], s.slots[i].port, s.slots[i].offset, s.slots[i].responder)
  }

  lemma {:induction false} OwnersStayDistinct(s: RouterState, es: seq<Event>, width: nat)
    requires Initial(s, width) && EventsOk(es, width)
    ensures OwnersDistinct(Run(s, es, width))
  {
    if es != [] {
      var before, e := es[..|es| - 1], es[|es| - 1];
      OwnersStayDistinct(s, before, width);
      var t := Run(s, before, width);
      var u := Step(t, e, width);
      forall i, j | 0 <= i < j < |u.slots| && u.slots[i].ownerValid && !u.slots[i].forwarded
        ensures !OwnedBy(u.slots[j], u.slots[i].port, u.slots[i].offset, u.slots[i].responder)
      {
        if e.Data? {
        }
      }
    }
  }

  /** How many slots a run binds. */
  ghost function Bindings(s: RouterState, es: seq<Event>, width: nat): nat
    requires Valid(s, width) && EventsOk(es, width)
  {
    if es == [] then 0
    else
      var before := es[..|es| - 1];
      Bindings(s, before, width) + if Binds(Run(s, before, width), es[|es| - 1]) then 1 else 0
  }

  /** How many slots the allocator hands out before it reaches slot `i`. */
  function Distance(alloc: nat, i: nat, size: nat): nat
    requires alloc < size && i < size
  {
    if alloc <= i then i - alloc else size - alloc + i
  }

  /** No event of the run takes slot `i` away from its credit. */
  ghost predicate NeverRebound(s: RouterState, es: seq<Event>, i: nat, width: nat)
    requires Valid(s, width) && EventsOk(es, width)
  {
    es == [] ||
    (var before := es[..|es| - 1];
     NeverRebound(s, before, i, width) && !Rebinds(Run(s, before, width), es[|es| - 1], i))
  }

  lemma {:induction false} SurvivesUntil(s: RouterState, es: seq<Event>, i: nat, width: nat)
    requires Valid(s, width) && EventsOk(es, width) && i < |s.slots|
    requires Bindings(s, es, width) <= Distance(s.alloc, i, |s.slots|)
    ensures NeverRebound(s, es, i, width)
    ensures Distance(Run(s, es, width).alloc, i, |s.slots|) + Bindings(s, es, width) >= Distance(s.alloc, i, |s.slots|)
    decreases |es|
  {
    if es != [] {
      var before, e := es[..|es| - 1], es[|es| - 1];
      SurvivesUntil(s, before, i, width);
      DistanceStep(Run(s, before, width), e, i, width);
    }
  }

  /** Only a binding moves the allocator, and by one slot. */
  lemma DistanceStep(s: RouterState, e: Event, i: nat, width: nat)
    requires Valid(s, width) && EventOk(e, width) && i < |s.slots|
    requires Binds(s, e) ==> Distance(s.alloc, i, |s.slots|) > 0
    ensures !Rebinds(s, e, i)
    ensures Distance(Step(s, e, width).alloc, i, |s.slots|) + (if Binds(s, e) then 1 else 0) ==
            Distance(s.alloc, i, |s.slots|)
  {
    if e.Credit? {
      ModStep(s.alloc, |s.slots|);
    }
  }

  lemma ModStep(a: nat, n: nat)
    requires a < n
    ensures (a + 1) % n == if a + 1 == n then 0 else a + 1
  {
  }

  /** A freshly bound slot keeps its credit through any run with fewer bindings than the table has slots. */
  lemma BoundSlotSurvives(s: RouterState, port: nat, offset: nat, responder: nat, es: seq<Event>, width: nat)
    requires Valid(s, width) && EventsOk(es, width)
    requires FindSlot(s.slots, port, offset, responder, 0) == |s.slots|
    requires Bindings(BindCredit(s, port, offset, responder, width).0, es, width) < |s.slots|
    ensures var (t, i) := BindCredit(s, port, offset, responder, width);
            NeverRebound(t, es, i, width)
  {
    var (t, i) := BindCredit(s, port, offset, responder, width);
    ModStep(s.alloc, |s.slots|);
    SurvivesUntil(t, es, i, width);
  }
}
