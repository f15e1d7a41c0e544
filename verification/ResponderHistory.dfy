/** Runs of one credit entry: whatever arrives, in whatever order and however
    often, the entry commits at most once, from one accumulator, with the exact
    reduction. */
module ResponderHistory {
  import opened Prelude
  import opened Reduction
  import opened ResponderModel

  datatype Event = Request(arrival: Arrival) | SwitchToRepair

  ghost predicate EventOk(c: Call, ev: Event) {
    ev.Request? ==> |ev.arrival.payload| <= c.width
  }

  ghost function Step(c: Call, e: Entry, ev: Event): (r: Entry)
    requires CallOk(c) && EntryOk(c, e)
    requires EventOk(c, ev)
    ensures EntryOk(c, r)
  {
    match ev
    case Request(m) => OnRequest(c, e, m).entry
    case SwitchToRepair => EnterRepair(e)
  }

  /** No event changes a committed result, and none commits an entry twice. */
  lemma CommittedResultIsFinal(c: Call, e: Entry, ev: Event)
    requires CallOk(c) && EntryOk(c, e) && EventOk(c, ev)
    requires e.committed
    ensures Step(c, e, ev).committed && Step(c, e, ev).result == e.result
    ensures ev.Request? ==> OnRequest(c, e, ev.arrival).action != Committed
  {
  }

  /** The handler reports an entry as newly done exactly when it goes from not done to done. */
  lemma DoneIsCountedOnce(c: Call, e: Entry, m: Arrival)
    requires CallOk(c) && EntryOk(c, e) && |m.payload| <= c.width
    ensures OnRequest(c, e, m).counted <==> !e.done && OnRequest(c, e, m).entry.done
    ensures e.done ==> OnRequest(c, e, m).entry.done
  {
  }

  /** The switch: an entry that is not done is on the repair path from then on, and nothing
      else about it changes. */
  lemma SwitchSetsMode(e: Entry)
    ensures EnterRepair(e).repairMode <==> e.repairMode || !e.done
    ensures EnterRepair(e).(repairMode := e.repairMode) == e
  {
  }

  /** Requests neither switch an entry to the repair path nor back. */
  lemma RequestKeepsMode(c: Call, e: Entry, m: Arrival)
    requires CallOk(c) && EntryOk(c, e) && |m.payload| <= c.width
    ensures OnRequest(c, e, m).entry.repairMode == e.repairMode
  {
  }

  /** The one normal packet that repair mode lets through: with a single requester, an
      unaggregated one for an entry not yet committed, unless it repeats an input
      that was not enough to commit. */
  predicate LetThrough(c: Call, e: Entry, m: Arrival) {
    && m.dtypeSupported && !m.aggregated && Expected(c) <= 1 && !e.committed
    && (m.rank !in e.requesterBitmap || c.requesters <= e.requesterBitmap
        || (m.kind == PayloadRequest && e.directCount >= Expected(c)))
  }

  /** Repair mode is an atomic path switch: a normal packet that arrives afterwards
      leaves the entry as it was, but for the operation an empty entry takes from each
      packet, exactly when it is not the one let through. */
  lemma LateMasterChangesNothing(c: Call, e: Entry, m: Arrival)
    requires CallOk(c) && EntryOk(c, e) && |m.payload| <= c.width
    requires e.repairMode && !m.repair
    ensures OnRequest(c, e, m).entry.(op := e.op) == e <==> !LetThrough(c, e, m)
    ensures !LetThrough(c, e, m) ==> !OnRequest(c, e, m).counted && OnRequest(c, e, m).action != Committed
  {
  }

  /** An aggregated header-only acknowledgement with the full count, for an entry that is
      not on the repair path, unless it is itself a repair request. */
  predicate FullAck(c: Call, e: Entry, m: Arrival) {
    m.dtypeSupported && IsControlAck(m) && m.merged == Expected(c) && (m.repair || !e.repairMode)
  }

  /** Exactly when a normal packet acknowledges a committed entry.  The last
      conjunct matters: with a single requester the fan-in is 1 everywhere, the
      routers pass the request on without marking it aggregated, and the
      acknowledgement of a push offset is answered with a replay instead of
      being counted; only repair can complete such an offset. */
  lemma NormalAcknowledgementCounts(c: Call, e: Entry, m: Arrival)
    requires CallOk(c) && EntryOk(c, e) && |m.payload| <= c.width
    requires e.committed && !e.done && !m.repair && m.dtypeSupported
    ensures OnRequest(c, e, m).entry.done
       <==> m.aggregated && m.kind == ControlAck && m.payload == [] && m.merged == Expected(c) && !e.repairMode
  {
  }

  lemma SingleRequesterPushNeedsRepair(c: Call, rank: nat)
    requires CallOk(c) && c.requesters == {rank}
    ensures var ack := Arrival(rank, false, false, 0, 0, ControlAck, c.op, true, []);
            var e := SelfCommitted(c);
            && OnRequest(c, e, ack) == Effect(e, Replayed, false)
            && OnRequest(c, e, ack.(repair := true)).entry.done
  {
  }

  /** What the arrivals of a pull message may be.  Repair requests carry the
      requester's own input; a full master carries the reduction over all
      requesters; a single requester's packet arrives unaggregated. */
  ghost predicate Honest(c: Call, inputs: Inputs, bound: nat, ev: Event)
    requires Shaped(inputs, c.width)
  {
    ev.Request? ==>
      var m := ev.arrival;
      && m.op == c.op && m.dtypeSupported && |m.payload| == c.width
      && (m.repair ==> !m.aggregated && m.rank in c.requesters && m.payload == inputs(m.rank))
      && m.kind == PayloadRequest
      && (!m.repair && m.aggregated && m.merged == Expected(c) ==>
            m.payload == Fold(c.op, inputs, c.width, c.requesters, bound))
      && (!m.repair && !m.aggregated && Expected(c) == 1 ==> c.requesters == {m.rank} && m.payload == inputs(m.rank))
  }

  ghost predicate Zeroed(p: Payload) {
    forall i :: 0 <= i < |p| ==> p[i] == 0
  }

  ghost predicate EntryInv(c: Call, inputs: Inputs, bound: nat, e: Entry)
    requires CallOk(c) && Shaped(inputs, c.width)
  {
    && EntryOk(c, e)
    && e.op == c.op
    && e.repairBitmap <= c.requesters
    && (e.repairCount == 0 <==> e.repairBitmap == {})
    && (e.repairBitmap == {} ==> Zeroed(e.repair))
    && (e.repairBitmap != {} ==> e.repair == Fold(c.op, inputs, c.width, e.repairBitmap, bound))
    && (!e.committed ==> e.directCount == 0 && e.requesterBitmap == {} && Zeroed(e.direct))
    && (e.committed ==> e.done && e.result == BuildResult(c, Fold(c.op, inputs, c.width, c.requesters, bound)))
  }

  lemma RepairInputFolds(c: Call, inputs: Inputs, bound: nat, e: Entry, rank: nat)
    requires CallOk(c) && Shaped(inputs, c.width) && EntryInv(c, inputs, bound, e)
    requires rank in c.requesters && rank < bound
    ensures var a := AccumulateInput(e, rank, inputs(rank), true, 1);
            && a.repairBitmap == e.repairBitmap + {rank}
            && a.repair == Fold(c.op, inputs, c.width, a.repairBitmap, bound)
  {
    var p := inputs(rank);
    if rank in e.repairBitmap {
      assert e.repairBitmap + {rank} == e.repairBitmap;
    } else {
      FoldSingleton(c.op, inputs, c.width, rank, bound);
      if e.repairBitmap == {} {
        assert e.repairBitmap + {rank} == {rank};
        FirstContribution(c.op, e.repair, p);
      } else {
        FoldUnion(c.op, inputs, c.width, e.repairBitmap, {rank}, bound);
        assert e.repair[..|p|] == e.repair;
      }
    }
  }

  lemma {:induction false} RepairKeepsEntry(c: Call, inputs: Inputs, bound: nat, e: Entry, m: Arrival)
    requires CallOk(c) && Shaped(inputs, c.width) && EntryInv(c, inputs, bound, e)
    requires forall r :: r in c.requesters ==> r < bound
    requires Honest(c, inputs, bound, Request(m)) && m.repair
    ensures EntryInv(c, inputs, bound, OnRequest(c, e, m).entry)
  {
    RepairInputFolds(c, inputs, bound, e, m.rank);
    var a := AccumulateInput(e, m.rank, m.payload, true, 1);
    assert a.repairBitmap <= c.requesters;
    assert e.(op := m.op) == e;
    if c.requesters <= a.repairBitmap {
      assert a.repairBitmap == c.requesters;
    }
  }

  lemma {:induction false} NormalKeepsEntry(c: Call, inputs: Inputs, bound: nat, e: Entry, m: Arrival)
    requires CallOk(c) && Shaped(inputs, c.width) && EntryInv(c, inputs, bound, e)
    requires forall r :: r in c.requesters ==> r < bound
    requires Honest(c, inputs, bound, Request(m)) && !m.repair
    ensures EntryInv(c, inputs, bound, OnRequest(c, e, m).entry)
  {
    assert e.(op := m.op) == e;
    if !Refused(c, e, m) && !e.committed {
      FirstContribution(c.op, e.direct, m.payload);
      if !m.aggregated {
        FoldSingleton(c.op, inputs, c.width, m.rank, bound);
      }
      var a := AccumulateInput(e, m.rank, m.payload, false, m.merged);
      assert a.direct == m.payload;
      assert OnRequest(c, e, m).action == Committed;
    }
  }

  /** One honest event keeps the entry exact, on the normal and on the repair path. */
  lemma {:induction false} EventKeepsEntry(c: Call, inputs: Inputs, bound: nat, e: Entry, ev: Event)
    requires CallOk(c) && Shaped(inputs, c.width) && EntryInv(c, inputs, bound, e)
    requires forall r :: r in c.requesters ==> r < bound
    requires Honest(c, inputs, bound, ev)
    ensures EntryInv(c, inputs, bound, Step(c, e, ev))
  {
    match ev
    case Request(m) => if m.repair {
      RepairKeepsEntry(c, inputs, bound, e, m);
    } else {
      NormalKeepsEntry(c, inputs, bound, e, m);
    }
    case SwitchToRepair =>
  }

  ghost predicate EventsHonest(c: Call, inputs: Inputs, bound: nat, evs: seq<Event>)
    requires Shaped(inputs, c.width)
  {
    EventsOk(c, evs) && forall i :: 0 <= i < |evs| ==> Honest(c, inputs, bound, evs[i])
  }

  ghost predicate EventsOk(c: Call, evs: seq<Event>) {
    forall i :: 0 <= i < |evs| ==> EventOk(c, evs[i])
  }

  ghost function Run(c: Call, e: Entry, evs: seq<Event>): (r: Entry)
    requires CallOk(c) && EntryOk(c, e) && EventsOk(c, evs)
    ensures EntryOk(c, r)
  {
    if evs == [] then e else Step(c, Run(c, e, evs[..|evs| - 1]), evs[|evs| - 1])
  }

  lemma {:induction false} RunKeepsEntry(c: Call, inputs: Inputs, bound: nat, evs: seq<Event>)
    requires CallOk(c) && Shaped(inputs, c.width)
    requires c.requesters != {} && forall r :: r in c.requesters ==> r < bound
    requires EventsHonest(c, inputs, bound, evs)
    ensures EntryInv(c, inputs, bound, Run(c, Reserved(c), evs))
  {
    if evs != [] {
      var before := evs[..|evs| - 1];
      RunKeepsEntry(c, inputs, bound, before);
      EventKeepsEntry(c, inputs, bound, Run(c, Reserved(c), before), evs[|evs| - 1]);
    }
  }

  /** Over every run of honest events: each word of a committed result is the maximum, the
      minimum or the sum modulo 2^32 of every requester's word and the responder's own,
      each taken once, and a non-empty repair accumulator is the reduction over exactly
      the ranks of its bitmap. */
  lemma CommittedResultIsExact(c: Call, inputs: Inputs, bound: nat, own: nat, evs: seq<Event>)
    requires CallOk(c) && Shaped(inputs, c.width) && own !in c.requesters
    requires c.requesters != {} && forall r :: r in c.requesters ==> r < bound
    requires EventsHonest(c, inputs, bound, evs)
    ensures var e := Run(c, Reserved(c), evs);
            && (e.committed ==> e.done && HoldsReduction(c, inputs, bound, own, e.result))
            && (e.repairBitmap != {} ==> e.repair == Fold(c.op, inputs, c.width, e.repairBitmap, bound))
  {
    RunKeepsEntry(c, inputs, bound, evs);
    ResultIsReduction(c, inputs, bound, own);
  }
}
