/** What each arrival does to a credit entry, case by case, and exactly which runs
    commit or complete it (protocol/responder.c). */
module ResponderEffects {
  import opened Prelude
  import opened Reduction
  import opened ResponderModel
  import opened ResponderHistory

  /** A normal packet that speaks for every requester: an aggregated one with the full
      count, as long as the entry is not on the repair path; with one requester also a
      packet of its own.  A router may also have left an acknowledgement unaggregated. */
  predicate SpeaksForAll(c: Call, e: Entry, m: Arrival) {
    if m.aggregated then m.merged == Expected(c) && !e.repairMode
    else Expected(c) == 1 || (m.kind == ControlAck && m.depth > 0)
  }

  /** A repair request that counts as its sender's: an aggregated acknowledgement does not. */
  predicate JoinsRepair(c: Call, m: Arrival) {
    && m.repair && m.dtypeSupported
    && (m.aggregated && m.kind == ControlAck ==> m.payload != [] && m.merged == Expected(c))
  }

  /** A normal packet whose payload the entry adds to its own reduction. */
  predicate JoinsNormal(c: Call, e: Entry, m: Arrival) {
    && !m.repair && m.dtypeSupported && SpeaksForAll(c, e, m) && !IsControlAck(m)
    && !e.committed && (m.kind == PayloadRequest || Expected(c) == 1)
  }

  /** Every arrival is of exactly one kind, and what it is decides the action. */
  lemma ActionIs(c: Call, e: Entry, m: Arrival)
    requires CallOk(c) && EntryOk(c, e) && |m.payload| <= c.width
    ensures var a := OnRequest(c, e, m).action;
            && (FullAck(c, e, m) ==> a == if e.committed then Acknowledged else Committed)
            && (JoinsRepair(c, m) ==> a == if !(c.requesters <= e.repairBitmap + {m.rank}) then Recorded
                                           else if e.committed then Acknowledged else Committed)
            && (JoinsNormal(c, e, m) ==> a in {Recorded, Committed})
            && (var input := m.dtypeSupported && !m.repair && SpeaksForAll(c, e, m) && !IsControlAck(m);
                && (a == Replayed <==> input && e.committed)
                && (a == Violation <==> input && !e.committed && !JoinsNormal(c, e, m)))
            && (a == Dropped <==> !m.dtypeSupported || (if m.repair then !JoinsRepair(c, m) && !FullAck(c, e, m)
                                                        else !SpeaksForAll(c, e, m)))
  {
  }

  /** An entry that has nothing yet takes the operation of each packet it can read; no other
      packet and no other entry changes its operation. */
  lemma OperationIs(c: Call, e: Entry, m: Arrival)
    requires CallOk(c) && EntryOk(c, e) && |m.payload| <= c.width
    ensures OnRequest(c, e, m).entry.op ==
            if m.dtypeSupported && !e.committed && e.directCount == e.repairCount == 0 then m.op else e.op
  {
  }

  /** What is dropped, replayed or a violation changes nothing else. */
  lemma OthersChangeNothing(c: Call, e: Entry, m: Arrival)
    requires CallOk(c) && EntryOk(c, e) && |m.payload| <= c.width
    requires OnRequest(c, e, m).action in {Dropped, Replayed, Violation}
    ensures OnRequest(c, e, m).entry.(op := e.op) == e && !OnRequest(c, e, m).counted
  {
  }

  /** A repair request adds its sender to the repair set, and its payload, once per sender,
      to the repair reduction.  With the last requester's the entry is done; if it was not
      committed it commits that reduction. */
  lemma RepairJoins(c: Call, e: Entry, m: Arrival)
    requires CallOk(c) && EntryOk(c, e) && |m.payload| <= c.width && JoinsRepair(c, m)
    ensures var f, ranks := OnRequest(c, e, m).entry, e.repairBitmap + {m.rank};
            && (!(c.requesters <= ranks) ==> f.repairBitmap == ranks && f == e.(
                 op := f.op, repairBitmap := ranks, repairCount := f.repairCount, repair := f.repair))
            && f.repairCount == e.repairCount + (if m.rank in e.repairBitmap then 0 else 1)
            && (m.rank in e.repairBitmap ==> f.repair == e.repair)
            && (m.rank !in e.repairBitmap ==> f.repair == Accumulate(f.op, e.repairCount == 0, e.repair, m.payload))
            && (c.requesters <= ranks ==> f.done && f.requesterBitmap >= c.requesters)
            && (f.committed <==> e.committed || c.requesters <= ranks)
            && (!e.committed && c.requesters <= ranks ==> f.result == BuildResult(c, f.repair))
            && f.direct == e.direct && f.directCount == e.directCount
  {
  }

  /** A normal packet adds its payload, once per sender, to the entry's own reduction, and
      commits that reduction as soon as it has the full count or every requester. */
  lemma NormalJoins(c: Call, e: Entry, m: Arrival)
    requires CallOk(c) && EntryOk(c, e) && |m.payload| <= c.width && JoinsNormal(c, e, m)
    ensures var f := OnRequest(c, e, m).entry;
            var first := m.rank !in e.requesterBitmap;
            var amount := if m.kind == ControlAck || m.merged == 0 then 1 else m.merged;
            && f.directCount == e.directCount + (if first then amount else 0)
            && (!first ==> f.direct == e.direct)
            && (first ==> f.direct == Accumulate(f.op, e.directCount == 0, e.direct, m.payload))
            && (f.committed <==> c.requesters <= e.requesterBitmap + {m.rank}
                                 || (m.kind == PayloadRequest && f.directCount >= Expected(c)))
            && (f.committed ==> f.done && f.requesterBitmap == c.requesters && f.result == BuildResult(c, f.direct))
            && (!f.committed ==> f == e.(op := f.op, requesterBitmap := e.requesterBitmap + {m.rank},
                                         directCount := f.directCount, direct := f.direct))
            && f.repair == e.repair && f.repairBitmap == e.repairBitmap
  {
    NormalTaken(c, e, m);
    hide OnRequest, EntryOk, Accumulate, BuildResult, JoinsNormal;
  }

  /** A normal packet that joins goes through the accumulator, and perhaps a commit. */
  lemma NormalTaken(c: Call, e: Entry, m: Arrival)
    requires CallOk(c) && EntryOk(c, e) && |m.payload| <= c.width && JoinsNormal(c, e, m)
    ensures var e1 := if e.directCount == e.repairCount == 0 then e.(op := m.op) else e;
            var a := AccumulateInput(e1, m.rank, m.payload, false, if m.kind == PayloadRequest then m.merged else 1);
            OnRequest(c, e, m).entry ==
            if c.requesters <= a.requesterBitmap || (m.kind == PayloadRequest && a.directCount >= Expected(c))
            then Commit(c, a.(requesterBitmap := c.requesters), a.direct).0 else a
  {
    hide AccumulateInput, Commit;
  }

  /** A full acknowledgement completes the entry; one that was not committed commits the
      responder's own data. */
  lemma AckCompletes(c: Call, e: Entry, m: Arrival)
    requires CallOk(c) && EntryOk(c, e) && |m.payload| <= c.width && FullAck(c, e, m)
    ensures var f := OnRequest(c, e, m).entry;
            && f.done && f == e.(op := f.op, committed := true, done := true, result := f.result,
                                 requesterBitmap := f.requesterBitmap)
            && (!e.done ==> f.requesterBitmap == c.requesters)
            && f.result == if e.committed then e.result else BuildResult(c, [])
  {
  }

  // -------------------------------------------------------------------- runs

  ghost predicate Switched(evs: seq<Event>) {
    exists i :: 0 <= i < |evs| && evs[i] == SwitchToRepair
  }

  /** The ranks whose repair requests the events bring. */
  ghost function Repairers(c: Call, evs: seq<Event>): set<nat> {
    set i | 0 <= i < |evs| && evs[i].Request? && JoinsRepair(c, evs[i].arrival) :: evs[i].arrival.rank
  }

  ghost predicate AllRepaired(c: Call, evs: seq<Event>) {
    Repairers(c, evs) != {} && c.requesters <= Repairers(c, evs)
  }

  lemma OneMoreEvent(c: Call, evs: seq<Event>)
    requires evs != []
    ensures var before, last := evs[..|evs| - 1], evs[|evs| - 1];
            && (Switched(evs) <==> Switched(before) || last == SwitchToRepair)
            && Repairers(c, evs) == Repairers(c, before)
               + (if last.Request? && JoinsRepair(c, last.arrival) then {last.arrival.rank} else {})
  {
    var before, last := evs[..|evs| - 1], evs[|evs| - 1];
    assert forall i :: 0 <= i < |evs| ==> evs[i] == if i < |before| then before[i] else last;
    if Switched(before) {
      var i :| 0 <= i < |before| && before[i] == SwitchToRepair;
      assert evs[i] == SwitchToRepair;
    }
    if last == SwitchToRepair { assert evs[|evs| - 1] == SwitchToRepair; }
    forall r | r in Repairers(c, before) ensures r in Repairers(c, evs) {
      var i :| 0 <= i < |before| && before[i].Request? && JoinsRepair(c, before[i].arrival)
          && before[i].arrival.rank == r;
      assert evs[i] == before[i];
    }
    if last.Request? && JoinsRepair(c, last.arrival) {
      assert evs[|evs| - 1].arrival.rank in Repairers(c, evs);
    }
  }

  /** A full acknowledgement among the events, on the repair path or before any switch to it. */
  ghost predicate AckAt(c: Call, evs: seq<Event>, i: nat)
    requires i < |evs|
  {
    && evs[i].Request?
    && var m := evs[i].arrival;
       m.dtypeSupported && IsControlAck(m) && m.merged == Expected(c) && (m.repair || !Switched(evs[..i]))
  }

  /** A normal packet among the events that brings all inputs: an aggregated one with the
      full count before any switch, or the only requester's own. */
  ghost predicate MasterAt(c: Call, evs: seq<Event>, i: nat)
    requires i < |evs|
  {
    && evs[i].Request?
    && var m := evs[i].arrival;
       && !m.repair && if m.aggregated then m.merged == Expected(c) && !Switched(evs[..i]) else Expected(c) == 1
  }

  ghost predicate Acked(c: Call, evs: seq<Event>) {
    exists i :: 0 <= i < |evs| && AckAt(c, evs, i)
  }

  ghost predicate Mastered(c: Call, evs: seq<Event>) {
    exists i :: 0 <= i < |evs| && MasterAt(c, evs, i)
  }

  lemma AckedSteps(c: Call, evs: seq<Event>)
    requires evs != []
    ensures Acked(c, evs) <==> Acked(c, evs[..|evs| - 1]) || AckAt(c, evs, |evs| - 1)
    ensures Mastered(c, evs) <==> Mastered(c, evs[..|evs| - 1]) || MasterAt(c, evs, |evs| - 1)
  {
    var before := evs[..|evs| - 1];
    forall i | 0 <= i < |before|
      ensures AckAt(c, evs, i) <==> AckAt(c, before, i)
      ensures MasterAt(c, evs, i) <==> MasterAt(c, before, i)
    {
      assert before[..i] == evs[..i];
    }
    if Acked(c, before) {
      var i :| 0 <= i < |before| && AckAt(c, before, i);
      assert AckAt(c, evs, i);
    }
    if Mastered(c, before) {
      var i :| 0 <= i < |before| && MasterAt(c, before, i);
      assert MasterAt(c, evs, i);
    }
  }

  /** What an unfinished entry remembers of a run. */
  ghost predicate Remembers(c: Call, evs: seq<Event>, e: Entry) {
    e.repairBitmap == Repairers(c, evs) && (e.repairMode <==> Switched(evs))
  }

  lemma {:induction false} PushRun(c: Call, evs: seq<Event>)
    requires CallOk(c) && EventsOk(c, evs)
    ensures var e := Run(c, SelfCommitted(c), evs);
            && e.committed
            && (e.done <==> AllRepaired(c, evs) || Acked(c, evs))
            && (!e.done ==> Remembers(c, evs, e))
  {
    if evs != [] {
      var before, last := evs[..|evs| - 1], evs[|evs| - 1];
      PushRun(c, before);
      OneMoreEvent(c, evs);
      AckedSteps(c, evs);
      PushStep(c, Run(c, SelfCommitted(c), before), last);
      assert before == evs[..|evs| - 1];
    }
  }

  lemma PushStep(c: Call, e: Entry, ev: Event)
    requires CallOk(c) && EntryOk(c, e) && EventOk(c, ev) && e.committed
    ensures var f := Step(c, e, ev);
            && f.committed && (e.done ==> f.done)
            && (!e.done ==>
                  && (ev.Request? ==> f.repairMode == e.repairMode)
                  && (ev == SwitchToRepair ==> f.repairMode && !f.done && f.repairBitmap == e.repairBitmap)
                  && (ev.Request? && JoinsRepair(c, ev.arrival) ==>
                        && (f.done <==> c.requesters <= e.repairBitmap + {ev.arrival.rank})
                        && f.repairBitmap == e.repairBitmap + {ev.arrival.rank})
                  && (ev.Request? && !JoinsRepair(c, ev.arrival) ==>
                        f.repairBitmap == e.repairBitmap && (f.done <==> FullAck(c, e, ev.arrival))))
  {
  }

  /** Exactly when the offset of a push call is done, over every run and whatever arrives:
      every requester's repair request came, or a full acknowledgement did, as a repair
      request or before the offset was put on the repair path. */
  lemma PushDoneIff(c: Call, evs: seq<Event>)
    requires CallOk(c) && EventsOk(c, evs)
    ensures Run(c, SelfCommitted(c), evs).done <==> AllRepaired(c, evs) || Acked(c, evs)
  {
    PushRun(c, evs);
  }

  /** The packets of a pull message carry payload. */
  ghost predicate Payloads(evs: seq<Event>) {
    forall i :: 0 <= i < |evs| ==>
      (evs[i].Request? ==> evs[i].arrival.kind == PayloadRequest && evs[i].arrival.dtypeSupported)
  }

  lemma {:induction false} PullRun(c: Call, evs: seq<Event>)
    requires CallOk(c) && EventsOk(c, evs) && Payloads(evs)
    ensures var e := Run(c, Reserved(c), evs);
            && (e.committed <==> AllRepaired(c, evs) || Mastered(c, evs))
            && (!e.committed ==> Remembers(c, evs, e) && e.requesterBitmap == {} && e.directCount == 0)
  {
    if evs != [] {
      var before, last := evs[..|evs| - 1], evs[|evs| - 1];
      PullRun(c, before);
      OneMoreEvent(c, evs);
      AckedSteps(c, evs);
      assert last.Request? ==> last.arrival.kind == PayloadRequest && last.arrival.dtypeSupported;
      PullStep(c, Run(c, Reserved(c), before), last);
    }
  }

  /** The next event of a pull offset, as far as committing goes. */
  ghost predicate PullMoves(c: Call, e: Entry, ev: Event, f: Entry) {
    && (!f.committed ==> f.requesterBitmap == {} && f.directCount == 0)
    && (f.repairMode <==> e.repairMode || ev == SwitchToRepair)
    && match ev
       case SwitchToRepair => !f.committed && f.repairBitmap == e.repairBitmap
       case Request(m) =>
         if m.repair then
           && (f.committed <==> c.requesters <= e.repairBitmap + {m.rank})
           && (!f.committed ==> f.repairBitmap == e.repairBitmap + {m.rank})
         else
           && f.repairBitmap == e.repairBitmap
           && (f.committed <==> if m.aggregated then m.merged == Expected(c) && !e.repairMode else Expected(c) == 1)
  }

  lemma PullStep(c: Call, e: Entry, ev: Event)
    requires CallOk(c) && EntryOk(c, e) && EventOk(c, ev)
    requires ev.Request? ==> ev.arrival.kind == PayloadRequest && ev.arrival.dtypeSupported
    requires !e.committed ==> e.requesterBitmap == {} && e.directCount == 0
    ensures e.committed ==> Step(c, e, ev).committed
    ensures !e.committed ==> PullMoves(c, e, ev, Step(c, e, ev))
  {
    if e.committed {
      CommittedResultIsFinal(c, e, ev);
    } else if ev.Request? {
      PullTakes(c, e, ev.arrival);
    }
  }

  lemma PullTakes(c: Call, e: Entry, m: Arrival)
    requires CallOk(c) && EntryOk(c, e) && |m.payload| <= c.width && m.kind == PayloadRequest && m.dtypeSupported
    requires !e.committed && e.requesterBitmap == {} && e.directCount == 0
    ensures PullMoves(c, e, Request(m), OnRequest(c, e, m).entry)
  {
    hide OnRequest, BuildResult, Accumulate;
    ActionIs(c, e, m);
    RequestKeepsMode(c, e, m);
    if JoinsRepair(c, m) {
      RepairJoins(c, e, m);
    } else if JoinsNormal(c, e, m) {
      NormalJoins(c, e, m);
    } else {
      OthersChangeNothing(c, e, m);
    }
  }

  /** Exactly when the offset of a pull call commits, over every run and whatever payload
      requests arrive: every requester's repair request came, or a packet with all inputs
      did before the offset was put on the repair path. */
  lemma PullCommitsIff(c: Call, evs: seq<Event>)
    requires CallOk(c) && EventsOk(c, evs) && Payloads(evs)
    ensures Run(c, Reserved(c), evs).committed <==> AllRepaired(c, evs) || Mastered(c, evs)
  {
    PullRun(c, evs);
  }
}
