/** The credit entry of protocol/responder.c with its accumulators updated in
    place, proved to compute the functions of ResponderModel. */
module Responder {
  import opened Prelude
  import opened Reduction
  import opened ResponderModel

  class CreditEntry {
    var committed: bool
    var done: bool
    var repairMode: bool
    var op: Op
    var requesterBitmap: set<nat>
    var repairBitmap: set<nat>
    var directCount: nat
    var repairCount: nat
    const direct: array<Int32>
    const repair: array<Int32>
    const result: array<Int32>

    ghost function State(): (e: Entry)
      reads this, direct, repair, result
    {
      Entry(committed, done, repairMode, op, requesterBitmap, repairBitmap, directCount, repairCount,
            direct[..], repair[..], result[..])
    }

    ghost predicate Ok(c: Call)
      reads this, direct, repair, result
    {
      && direct != repair && direct != result && repair != result
      && CallOk(c) && EntryOk(c, State())
    }

    /** The entry as reserve_credit leaves it. */
    constructor (c: Call)
      requires CallOk(c)
      ensures Ok(c) && State() == Reserved(c)
      ensures fresh(direct) && fresh(repair) && fresh(result)
    {
      committed, done, repairMode, op := false, false, false, c.op;
      requesterBitmap, repairBitmap := {}, {};
      directCount, repairCount := 0, 0;
      direct := new Int32[c.width](_ => 0);
      repair := new Int32[c.width](_ => 0);
      result := new Int32[c.width](_ => 0);
    }

    /** An entry nobody uses yet. */
    constructor Zeroed(width: nat)
      ensures direct.Length == repair.Length == result.Length == width
      ensures direct != repair && direct != result && repair != result
      ensures fresh(direct) && fresh(repair) && fresh(result)
    {
      committed, done, repairMode, op := false, false, false, Nop;
      requesterBitmap, repairBitmap := {}, {};
      directCount, repairCount := 0, 0;
      direct := new Int32[width](_ => 0);
      repair := new Int32[width](_ => 0);
      result := new Int32[width](_ => 0);
    }

    /** The entry as find_entry leaves it. */
    method Clear()
      requires direct.Length == repair.Length == result.Length
      requires direct != repair && direct != result && repair != result
      modifies this, direct, repair, result
      ensures State() == ZeroEntry(direct.Length)
    {
      committed, done, repairMode, op := false, false, false, Nop;
      requesterBitmap, repairBitmap := {}, {};
      directCount, repairCount := 0, 0;
      for w := 0 to direct.Length
        invariant forall j :: 0 <= j < w ==> direct[j] == repair[j] == result[j] == 0
        modifies direct, repair, result
      {
        direct[w], repair[w], result[w] := 0, 0, 0;
      }
    }

    /** The word loop of accumulate_requester_input. */
    method AccumulateWords(accum: array<Int32>, first: bool, payload: Payload)
      requires |payload| <= accum.Length
      modifies accum
      ensures accum[..] == Accumulate(op, first, old(accum[..]), payload)
    {
      if (op == Max || op == Min) && first {
        for w := 0 to |payload|
          invariant forall j :: 0 <= j < w ==> accum[j] == payload[j]
          invariant forall j :: w <= j < accum.Length ==> accum[j] == old(accum[j])
        {
          accum[w] := payload[w];
        }
        return;
      }
      for w := 0 to |payload|
        invariant forall j :: 0 <= j < w ==> accum[j] == CombineWord(op, old(accum[j]), payload[j])
        invariant forall j :: w <= j < accum.Length ==> accum[j] == old(accum[j])
      {
        if op == Max {
          if payload[w] > accum[w] { accum[w] := payload[w]; }
        } else if op == Min {
          if payload[w] < accum[w] { accum[w] := payload[w]; }
        } else {
          accum[w] := WrapAdd(accum[w], payload[w]);
        }
      }
    }

    /** accumulate_requester_input. */
    method AccumulateRequesterInput(c: Call, rank: nat, payload: Payload, isRepair: bool, contribution: nat)
      requires Ok(c) && |payload| <= c.width
      modifies this, direct, repair
      ensures State() == AccumulateInput(old(State()), rank, payload, isRepair, contribution)
      ensures result[..] == old(result[..])
    {
      var amount := if contribution == 0 then 1 else contribution;
      if isRepair {
        var priorCount := repairCount;
        if rank in repairBitmap { return; }
        repairBitmap := repairBitmap + {rank};
        repairCount := repairCount + amount;
        AccumulateWords(repair, priorCount == 0, payload);
      } else {
        var priorCount := directCount;
        if rank in requesterBitmap { return; }
        requesterBitmap := requesterBitmap + {rank};
        directCount := directCount + amount;
        AccumulateWords(direct, priorCount == 0, payload);
      }
    }

    /** build_result_payload, written into the entry's result buffer. */
    method BuildResultPayload(c: Call, remote: Payload)
      requires Ok(c) && |remote| <= c.width
      modifies result
      ensures result[..] == BuildResult(c, remote)
    {
      for w := 0 to c.width
        invariant forall j :: 0 <= j < w ==> result[j] == if c.local.Some? then c.local.value[j] else 0
      {
        result[w] := if c.local.Some? then c.local.value[w] else 0;
      }
      for w := 0 to |remote|
        invariant forall j :: 0 <= j < w ==> result[j] == BuildResult(c, remote)[j]
        invariant forall j :: w <= j < c.width ==> result[j] == if c.local.Some? then c.local.value[j] else 0
      {
        if c.op == Max {
          result[w] := if c.local.Some? && c.local.value[w] > remote[w] then c.local.value[w] else remote[w];
        } else if c.op == Min {
          result[w] := if c.local.Some? && c.local.value[w] < remote[w] then c.local.value[w] else remote[w];
        } else {
          result[w] := WrapAdd(result[w], remote[w]);
        }
      }
    }

    /** mark_entry_done: 1 exactly when the entry becomes done. */
    method MarkEntryDone(c: Call) returns (counted: bool)
      modifies this`done
      ensures (State(), counted) == MarkDone(c, old(State()))
    {
      if done || !committed || !(c.requesters <= requesterBitmap) {
        return false;
      }
      done := true;
      return true;
    }

    /** commit_entry_response, as far as the entry is concerned. */
    method CommitEntryResponse(c: Call, remote: Payload) returns (counted: bool)
      requires Ok(c) && |remote| <= c.width
      modifies this, result
      ensures (State(), counted) == Commit(c, old(State()), remote)
    {
      BuildResultPayload(c, remote);
      committed := true;
      counted := MarkEntryDone(c);
    }

    /** try_enter_repair: the switch is made before the token budget is consulted. */
    method TryEnterRepair()
      modifies this`repairMode
      ensures State() == EnterRepair(old(State()))
    {
      if !done {
        repairMode := true;
      }
    }

    /** A requester or repair input that passed the checks of OnArrival. */
    method OnInput(c: Call, m: Arrival) returns (action: Action, counted: bool)
      requires Ok(c) && |m.payload| <= c.width
      requires m.dtypeSupported && !Refused(c, State(), m) && (committed ==> m.repair)
      requires NothingAccumulated(State()) ==> op == m.op
      requires !(m.aggregated && m.kind == ControlAck && m.payload == [])
      modifies this, direct, repair, result
      ensures Ok(c)
      ensures Effect(State(), action, counted) == OnRequest(c, old(State()), m)
    {
      if m.repair {
        AccumulateRequesterInput(c, m.rank, m.payload, true, 1);
        if !(c.requesters <= repairBitmap) {
          return Recorded, false;
        }
        requesterBitmap := c.requesters;
        if committed {
          counted := MarkEntryDone(c);
          return Acknowledged, counted;
        }
        repairBitmap := c.requesters;
        counted := CommitEntryResponse(c, repair[..]);
        return Committed, counted;
      }
      if m.kind != PayloadRequest && Expected(c) > 1 {
        return Violation, false;
      }
      AccumulateRequesterInput(c, m.rank, m.payload, false, if m.kind == PayloadRequest then m.merged else 1);
      if (m.kind == PayloadRequest && directCount >= Expected(c)) || c.requesters <= requesterBitmap {
        requesterBitmap := c.requesters;
        counted := CommitEntryResponse(c, direct[..]);
        return Committed, counted;
      }
      return Recorded, false;
    }

    /** The request branch of respond_mode. */
    method OnArrival(c: Call, m: Arrival) returns (action: Action, counted: bool)
      requires Ok(c) && |m.payload| <= c.width
      modifies this, direct, repair, result
      ensures Ok(c)
      ensures Effect(State(), action, counted) == OnRequest(c, old(State()), m)
    {
      if !m.dtypeSupported {
        return Dropped, false;
      }
      if !committed && directCount == 0 && repairCount == 0 {
        op := m.op;
      }
      var full := m.merged == Expected(c);
      if !m.repair && Expected(c) > 1 && !m.aggregated && m.depth == 0 {
        return Dropped, false;
      }
      if !m.repair && m.kind == PayloadRequest && ((!m.aggregated && Expected(c) > 1) || (m.aggregated && !full)) {
        return Dropped, false;
      }
      if !m.repair && m.aggregated && repairMode {
        return Dropped, false;
      }
      if m.aggregated && m.kind == ControlAck && !full {
        return Dropped, false;
      }
      if m.aggregated && m.kind == ControlAck && |m.payload| == 0 {
        requesterBitmap := c.requesters;
        if committed {
          counted := MarkEntryDone(c);
          return Acknowledged, counted;
        }
        counted := CommitEntryResponse(c, []);
        return Committed, counted;
      }
      if committed && !m.repair {
        return Replayed, false;
      }
      action, counted := OnInput(c, m);
    }
  }
}
