/** The router's slot table and registers, updated in place as protocol/router.c
    does, and proved to compute the functions of RouterModel. */
module Router {
  import opened Prelude
  import opened Reduction
  import opened RouterModel

  class Router {
    const slots: array<Slot>
    const agtr: array2<Int32>
    var alloc: nat

    ghost function Width(): nat {
      agtr.Length1
    }

    ghost function Row(i: nat): (r: Payload)
      requires i < agtr.Length0
      reads agtr
      ensures |r| == agtr.Length1
      ensures forall j :: 0 <= j < |r| ==> r[j] == agtr[i, j]
    {
      seq(agtr.Length1, j requires 0 <= j < agtr.Length1 reads agtr => agtr[i, j])
    }

    ghost function State(): (s: RouterState)
      reads this, slots, agtr
    {
      RouterState(slots[..], seq(agtr.Length0, i requires 0 <= i < agtr.Length0 reads agtr => Row(i)), alloc)
    }

    lemma RowsAre(rows: seq<Payload>)
      requires |rows| == agtr.Length0
      requires forall i :: 0 <= i < |rows| ==> |rows[i]| == agtr.Length1
      requires forall i, j :: 0 <= i < |rows| && 0 <= j < agtr.Length1 ==> agtr[i, j] == rows[i][j]
      ensures State().rows == rows
    {
      forall i | 0 <= i < |rows| ensures State().rows[i] == rows[i] {
        assert Row(i) == rows[i];
      }
    }

    ghost predicate Ok()
      reads this, slots, agtr
    {
      slots.Length == agtr.Length0 && Valid(State(), Width())
    }

    constructor (size: nat, width: nat)
      requires 0 < size <= AGG_INDEX_UNUSED
      ensures Ok() && Width() == width && slots.Length == size
      ensures State() == RouterState(seq(size, _ => EMPTY_SLOT), seq(size, _ => seq(width, _ => 0)), 0)
      ensures fresh(slots) && fresh(agtr)
    {
      slots := new Slot[size](_ => EMPTY_SLOT);
      agtr := new Int32[size, width]((_, _) => 0);
      alloc := 0;
      new;
      RowsAre(seq(size, _ => seq(width, _ => 0)));
    }

    /** slot_accumulate_payload: fold a payload into register row `loc`. */
    method AccumulatePayload(loc: nat, op: Op, payload: Payload)
      requires loc < agtr.Length0 && |payload| <= agtr.Length1
      modifies agtr
      ensures Row(loc) == Accumulate(op, false, old(Row(loc)), payload)
      ensures forall i, j :: 0 <= i < agtr.Length0 && 0 <= j < agtr.Length1 && i != loc ==>
              agtr[i, j] == old(agtr[i, j])
    {
      for w := 0 to |payload|
        invariant forall i, j :: 0 <= i < agtr.Length0 && 0 <= j < agtr.Length1 && i != loc ==>
                    agtr[i, j] == old(agtr[i, j])
        invariant forall j :: 0 <= j < w ==> agtr[loc, j] == CombineWord(op, old(agtr[loc, j]), payload[j])
        invariant forall j :: w <= j < agtr.Length1 ==> agtr[loc, j] == old(agtr[loc, j])
      {
        if op == Max {
          if payload[w] > agtr[loc, w] { agtr[loc, w] := payload[w]; }
        } else if op == Min {
          if payload[w] < agtr[loc, w] { agtr[loc, w] := payload[w]; }
        } else {
          agtr[loc, w] := WrapAdd(agtr[loc, w], payload[w]);
        }
      }
    }

    /** The first MAX or MIN contribution overwrites the row. */
    method CopyPayload(loc: nat, payload: Payload)
      requires loc < agtr.Length0 && |payload| <= agtr.Length1
      modifies agtr
      ensures Row(loc) == payload + old(Row(loc))[|payload|..]
      ensures forall i, j :: 0 <= i < agtr.Length0 && 0 <= j < agtr.Length1 && i != loc ==>
              agtr[i, j] == old(agtr[i, j])
    {
      for w := 0 to |payload|
        invariant forall i, j :: 0 <= i < agtr.Length0 && 0 <= j < agtr.Length1 && i != loc ==>
                    agtr[i, j] == old(agtr[i, j])
        invariant forall j :: 0 <= j < w ==> agtr[loc, j] == payload[j]
        invariant forall j :: w <= j < agtr.Length1 ==> agtr[loc, j] == old(agtr[loc, j])
      {
        agtr[loc, w] := payload[w];
      }
    }

    /** find_slot_for_credit: linear scan for the live slot of a credit. */
    method FindSlotForCredit(port: nat, offset: nat, responder: nat) returns (found: nat)
      requires Ok()
      ensures found == if FindSlot(slots[..], port, offset, responder, 0) < slots.Length
                       then FindSlot(slots[..], port, offset, responder, 0) else AGG_INDEX_UNUSED
    {
      var i := 0;
      while i < slots.Length
        invariant 0 <= i <= slots.Length
        invariant FindSlot(slots[..], port, offset, responder, 0) == FindSlot(slots[..], port, offset, responder, i)
      {
        var slot := slots[i];
        if slot.ownerValid && !slot.forwarded && slot.port == port && slot.offset == offset
           && slot.responder == responder {
          return i;
        }
        i := i + 1;
      }
      return AGG_INDEX_UNUSED;
    }

    /** slot_reset_for_credit: forget the old owner and clear the register row. */
    method ResetForCredit(loc: nat, port: nat, offset: nat, responder: nat)
      requires Ok() && loc < slots.Length
      modifies slots, agtr
      ensures slots[..] == old(slots[..])[loc := BoundSlot(port, offset, loc, responder)]
      ensures Row(loc) == seq(agtr.Length1, _ => 0)
      ensures forall i, j :: 0 <= i < agtr.Length0 && 0 <= j < agtr.Length1 && i != loc ==>
              agtr[i, j] == old(agtr[i, j])
    {
      slots[loc] := BoundSlot(port, offset, loc, responder);
      for w := 0 to agtr.Length1
        invariant slots[..] == old(slots[..])[loc := BoundSlot(port, offset, loc, responder)]
        invariant forall i, j :: 0 <= i < agtr.Length0 && 0 <= j < agtr.Length1 && i != loc ==>
                    agtr[i, j] == old(agtr[i, j])
        invariant forall j :: 0 <= j < w ==> agtr[loc, j] == 0
      {
        agtr[loc, w] := 0;
      }
    }

    /** The credit branch of router_multicast_response at an aggregation level:
        the returned index is pushed on the credit's stack. */
    method OnCredit(port: nat, offset: nat, responder: nat) returns (index: nat)
      requires Ok()
      modifies this, slots, agtr
      ensures Ok()
      ensures (State(), index) == BindCredit(old(State()), port, offset, responder, Width())
    {
      index := FindSlotForCredit(port, offset, responder);
      if index == AGG_INDEX_UNUSED {
        index := alloc;
        alloc := (alloc + 1) % slots.Length;
        ResetForCredit(index, port, offset, responder);
        RowsAre(old(State().rows)[index := Row(index)]);
      }
    }

    /** slot_accept, on the slot in the table: 1 complete, 0 counted, -1 refused. */
    method AcceptInto(loc: nat, q: Request, fanin: nat) returns (final: int, reason: Option<FailReason>)
      requires loc < slots.Length
      modifies slots
      ensures match SlotAccept(old(slots[loc]), q, fanin)
              case Reject(why) => final == -1 && reason == Some(why) && slots[..] == old(slots[..])
              case Accept(slot, complete) =>
                final == (if complete then 1 else 0) && reason == None && slots[..] == old(slots[..])[loc := slot]
    {
      var contribution := if q.aggregated then q.merged else 1;
      var slot := slots[loc];
      if !slot.ownerValid || slot.port != q.port || slot.offset != q.offset {
        return -1, Some(Owner);
      }
      if slot.forwarded {
        return -1, Some(Forwarded);
      }
      if fanin == 0 {
        return -1, Some(FaninZero);
      }
      if contribution == 0 || contribution > fanin {
        return -1, Some(BadContribution);
      }
      if slot.count == 0 {
        slot := slot.(fanin := fanin, op := q.op, dtype := q.dtype, words := |q.payload|, master := Some(q));
      } else {
        if slot.fanin != fanin {
          return -1, Some(FaninMismatch);
        }
        if slot.op != q.op || slot.dtype != q.dtype || slot.words != |q.payload| {
          return -1, Some(Shape);
        }
        if contribution + slot.count > slot.fanin {
          return -1, Some(Overflow);
        }
      }
      slot := slot.(count := slot.count + contribution);
      slots[loc] := slot;
      return if slot.count == slot.fanin then 1 else 0, None;
    }

    /** Fold an accepted payload into the slot's register and merge its ECN bits into the master. */
    method FoldContribution(loc: nat, q: Request, slotWasEmpty: bool)
      requires loc < slots.Length == agtr.Length0 && |q.payload| <= agtr.Length1
      modifies slots, agtr
      ensures State() == old(State()).(
                slots := old(slots[..])[loc := MergeEcn(old(slots[loc]), q.ecn)],
                rows := old(State().rows)[loc := Accumulate(old(slots[loc].op), slotWasEmpty, old(Row(loc)),
                                                            q.payload)])
    {
      ghost var before := old(State());
      var op := slots[loc].op;
      if slotWasEmpty && (op == Max || op == Min) && |q.payload| > 0 {
        CopyPayload(loc, q.payload);
      } else {
        AccumulatePayload(loc, op, q.payload);
      }
      RowsAre(before.rows[loc := Row(loc)]);
      slots[loc] := MergeEcn(slots[loc], q.ecn);
    }

    /** Build the completed master from the register and freeze the slot. */
    method EmitMaster(loc: nat) returns (m: Request)
      requires loc < slots.Length == agtr.Length0
      requires slots[loc].master.Some? && slots[loc].master.value.depth > 0 && slots[loc].words <= agtr.Length1
      modifies slots
      ensures m == Finalize(old(slots[loc]), Row(loc))
      ensures State() == old(State()).(slots := old(slots[..])[loc := old(slots[loc]).(forwarded := true)])
    {
      ghost var before := State();
      var slot := slots[loc];
      var words := new Int32[slot.words];
      for w := 0 to slot.words
        invariant forall j :: 0 <= j < w ==> words[j] == agtr[loc, j]
        modifies words
      {
        words[w] := agtr[loc, w];
      }
      assert words[..] == Row(loc)[..slot.words];
      m := slot.master.value;
      m := m.(payload := words[..], aggregated := true, depth := m.depth - 1, merged := slot.count);
      slots[loc] := slot.(forwarded := true);
      RowsAre(before.rows);
    }

    /** The DATA_REQUEST branch of INC. */
    method OnRequest(q: Request, bypass: bool) returns (out: Output)
      requires Ok() && WellFormed(q, Width())
      modifies slots, agtr
      ensures Ok()
      ensures (State(), out) == HandleRequest(old(State()), bypass, q, Width())
    {
      if q.depth == 0 || bypass {
        return Forward(q);
      }
      var level := q.depth - 1;
      var loc, fanin := q.locs[level], q.fanins[level];
      if loc == AGG_INDEX_UNUSED || loc >= slots.Length {
        return Miss(q.port, q.offset);
      }
      if fanin == 1 {
        return Forward(q.(depth := level));
      }
      if q.payloadValid && !q.dataKind {
        return Miss(q.port, q.offset);
      }
      var slotWasEmpty := slots[loc].count == 0;
      ghost var before := State();
      assert before.rows[loc] == Row(loc);
      var final, reason := AcceptInto(loc, q, fanin);
      if final < 0 {
        assert State() == before;
        return Miss(q.port, q.offset);
      }
      FoldContribution(loc, q, slotWasEmpty);
      ghost var expected := HandleRequest(before, bypass, q, Width());
      assert State().rows == expected.0.rows;
      if final == 0 {
        assert State().slots == expected.0.slots;
        return Absorbed;
      }
      assert State().rows[loc] == Row(loc);
      assert expected.1 == Master(Finalize(slots[loc], Row(loc)));
      var m := EmitMaster(loc);
      assert State().slots == expected.0.slots;
      assert State().rows == expected.0.rows;
      return Master(m);
    }
  }
}
