/** The switch of an offset to the repair path, in a whole call: what makes it, that it
    is for good, and that it closes the normal path (protocol/responder.c). */
module ResponderRepair {
  import opened Prelude
  import opened Reduction
  import opened ResponderModel
  import RH = ResponderHistory
  import opened ResponderCallModel
  import opened ResponderCallHistory

  /** The event puts offset `o` on the repair path: an AGG_MISS for it before it is
      committed, or its timer running out before it is done. */
  ghost predicate Switches(s: State, ev: Event, o: nat)
    requires o in s.cells
  {
    match ev
    case AggMiss(x) => x == o && !s.cells[o].entry.committed && !s.cells[o].entry.done
    case Timeout(due) => o in due && !s.cells[o].entry.done
    case _ => false
  }

  function OnRepairPath(cell: Cell): Cell {
    cell.(entry := cell.entry.(repairMode := true))
  }

  /** AGG_MISS for an issued, uncommitted offset puts that one on the repair path, and
      changes nothing else; for any other offset it changes nothing at all. */
  lemma MissSwitches(c: Config, s: State, o: nat)
    requires ConfigOk(c) && Inv(c, s) && o < s.next
    ensures o in s.cells
    ensures OnAggMiss(c, s, o) ==
            if s.cells[o].entry.committed || s.cells[o].entry.done then s
            else s.(cells := s.cells[o := OnRepairPath(s.cells[o])])
  {
    hide CountInv, MatchingInv, PendingInv, CellsOk, CellInv, EnterRepair;
    RH.SwitchSetsMode(s.cells[o].entry);
    assert s.cells[o := s.cells[o]] == s.cells;
    assert s.cells[o].(entry := s.cells[o].entry) == s.cells[o];
  }

  /** When timers run out, exactly the due offsets that are not done are on the repair path
      afterwards, and nothing else changes. */
  lemma TimeoutSwitches(s: State, due: set<nat>)
    ensures var t := OnTimeout(s, due);
            && t == s.(cells := t.cells) && t.cells.Keys == s.cells.Keys
            && forall o :: o in s.cells ==>
                 t.cells[o] == if o in due && !s.cells[o].entry.done then OnRepairPath(s.cells[o]) else s.cells[o]
  {
    hide EnterRepair;
    forall o | o in s.cells
      ensures OnTimeout(s, due).cells[o] ==
              if o in due && !s.cells[o].entry.done then OnRepairPath(s.cells[o]) else s.cells[o]
    {
      RH.SwitchSetsMode(s.cells[o].entry);
    }
  }

  /** An offset is on the repair path after an event exactly if it was before or the event
      puts it there. */
  lemma ModeIff(c: Config, s: State, ev: Event, o: nat)
    requires ConfigOk(c) && Inv(c, s) && EventOk(c, s, ev) && o in s.cells
    ensures var t := Step(c, s, ev);
            && o in t.cells
            && (t.cells[o].entry.repairMode <==> s.cells[o].entry.repairMode || Switches(s, ev, o))
  {
    hide CountInv, MatchingInv, CellsOk, CellInv, ResponderModel.OnRequest, Issue, EnterRepair, Flush;
    match ev
    case IssueCredit => IssueIsStable(c, s, o);
    case Request(x, m) =>
      CellOk(c, s, x);
      RH.RequestKeepsMode(CallAt(c, x), s.cells[x].entry, m);
    case AggMiss(x) => MissSwitches(c, s, x);
    case Timeout(due) => TimeoutSwitches(s, due);
    case FlushPending => FlushSendsAllHere(c, s);
  }

  /** The switch is for good, whatever happens in the call. */
  lemma {:induction false} ModeStays(c: Config, traffic: Traffic, s: State, t: State, n: nat, o: nat)
    requires ConfigOk(c) && Inv(c, s) && RunsTo(c, traffic, s, t, n) && o in s.cells && s.cells[o].entry.repairMode
    ensures Inv(c, t) && o in t.cells && t.cells[o].entry.repairMode
    decreases n
  {
    hide ConfigOk, Inv, CellsOk, Step, EventOk, Allowed;
    if n > 0 {
      var mid, ev :| RunsTo(c, traffic, s, mid, n - 1) && StepsTo(c, traffic, mid, ev, t);
      ModeStays(c, traffic, s, mid, n - 1, o);
      StepKeeps(c, mid, ev);
      ModeIff(c, mid, ev, o);
    }
  }

  /** A normal request on the repair path, but for the one let through, leaves the whole call
      as it was, except for the operation an empty entry takes from each packet. */
  lemma ClosedToNormal(c: Config, t: State, o: nat, m: Arrival)
    requires ConfigOk(c) && Inv(c, t) && o in t.cells && o < t.next && t.cells[o].entry.repairMode
    requires !m.repair && |m.payload| <= c.width
    requires !RH.LetThrough(CallAt(c, o), t.cells[o].entry, m)
    ensures var u := ResponderCallModel.OnRequest(c, t, o, m);
            && o in u.cells
            && u == t.(cells := t.cells[o := u.cells[o]])
            && u.cells[o] == t.cells[o].(entry := t.cells[o].entry.(op := u.cells[o].entry.op))
  {
    hide MatchingInv, PendingInv, CellInv, RH.LetThrough, ResponderModel.OnRequest;
    CellOk(c, t, o);
    var e := t.cells[o].entry;
    RH.LateMasterChangesNothing(CallAt(c, o), e, m);
    var eff := ResponderModel.OnRequest(CallAt(c, o), e, m);
    assert eff.entry == e.(op := eff.entry.op);
    NoEnd(c, t, o, m);
  }

  lemma NoEnd(c: Config, t: State, o: nat, m: Arrival)
    requires ConfigOk(c) && Inv(c, t) && o in t.cells && t.cells[o].entry.repairMode
    requires !m.repair && |m.payload| <= c.width
    requires !RH.LetThrough(CallAt(c, o), t.cells[o].entry, m)
    ensures EntryOk(CallAt(c, o), t.cells[o].entry)
    ensures var eff := ResponderModel.OnRequest(CallAt(c, o), t.cells[o].entry, m);
            ReachesEndTest(t.cells[o].entry.committed, m, eff.action) && t.done >= c.total ==> t.endSent
  {
    hide MatchingInv, PendingInv;
    CellOk(c, t, o);
    if t.done >= c.total && !t.cells[o].entry.committed {
      NotAllDone(c, t, o);
    }
  }

  lemma NotAllDone(c: Config, t: State, o: nat)
    requires Inv(c, t) && o in t.cells && !t.cells[o].entry.committed && ConfigOk(c)
    ensures t.done < c.total
  {
    hide MatchingInv, PendingInv;
    assert !t.cells[o].entry.done;
    assert Done(t.cells) <= Range(0, t.next) - {o};
    SubsetSize(Done(t.cells), Range(0, t.next) - {o});
    RangeSize(0, t.next);
  }

  /** An atomic path switch: once an AGG_MISS or a timeout has put an offset on the repair
      path, then after any further run a normal request for it, but for the one let
      through, changes nothing in the call. */
  lemma SwitchClosesNormalPath(c: Config, traffic: Traffic, s: State, ev: Event, t: State, o: nat,
                               m: Arrival)
    requires ConfigOk(c) && Reachable(c, traffic, s) && CellsOk(c, s.cells) && EventOk(c, s, ev)
    requires o in s.cells && Switches(s, ev, o) && Leads(c, traffic, Step(c, s, ev), t) && !m.repair
    requires |m.payload| <= c.width
    ensures o in t.cells && t.cells[o].entry.repairMode
    ensures CellsOk(c, t.cells)
    ensures !RH.LetThrough(CallAt(c, o), t.cells[o].entry, m) ==>
              var u := ResponderCallModel.OnRequest(c, t, o, m);
              && o in u.cells
              && u == t.(cells := t.cells[o := u.cells[o]])
              && u.cells[o] == t.cells[o].(entry := t.cells[o].entry.(op := u.cells[o].entry.op))
  {
    hide ConfigOk, Inv, RunsTo, Step, EventOk, CellsOk, RH.LetThrough, ResponderCallModel.OnRequest, Switches;
    ReachableInv(c, traffic, s);
    StepKeeps(c, s, ev);
    ModeIff(c, s, ev, o);
    var n: nat :| RunsTo(c, traffic, Step(c, s, ev), t, n);
    ModeStays(c, traffic, Step(c, s, ev), t, n, o);
    TableIs(c, t);
    if !RH.LetThrough(CallAt(c, o), t.cells[o].entry, m) {
      ClosedToNormal(c, t, o, m);
    }
  }

  lemma TableIs(c: Config, t: State)
    requires Inv(c, t)
    ensures CellsOk(c, t.cells) && forall o: nat :: o in t.cells <==> o < t.next
  {
  }
}
