/** What a pull call computes: whenever END is sent, every offset holds the local
    source reduced with each requester's input exactly once. */
module ResponderCallResults {
  import opened Prelude
  import opened Reduction
  import opened ResponderModel
  import RH = ResponderHistory
  import opened ResponderCallModel
  import opened ResponderCallHistory

  ghost predicate Exact(c: Config, inputs: nat -> Inputs, bound: nat, cells: map<nat, Cell>)
    requires InputsOk(c, inputs, bound)
  {
    forall o :: o in cells ==> ExactAt(c, inputs, bound, o, cells[o].entry)
  }

  ghost predicate ExactAt(c: Config, inputs: nat -> Inputs, bound: nat, o: nat, e: Entry)
    requires InputsOk(c, inputs, bound)
  {
    CallOk(CallAt(c, o)) && Shaped(inputs(o), c.width) && RH.EntryInv(CallAt(c, o), inputs(o), bound, e)
  }

  lemma ReservedIsExact(c: Config, inputs: nat -> Inputs, bound: nat, o: nat)
    requires InputsOk(c, inputs, bound)
    ensures ExactAt(c, inputs, bound, o, Reserved(CallAt(c, o)))
  {
    RH.RunKeepsEntry(CallAt(c, o), inputs(o), bound, []);
  }

  lemma RepairIsExact(c: Config, inputs: nat -> Inputs, bound: nat, o: nat, e: Entry)
    requires InputsOk(c, inputs, bound) && ExactAt(c, inputs, bound, o, e)
    ensures ExactAt(c, inputs, bound, o, EnterRepair(e))
  {
    RH.EventKeepsEntry(CallAt(c, o), inputs(o), bound, e, RH.SwitchToRepair);
  }

  lemma RequestIsExact(c: Config, inputs: nat -> Inputs, bound: nat, o: nat, e: Entry, m: Arrival)
    requires InputsOk(c, inputs, bound) && ExactAt(c, inputs, bound, o, e) && |m.payload| <= c.width
    requires RH.Honest(CallAt(c, o), inputs(o), bound, RH.Request(m))
    ensures ExactAt(c, inputs, bound, o, ResponderModel.OnRequest(CallAt(c, o), e, m).entry)
  {
    RH.EventKeepsEntry(CallAt(c, o), inputs(o), bound, e, RH.Request(m));
  }

  lemma IssueIsExact(c: Config, inputs: nat -> Inputs, bound: nat, s: State)
    requires InputsOk(c, inputs, bound) && Inv(c, s) && Exact(c, inputs, bound, s.cells)
    ensures Exact(c, inputs, bound, Issue(c, s).0.cells)
  {
    hide ConfigOk, ExactAt, TableInv, CountInv, MatchingInv, PendingInv, Issue;
    ReservedIsExact(c, inputs, bound, s.next);
    forall o | o in Issue(c, s).0.cells ensures ExactAt(c, inputs, bound, o, Issue(c, s).0.cells[o].entry) {
      IssueAddsReserved(c, s, o);
    }
  }

  lemma IssueAddsReserved(c: Config, s: State, o: nat)
    requires ConfigOk(c) && c.pull && Inv(c, s) && o in Issue(c, s).0.cells
    ensures o in s.cells || o == s.next
    ensures Issue(c, s).0.cells[o].entry == if o in s.cells then s.cells[o].entry else Reserved(CallAt(c, o))
  {
    hide ConfigOk, CellsOk, CellInv, CountInv, MatchingInv, Reserve, Distinct;
    ReserveInOrder(c, s);
    if s.pending != [] {
      assert Waits(s.cells, s.pending[0]);
    }
  }

  lemma StepIsExact(c: Config, inputs: nat -> Inputs, bound: nat, s: State, ev: Event)
    requires InputsOk(c, inputs, bound) && Inv(c, s) && EventOk(c, s, ev) && Allowed(c, HonestOnly(inputs, bound), ev)
    requires Exact(c, inputs, bound, s.cells)
    ensures Exact(c, inputs, bound, Step(c, s, ev).cells)
  {
    hide CountInv, MatchingInv, CellsOk, CellInv, ExactAt, ResponderModel.OnRequest, Issue, EnterRepair;
    match ev
    case IssueCredit => IssueIsExact(c, inputs, bound, s);
    case Request(o, m) => RequestIsExact(c, inputs, bound, o, s.cells[o].entry, m);
    case AggMiss(o) => RepairIsExact(c, inputs, bound, o, s.cells[o].entry);
    case Timeout(due) =>
      forall o | o in s.cells ensures ExactAt(c, inputs, bound, o, EnterRepair(s.cells[o].entry)) {
        RepairIsExact(c, inputs, bound, o, s.cells[o].entry);
      }
    case FlushPending => FlushSendsAllHere(c, s);
  }

  lemma {:induction false} RunIsExact(c: Config, inputs: nat -> Inputs, bound: nat, s: State, n: nat)
    requires InputsOk(c, inputs, bound) && RunsTo(c, HonestOnly(inputs, bound), START, s, n)
    ensures Inv(c, s) && Exact(c, inputs, bound, s.cells)
    decreases n
  {
    hide ConfigOk, Inv, Exact, CellsOk, Step, EventOk;
    StartHolds(c);
    if n == 0 {
      assert Exact(c, inputs, bound, START.cells) by { NothingYet(c, inputs, bound); }
    } else {
      var traffic := HonestOnly(inputs, bound);
      var mid, ev :| RunsTo(c, traffic, START, mid, n - 1) && StepsTo(c, traffic, mid, ev, s);
      RunIsExact(c, inputs, bound, mid, n - 1);
      StepKeeps(c, mid, ev);
      StepIsExact(c, inputs, bound, mid, ev);
    }
  }

  lemma NothingYet(c: Config, inputs: nat -> Inputs, bound: nat)
    requires InputsOk(c, inputs, bound)
    ensures Exact(c, inputs, bound, START.cells)
  {
  }

  /** In every run of a pull call with honest requests, in any order and however
      often repeated: an offset that is done holds, word by word, the reduction over the
      requesters and the responder as rank `own`, and by the time END is sent every
      offset of the call is done. */
  lemma PullCallIsExact(c: Config, inputs: nat -> Inputs, bound: nat, own: nat, s: State, o: nat)
    requires InputsOk(c, inputs, bound) && Reachable(c, HonestOnly(inputs, bound), s) && own !in c.requesters
    ensures CallOk(CallAt(c, o)) && Shaped(inputs(o), c.width)
    ensures o in s.cells && s.cells[o].entry.done ==>
              HoldsReduction(CallAt(c, o), inputs(o), bound, own, s.cells[o].entry.result)
    ensures s.endSent && o < c.total ==> o in s.cells && s.cells[o].entry.done
  {
    hide Inv, RunsTo;
    var n: nat :| RunsTo(c, HonestOnly(inputs, bound), START, s, n);
    RunIsExact(c, inputs, bound, s, n);
    if s.endSent {
      AllDoneAtEnd(c, s);
    }
    if o in s.cells {
      assert ExactAt(c, inputs, bound, o, s.cells[o].entry);
      ResultIsReduction(CallAt(c, o), inputs(o), bound, own);
    }
  }
}
