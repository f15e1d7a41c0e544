/** Runs of one respond_mode call: the counters are conserved, payloads and
    credits are matched one to one, and END is sent only when everything is
    done. */
module ResponderCallHistory {
  import opened Prelude
  import opened Reduction
  import opened ResponderModel
  import opened ResponderHistory
  import opened ResponderCallModel

  datatype Event =
    | IssueCredit
    | Request(offset: nat, arrival: Arrival)
    | AggMiss(offset: nat)
    | Timeout(due: set<nat>)
    | FlushPending

  /** Requesters answer only credits they were sent, so neither a request nor an
      AGG_MISS arrives for an offset at or after the credit cursor. */
  ghost predicate EventOk(c: Config, s: State, ev: Event) {
    && (ev.Request? ==> ev.offset < s.next && |ev.arrival.payload| <= c.width)
    && (ev.AggMiss? ==> ev.offset < s.next)
  }

  ghost function Step(c: Config, s: State, ev: Event): State
    requires ConfigOk(c) && CellsOk(c, s.cells) && EventOk(c, s, ev)
  {
    match ev
    case IssueCredit => Issue(c, s).0
    case Request(o, m) => ResponderCallModel.OnRequest(c, s, o, m)
    case AggMiss(o) => OnAggMiss(c, s, o)
    case Timeout(due) => OnTimeout(s, due)
    case FlushPending => Flush(c, s).0
  }

  ghost function Done(cells: map<nat, Cell>): set<nat> {
    set o | o in cells && cells[o].entry.done
  }

  /** Push entries are committed when their credit goes out; pull entries become
      committed and done in one step. */
  ghost predicate CellInv(pull: bool, cell: Cell) {
    cell.sent && if pull then cell.entry.committed == cell.entry.done else cell.entry.committed
  }

  /** The table holds exactly the offsets whose credit was sent. */
  ghost predicate TableInv(c: Config, cells: map<nat, Cell>, next: nat) {
    && CellsOk(c, cells)
    && next <= c.total && |cells| <= c.capacity
    && cells.Keys == Range(0, next)
    && forall o :: o in cells ==> CellInv(c.pull, cells[o])
  }

  /** Conservation of credits, and END only at the end. */
  ghost predicate CountInv(c: Config, s: State) {
    && s.done == |Done(s.cells)| <= s.next
    && s.done + s.outstanding == s.next
    && (s.endSent ==> s.done == c.total)
    && (c.pull ==> s.endSent == (s.done == c.total))
  }

  /** Payloads and credits form a partial matching. */
  ghost predicate MatchingInv(pull: bool, cells: map<nat, Cell>) {
    && (forall k :: k in cells ==> CreditMatched(pull, cells, k))
    && (forall p :: p in cells ==> PayloadMatched(cells, p))
  }

  /** The payload a credit carries is committed and knows that credit; a pull
      credit carries an earlier payload, a push credit its own. */
  ghost predicate CreditMatched(pull: bool, cells: map<nat, Cell>, k: nat)
    requires k in cells
  {
    match cells[k].bound
    case None => true
    case Some(p) =>
      p in cells && cells[p].boundBy == Some(k) && cells[p].entry.committed && if pull then p < k else p == k
  }

  ghost predicate PayloadMatched(cells: map<nat, Cell>, p: nat)
    requires p in cells
  {
    match cells[p].boundBy
    case None => true
    case Some(k) => k in cells && cells[k].bound == Some(p)
  }

  predicate Waits(cells: map<nat, Cell>, offset: nat) {
    offset in cells && cells[offset].entry.committed && cells[offset].boundBy == None
  }

  ghost predicate Distinct(xs: seq<nat>) {
    forall i, j :: 0 <= i < j < |xs| ==> xs[i] != xs[j]
  }

  /** What waits for a credit is committed, unmatched, and waits once. */
  ghost predicate PendingInv(pull: bool, cells: map<nat, Cell>, pending: seq<nat>) {
    && (forall i :: 0 <= i < |pending| ==> Waits(cells, pending[i]))
    && Distinct(pending)
    && (!pull ==> pending == [])
  }

  ghost predicate Inv(c: Config, s: State) {
    && TableInv(c, s.cells, s.next)
    && CountInv(c, s)
    && MatchingInv(c.pull, s.cells)
    && PendingInv(c.pull, s.cells, s.pending)
  }

  /** What one request does to its entry, in both modes of a call. */
  lemma EntryMoves(pull: bool, cell: Cell, call: Call, m: Arrival)
    requires CallOk(call) && EntryOk(call, cell.entry) && |m.payload| <= call.width
    requires CellInv(pull, cell)
    ensures Moves(pull, cell, m, ResponderModel.OnRequest(call, cell.entry, m))
  {
    DoneIsCountedOnce(call, cell.entry, m);
  }

  ghost predicate Moves(pull: bool, cell: Cell, m: Arrival, eff: Effect) {
    && CellInv(pull, cell.(entry := eff.entry))
    && (eff.counted <==> !cell.entry.done && eff.entry.done)
    && (cell.entry.done ==> eff.entry.done)
    && (eff.action == Committed <==> !cell.entry.committed && eff.entry.committed)
    && (cell.entry.committed ==> eff.entry.committed)
    && (pull && eff.counted ==> ReachesEndTest(cell.entry.committed, m, eff.action))
  }

  lemma DoneSetMoves(a: map<nat, Cell>, o: nat, cell: Cell)
    requires o in a && (a[o].entry.done ==> cell.entry.done)
    ensures |Done(a[o := cell])| == |Done(a)| + (if cell.entry.done && !a[o].entry.done then 1 else 0)
  {
    var b := a[o := cell];
    if a[o].entry.done == cell.entry.done {
      assert Done(b) == Done(a);
    } else {
      assert Done(b) == Done(a) + {o};
    }
  }

  lemma DoneWithinCursor(cells: map<nat, Cell>, next: nat, total: nat)
    requires cells.Keys == Range(0, next) && next <= total
    ensures |Done(cells)| <= next
    ensures |Done(cells)| == total ==> next == total && Done(cells) == Range(0, total)
  {
    RangeSize(0, next);
    SubsetSize(Done(cells), Range(0, next));
    if |Done(cells)| == total {
      SubsetOfEqualSize(Done(cells), Range(0, total));
    }
  }

  lemma HandledKeepsTable(c: Config, cells: map<nat, Cell>, next: nat, o: nat, e: Entry)
    requires TableInv(c, cells, next) && o in cells
    requires EntryOk(CallAt(c, o), e) && CellInv(c.pull, cells[o].(entry := e))
    ensures TableInv(c, cells[o := cells[o].(entry := e)], next)
  {
  }

  lemma HandledKeepsCount(c: Config, s: State, o: nat, m: Arrival, eff: Effect)
    requires TableInv(c, s.cells, s.next) && CountInv(c, s) && o in s.cells && Moves(c.pull, s.cells[o], m, eff)
    ensures CountInv(c, Handled(c, s, o, m, s.cells[o], eff))
  {
    hide CellsOk, CellInv, ReachesEndTest, Done;
    var cell := s.cells[o].(entry := eff.entry);
    DoneSetMoves(s.cells, o, cell);
    DoneWithinCursor(s.cells[o := cell], s.next, c.total);
  }

  /** The waiting responses are distinct entries, so there is room for one more
      as long as some entry is not committed. */
  lemma PendingFits(pull: bool, cells: map<nat, Cell>, pending: seq<nat>, o: nat)
    requires PendingInv(pull, cells, pending) && o in cells && !cells[o].entry.committed
    ensures |pending| < |cells|
  {
    DistinctSize(pending);
    forall x | x in Elements(pending) ensures x in cells.Keys - {o} {
      var i :| 0 <= i < |pending| && pending[i] == x;
      assert Waits(cells, pending[i]);
    }
    SubsetSize(Elements(pending), cells.Keys - {o});
    assert |cells.Keys| == |cells|;
  }

  function Elements(xs: seq<nat>): set<nat> {
    set x | x in xs
  }

  lemma {:induction false} DistinctSize(xs: seq<nat>)
    requires Distinct(xs)
    ensures |Elements(xs)| == |xs|
  {
    if xs != [] {
      var front, last := xs[..|xs| - 1], xs[|xs| - 1];
      DistinctSize(front);
      assert xs == front + [last];
      assert last !in front;
      assert Elements(xs) == Elements(front) + {last};
    }
  }

  /** An entry that only gains keeps the matching and the queue. */
  lemma HandledKeepsMatching(pull: bool, cells: map<nat, Cell>, pending: seq<nat>, o: nat, e: Entry)
    requires MatchingInv(pull, cells) && PendingInv(pull, cells, pending) && o in cells
    requires cells[o].entry.committed ==> e.committed
    ensures MatchingInv(pull, cells[o := cells[o].(entry := e)])
    ensures PendingInv(pull, cells[o := cells[o].(entry := e)], pending)
  {
    var cells' := cells[o := cells[o].(entry := e)];
    forall k | k in cells' ensures CreditMatched(pull, cells', k) {
      assert CreditMatched(pull, cells, k);
    }
    forall p | p in cells' ensures PayloadMatched(cells', p) {
      assert PayloadMatched(cells, p);
    }
    forall i | 0 <= i < |pending| ensures Waits(cells', pending[i]) {
      assert Waits(cells, pending[i]);
    }
  }

  /** A newly committed response joins the queue. */
  lemma CommittedWaits(cells: map<nat, Cell>, pending: seq<nat>, o: nat)
    requires PendingInv(true, cells, pending) && Waits(cells, o) && o !in pending
    ensures PendingInv(true, cells, pending + [o])
  {
  }

  lemma UncommittedIsUnmatched(pull: bool, cells: map<nat, Cell>, pending: seq<nat>, o: nat)
    requires MatchingInv(pull, cells) && PendingInv(pull, cells, pending) && o in cells && !cells[o].entry.committed
    ensures cells[o].boundBy == None && o !in pending
  {
    assert PayloadMatched(cells, o);
  }

  lemma RequestKeeps(c: Config, s: State, o: nat, m: Arrival)
    requires ConfigOk(c) && Inv(c, s) && o < s.next && |m.payload| <= c.width
    ensures Inv(c, ResponderCallModel.OnRequest(c, s, o, m))
  {
    hide ResponderModel.OnRequest, MatchingInv, PendingInv, CountInv;
    var cell := s.cells[o];
    EntryMoves(c.pull, cell, CallAt(c, o), m);
    var eff := ResponderModel.OnRequest(CallAt(c, o), cell.entry, m);
    HandledKeepsTable(c, s.cells, s.next, o, eff.entry);
    HandledKeepsCount(c, s, o, m, eff);
    HandledKeepsMatching(c.pull, s.cells, s.pending, o, eff.entry);
    if eff.action == Committed {
      UncommittedIsUnmatched(c.pull, s.cells, s.pending, o);
      PendingFits(c.pull, s.cells, s.pending, o);
      CommittedWaits(s.cells[o := cell.(entry := eff.entry)], s.pending, o);
    }
  }

  lemma EnterRepairKeepsOne(c: Config, s: State, o: nat)
    requires ConfigOk(c) && Inv(c, s) && o < s.next
    ensures Inv(c, OnAggMiss(c, s, o))
  {
    hide MatchingInv, PendingInv, CountInv;
    var e := OnAggMiss(c, s, o).cells[o].entry;
    HandledKeepsTable(c, s.cells, s.next, o, e);
    HandledKeepsMatching(c.pull, s.cells, s.pending, o, e);
    DoneSetMoves(s.cells, o, s.cells[o].(entry := e));
    SameKept(c, s, OnAggMiss(c, s, o));
  }

  lemma SameKept(c: Config, s: State, t: State)
    requires CountInv(c, s) && |Done(t.cells)| == |Done(s.cells)|
    requires t == s.(cells := t.cells, pending := t.pending)
    ensures CountInv(c, t)
  {
  }

  /** `b` has the entries of `a`, no less committed and just as done, bound alike. */
  ghost predicate Alike(a: map<nat, Cell>, b: map<nat, Cell>) {
    && a.Keys == b.Keys
    && forall o :: o in a ==>
         && b[o].sent == a[o].sent && b[o].bound == a[o].bound && b[o].boundBy == a[o].boundBy
         && b[o].entry.committed == a[o].entry.committed && b[o].entry.done == a[o].entry.done
  }

  lemma AlikeKeepsMatching(pull: bool, a: map<nat, Cell>, b: map<nat, Cell>)
    requires MatchingInv(pull, a) && Alike(a, b)
    ensures MatchingInv(pull, b)
  {
    forall k | k in b ensures CreditMatched(pull, b, k) {
      assert CreditMatched(pull, a, k);
    }
    forall p | p in b ensures PayloadMatched(b, p) {
      assert PayloadMatched(a, p);
    }
  }

  lemma AlikeKeepsTable(c: Config, a: map<nat, Cell>, b: map<nat, Cell>, next: nat)
    requires TableInv(c, a, next) && Alike(a, b) && CellsOk(c, b)
    ensures TableInv(c, b, next)
  {
  }

  lemma TimeoutIsAlike(c: Config, s: State, due: set<nat>)
    requires CellsOk(c, s.cells)
    ensures Alike(s.cells, OnTimeout(s, due).cells) && CellsOk(c, OnTimeout(s, due).cells)
    ensures Done(OnTimeout(s, due).cells) == Done(s.cells)
  {
  }

  lemma TimeoutKeeps(c: Config, s: State, due: set<nat>)
    requires Inv(c, s)
    ensures Inv(c, OnTimeout(s, due))
  {
    hide CountInv, PendingInv, MatchingInv, Alike, Done, CellsOk, CellInv;
    var t := OnTimeout(s, due);
    TimeoutIsAlike(c, s, due);
    SameKept(c, s, t);
    AlikeKeepsTable(c, s.cells, t.cells, s.next);
    AlikeKeepsMatching(c.pull, s.cells, t.cells);
    AlikeKeepsPending(c.pull, s.cells, t.cells, s.pending);
  }

  lemma AlikeKeepsPending(pull: bool, a: map<nat, Cell>, b: map<nat, Cell>, pending: seq<nat>)
    requires PendingInv(pull, a, pending) && Alike(a, b)
    ensures PendingInv(pull, b, pending)
  {
    PendingKept(pull, a, b, pending);
  }

  lemma PendingKept(pull: bool, cells: map<nat, Cell>, cells': map<nat, Cell>, pending: seq<nat>)
    requires PendingInv(pull, cells, pending)
    requires forall i :: 0 <= i < |pending| && Waits(cells, pending[i]) ==> Waits(cells', pending[i])
    ensures PendingInv(pull, cells', pending)
  {
  }

  /** Under the invariant the cursor never meets an offset already in the table:
      credits are reserved one by one, in order, as long as the table has room. */
  lemma ReserveInOrder(c: Config, s: State)
    requires ConfigOk(c) && TableInv(c, s.cells, s.next)
    ensures Reserve(c, s) ==
      if s.next < c.total && |s.cells| < c.capacity
      then (s.(cells := s.cells[s.next := Cell(true, None, None, Reserved(CallAt(c, s.next)))],
               next := s.next + 1, outstanding := s.outstanding + 1), Some(s.next))
      else (s, None)
  {
  }

  /** In any state, the cursor stops at the first offset whose credit was not sent, and
      reserves it if the message goes that far and the table has room for it. */
  lemma {:induction false} CursorStops(c: Config, s: State)
    ensures var (t, credit) := Reserve(c, s);
            var stop := if credit.Some? then credit.value else t.next;
            && s.next <= stop && (forall o :: s.next <= o < stop ==> o in s.cells && s.cells[o].sent)
            && match credit
               case Some(k) =>
                 && k < c.total && (k in s.cells ==> !s.cells[k].sent) && t.next == k + 1
                 && k in t.cells && t.cells == s.cells[k := t.cells[k]] && t.outstanding == s.outstanding + 1
                 && t.cells[k] == Cell(true, None, None, (if k in s.cells then s.cells[k].entry
                                                         else ZeroEntry(c.width)).(op := c.op))
               case None =>
                 && t == s.(next := stop)
                 && (stop >= c.total || (stop !in s.cells && |s.cells| >= c.capacity))
    decreases c.total - s.next
  {
    if s.next < c.total && Findable(c, s, s.next) && CellAt(c, s, s.next).sent {
      CursorStops(c, s.(next := s.next + 1));
    }
  }

  /** A packet for an offset outside the message, or for one the table has no room for,
      changes nothing. */
  lemma OutsidersChangeNothing(c: Config, s: State, o: nat, m: Arrival)
    requires ConfigOk(c) && CellsOk(c, s.cells) && |m.payload| <= c.width
    requires o >= c.total || (o !in s.cells && |s.cells| >= c.capacity)
    ensures ResponderCallModel.OnRequest(c, s, o, m) == s && OnAggMiss(c, s, o) == s
  {
  }

  /** A new entry joins the table. */
  lemma NewCell(c: Config, s: State, cell: Cell)
    requires ConfigOk(c) && Inv(c, s) && s.next < c.total && |s.cells| < c.capacity
    requires EntryOk(CallAt(c, s.next), cell.entry) && !cell.entry.done && CellInv(c.pull, cell)
    ensures var t := s.(cells := s.cells[s.next := cell], next := s.next + 1, outstanding := s.outstanding + 1);
      TableInv(c, t.cells, t.next) && CountInv(c, t) && PendingInv(c.pull, t.cells, t.pending)
  {
    hide MatchingInv, TableInv, PendingInv, EntryOk, Done;
    NewCellTable(c, s.cells, s.next, cell);
    PendingKept(c.pull, s.cells, s.cells[s.next := cell], s.pending);
  }

  lemma NewCellTable(c: Config, cells: map<nat, Cell>, next: nat, cell: Cell)
    requires TableInv(c, cells, next) && next < c.total && |cells| < c.capacity
    requires EntryOk(CallAt(c, next), cell.entry) && !cell.entry.done && CellInv(c.pull, cell)
    ensures TableInv(c, cells[next := cell], next + 1) && Done(cells[next := cell]) == Done(cells)
    ensures forall o :: Waits(cells, o) ==> Waits(cells[next := cell], o)
  {
    hide CellInv, EntryOk, Done;
    NewCellSize(cells, next, cell);
  }

  lemma NewCellSize(cells: map<nat, Cell>, next: nat, cell: Cell)
    requires cells.Keys == Range(0, next) && !cell.entry.done
    ensures |cells[next := cell]| == |cells| + 1
    ensures cells[next := cell].Keys == Range(0, next + 1)
    ensures Done(cells[next := cell]) == Done(cells)
  {
    var cells' := cells[next := cell];
    assert next !in cells;
    assert cells'.Keys == cells.Keys + {next};
    assert |cells'.Keys| == |cells'| && |cells.Keys| == |cells|;
  }

  lemma MatchedNewCell(pull: bool, cells: map<nat, Cell>, next: nat, cell: Cell)
    requires MatchingInv(pull, cells) && cells.Keys == Range(0, next)
    requires cell.bound == cell.boundBy == if pull then None else Some(next)
    requires !pull ==> cell.entry.committed
    ensures MatchingInv(pull, cells[next := cell])
  {
    assert next !in cells;
  }

  lemma PiggybackKeeps(c: Config, s: State, k: nat)
    requires Inv(c, s) && c.pull && k in s.cells
    requires s.cells[k].bound == None && forall i :: 0 <= i < |s.pending| ==> s.pending[i] < k
    ensures Inv(c, Piggyback(c, s, k))
  {
    hide CellsOk, CellInv, MatchingInv, CountInv, Distinct, Done;
    if s.pending != [] {
      var p := s.pending[0];
      assert Waits(s.cells, p);
      var t := Piggyback(c, s, k);
      assert s.cells[p := s.cells[p]] == s.cells;
      assert t.cells == Bind(s.cells, p, k);
      BindIsAlike(c, s.cells, p, k);
      SameKept(c, s, t);
      BindKeeps(s.cells, s.pending, p, k);
    }
  }

  lemma BindIsAlike(c: Config, cells: map<nat, Cell>, p: nat, k: nat)
    requires p in cells && k in cells && CellsOk(c, cells) && forall o :: o in cells ==> CellInv(true, cells[o])
    ensures var b := Bind(cells, p, k);
      b.Keys == cells.Keys && CellsOk(c, b) && Done(b) == Done(cells) && forall o :: o in b ==> CellInv(true, b[o])
  {
  }

  ghost function Bind(cells: map<nat, Cell>, p: nat, k: nat): map<nat, Cell>
    requires p in cells && k in cells
  {
    var bound := cells[k := cells[k].(bound := Some(p))];
    bound[p := bound[p].(boundBy := Some(k))]
  }

  lemma BindKeeps(cells: map<nat, Cell>, pending: seq<nat>, p: nat, k: nat)
    requires MatchingInv(true, cells) && PendingInv(true, cells, pending) && pending != [] && p == pending[0]
    requires p in cells && k in cells && p < k && cells[k].bound == None
    ensures MatchingInv(true, Bind(cells, p, k)) && PendingInv(true, Bind(cells, p, k), pending[1..])
  {
    var cells' := Bind(cells, p, k);
    forall i | 0 <= i < |pending[1..]| ensures Waits(cells', pending[1..][i]) {
      assert Waits(cells, pending[1 + i]) && pending[1 + i] != p;
    }
  }

  lemma IssueKeeps(c: Config, s: State)
    requires ConfigOk(c) && Inv(c, s)
    ensures Inv(c, Issue(c, s).0)
  {
    hide CountInv, MatchingInv, PendingInv;
    ReserveInOrder(c, s);
    if s.next < c.total && |s.cells| < c.capacity {
      if c.pull {
        PullIssueKeeps(c, s);
      } else {
        PushIssueKeeps(c, s);
      }
    }
  }

  lemma PullIssueKeeps(c: Config, s: State)
    requires ConfigOk(c) && Inv(c, s) && s.next < c.total && |s.cells| < c.capacity && c.pull
    ensures Inv(c, Issue(c, s).0)
  {
    hide CountInv, MatchingInv, Reserve;
    ReserveInOrder(c, s);
    var t := Reserve(c, s).0;
    var cell := t.cells[s.next];
    NewCell(c, s, cell);
    MatchedNewCell(true, s.cells, s.next, cell);
    forall i | 0 <= i < |t.pending| ensures t.pending[i] < s.next {
      assert Waits(s.cells, s.pending[i]);
    }
    PiggybackKeeps(c, t, s.next);
  }

  lemma PushIssueKeeps(c: Config, s: State)
    requires ConfigOk(c) && Inv(c, s) && s.next < c.total && |s.cells| < c.capacity && !c.pull
    ensures Inv(c, Issue(c, s).0)
  {
    hide CountInv, MatchingInv, PendingInv, Reserve;
    ReserveInOrder(c, s);
    var k := s.next;
    var t := Issue(c, s).0;
    var cell := Cell(true, Some(k), Some(k), SelfCommitted(CallAt(c, k)));
    assert t == s.(cells := s.cells[k := cell], next := k + 1, outstanding := s.outstanding + 1);
    NewCell(c, s, cell);
    MatchedNewCell(false, s.cells, k, cell);
  }

  /** Flushing sends exactly the waiting responses, in order, each once, and
      changes nothing else. */
  lemma {:induction false} FlushSendsAll(c: Config, s: State)
    requires forall i :: 0 <= i < |s.pending| ==> Waits(s.cells, s.pending[i])
    ensures Flush(c, s) == (s.(pending := []), s.pending)
    decreases |s.pending|
  {
    if s.pending != [] {
      var p := s.pending[0];
      var t := s.(pending := s.pending[1..]);
      assert Waits(s.cells, p);
      assert s.cells[p := s.cells[p]] == s.cells;
      forall i | 0 <= i < |t.pending| ensures Waits(t.cells, t.pending[i]) {
        assert Waits(s.cells, s.pending[1 + i]);
      }
      FlushSendsAll(c, t);
      assert s.pending == [p] + t.pending;
    }
  }

  lemma FlushKeeps(c: Config, s: State)
    requires Inv(c, s)
    ensures Inv(c, Flush(c, s).0)
  {
    FlushSendsAll(c, s);
    assert PendingInv(c.pull, s.cells, []);
  }

  /** Every event keeps the invariant. */
  lemma StepKeeps(c: Config, s: State, ev: Event)
    requires ConfigOk(c) && Inv(c, s) && EventOk(c, s, ev)
    ensures Inv(c, Step(c, s, ev))
  {
    hide CountInv, MatchingInv, PendingInv, TableInv;
    match ev
    case IssueCredit => IssueKeeps(c, s);
    case Request(o, m) => RequestKeeps(c, s, o, m);
    case AggMiss(o) => EnterRepairKeepsOne(c, s, o);
    case Timeout(due) => TimeoutKeeps(c, s, due);
    case FlushPending => FlushKeeps(c, s);
  }

  // -------------------------------------------------------------------- runs

  /** The requesters' inputs to every offset of a pull call; ranks are below `bound`. */
  ghost predicate InputsOk(c: Config, inputs: nat -> Inputs, bound: nat) {
    && ConfigOk(c) && c.pull && c.requesters != {}
    && (forall o :: Shaped(inputs(o), c.width))
    && (forall r :: r in c.requesters ==> r < bound)
  }

  /** What the network brings: any requests, requests no router aggregated, or
      requests that are honest in the sense of ResponderHistory.Honest. */
  datatype Traffic = Anything | Unaggregated | HonestOnly(inputs: nat -> Inputs, bound: nat)

  ghost predicate Allowed(c: Config, traffic: Traffic, ev: Event) {
    match traffic
    case Anything => true
    case Unaggregated => ev.Request? ==> !ev.arrival.aggregated
    case HonestOnly(inputs, bound) =>
      InputsOk(c, inputs, bound)
      && (ev.Request? ==>
            Honest(CallAt(c, ev.offset), inputs(ev.offset), bound, ResponderHistory.Request(ev.arrival)))
  }

  ghost predicate StepsTo(c: Config, traffic: Traffic, s: State, ev: Event, t: State)
    requires ConfigOk(c)
  {
    CellsOk(c, s.cells) && EventOk(c, s, ev) && Allowed(c, traffic, ev) && t == Step(c, s, ev)
  }

  ghost predicate RunsTo(c: Config, traffic: Traffic, s: State, t: State, n: nat)
    requires ConfigOk(c)
    decreases n
  {
    if n == 0 then t == s
    else exists mid, ev :: RunsTo(c, traffic, s, mid, n - 1) && StepsTo(c, traffic, mid, ev, t)
  }

  ghost predicate Leads(c: Config, traffic: Traffic, s: State, t: State)
    requires ConfigOk(c)
  {
    exists n: nat :: RunsTo(c, traffic, s, t, n)
  }

  ghost predicate Reachable(c: Config, traffic: Traffic, s: State)
    requires ConfigOk(c)
  {
    Leads(c, traffic, START, s)
  }

  lemma {:induction false} RunKeeps(c: Config, traffic: Traffic, s: State, t: State, n: nat)
    requires ConfigOk(c) && Inv(c, s) && RunsTo(c, traffic, s, t, n)
    ensures Inv(c, t)
    decreases n
  {
    hide ConfigOk, Inv, CellsOk, Step, EventOk, Allowed;
    if n > 0 {
      var mid, ev :| RunsTo(c, traffic, s, mid, n - 1) && StepsTo(c, traffic, mid, ev, t);
      RunKeeps(c, traffic, s, mid, n - 1);
      StepKeeps(c, mid, ev);
    }
  }

  lemma StartHolds(c: Config)
    requires ConfigOk(c)
    ensures Inv(c, START)
  {
    assert Done(START.cells) == {};
  }

  /** The invariant holds in every state a call can reach, whatever arrives. */
  lemma ReachableInv(c: Config, traffic: Traffic, s: State)
    requires ConfigOk(c) && Reachable(c, traffic, s)
    ensures Inv(c, s)
  {
    hide ConfigOk, Inv, RunsTo;
    StartHolds(c);
    var n: nat :| RunsTo(c, traffic, START, s, n);
    RunKeeps(c, traffic, START, s, n);
  }

  lemma AllDoneAtEnd(c: Config, s: State)
    requires Inv(c, s) && s.endSent
    ensures s.outstanding == 0 && s.next == c.total <= c.capacity
    ensures forall o :: 0 <= o < c.total ==> o in s.cells && s.cells[o].entry.done && s.cells[o].entry.committed
  {
    hide MatchingInv, PendingInv, CellInv;
    DoneWithinCursor(s.cells, s.next, c.total);
    RangeSize(0, s.next);
    assert |s.cells.Keys| == |s.cells|;
    forall o | 0 <= o < c.total ensures o in s.cells && s.cells[o].entry.done && s.cells[o].entry.committed {
      assert o in Done(s.cells);
      assert EntryOk(CallAt(c, o), s.cells[o].entry);
    }
  }

  /** Whenever END has been sent, every offset of the call is committed and done,
      no credit is outstanding, and the call fitted into the table. */
  lemma EndMeansAllDone(c: Config, traffic: Traffic, s: State)
    requires ConfigOk(c) && Reachable(c, traffic, s) && s.endSent
    ensures s.outstanding == 0 && s.next == c.total <= c.capacity
    ensures forall o :: 0 <= o < c.total ==> o in s.cells && s.cells[o].entry.done && s.cells[o].entry.committed
  {
    ReachableInv(c, traffic, s);
    AllDoneAtEnd(c, s);
  }

  /** Conservation: every credit sent is outstanding or done, and the counter of
      finished offsets is the number of done entries. */
  lemma CreditsAreConserved(c: Config, traffic: Traffic, s: State)
    requires ConfigOk(c) && Reachable(c, traffic, s)
    ensures s.done == |Done(s.cells)| && s.done + s.outstanding == s.next == |s.cells|
  {
    hide ConfigOk, MatchingInv, PendingInv, CellInv, CellsOk, Leads;
    ReachableInv(c, traffic, s);
    RangeSize(0, s.next);
    assert |s.cells.Keys| == |s.cells|;
  }

  /** A pull call has sent END exactly when its last offset is done. */
  lemma PullEndsWhenDone(c: Config, traffic: Traffic, s: State)
    requires ConfigOk(c) && c.pull && Reachable(c, traffic, s)
    ensures s.endSent <==> forall o :: 0 <= o < c.total ==> o in s.cells && s.cells[o].entry.done
  {
    hide ConfigOk, MatchingInv, PendingInv, CellInv, CellsOk, Leads;
    ReachableInv(c, traffic, s);
    if s.endSent {
      AllDoneAtEnd(c, s);
    } else if forall o :: 0 <= o < c.total ==> o in s.cells && s.cells[o].entry.done {
      assert Range(0, c.total) <= Done(s.cells);
      SubsetSize(Range(0, c.total), Done(s.cells));
      RangeSize(0, c.total);
    }
  }

  /** Every other offset of the call is done. */
  predicate LastMissing(c: Config, s: State, o: nat)
    requires o in s.cells
  {
    s.done + (if s.cells[o].entry.done then 0 else 1) == c.total
  }

  lemma PushEndTest(c: Config, s: State, o: nat, m: Arrival)
    requires ConfigOk(c) && Inv(c, s) && !c.pull && !s.endSent && o < s.next && |m.payload| <= c.width
    ensures ResponderCallModel.OnRequest(c, s, o, m).endSent <==>
              FullAck(CallAt(c, o), s.cells[o].entry, m) && LastMissing(c, s, o)
  {
    hide MatchingInv, PendingInv, ResponderModel.OnRequest, ReachesEndTest, IsControlAck, CellsOk, Done;
    RequestKeeps(c, s, o, m);
    assert EntryOk(CallAt(c, o), s.cells[o].entry) by { CellOk(c, s, o); }
    AcknowledgementReachesEndTest(CallAt(c, o), s.cells[o].entry, m);
  }

  /** Whether a request makes a push call send END can be told before it is handled: it
      does if and only if it is a full acknowledgement and every other offset is done.
      Completing the last offset by repair does not send END, because that branch skips
      the test. */
  lemma PushEndsIff(c: Config, traffic: Traffic, s: State, o: nat, m: Arrival)
    requires ConfigOk(c) && Reachable(c, traffic, s) && !c.pull && !s.endSent
    requires o < s.next && |m.payload| <= c.width
    ensures CellsOk(c, s.cells) && o in s.cells
    ensures ResponderCallModel.OnRequest(c, s, o, m).endSent <==>
              FullAck(CallAt(c, o), s.cells[o].entry, m) && LastMissing(c, s, o)
  {
    hide ConfigOk, MatchingInv, PendingInv, CountInv, CellInv, CellsOk, Leads, ResponderCallModel.OnRequest;
    ReachableInv(c, traffic, s);
    PushEndTest(c, s, o, m);
  }

  lemma CellOk(c: Config, s: State, o: nat)
    requires CellsOk(c, s.cells) && o in s.cells
    ensures EntryOk(CallAt(c, o), s.cells[o].entry)
  {
  }

  lemma AcknowledgementReachesEndTest(call: Call, e: Entry, m: Arrival)
    requires CallOk(call) && EntryOk(call, e) && e.committed && |m.payload| <= call.width
    ensures ReachesEndTest(e.committed, m, ResponderModel.OnRequest(call, e, m).action) <==> FullAck(call, e, m)
    ensures FullAck(call, e, m) ==> (ResponderModel.OnRequest(call, e, m).counted <==> !e.done)
  {
  }

  lemma {:induction false} NothingEnds(c: Config, t: State, n: nat)
    requires ConfigOk(c) && !c.pull && RunsTo(c, Unaggregated, START, t, n)
    ensures Inv(c, t) && !t.endSent
    decreases n
  {
    hide ConfigOk, Inv, CellsOk, Step, EventOk;
    StartHolds(c);
    if n > 0 {
      var mid, ev :| RunsTo(c, Unaggregated, START, mid, n - 1) && StepsTo(c, Unaggregated, mid, ev, t);
      NothingEnds(c, mid, n - 1);
      StepKeeps(c, mid, ev);
      OnlyRequestsEnd(c, mid, ev);
    }
  }

  /** With one requester every fan-in is 1 and no router marks a request as
      aggregated, so a push call never sends END, whatever else happens. */
  lemma UnaggregatedPushNeverEnds(c: Config, s: State)
    requires ConfigOk(c) && !c.pull && Reachable(c, Unaggregated, s)
    ensures !s.endSent
  {
    hide ConfigOk, Inv, RunsTo;
    var n: nat :| RunsTo(c, Unaggregated, START, s, n);
    NothingEnds(c, s, n);
  }

  lemma OnlyRequestsEnd(c: Config, s: State, ev: Event)
    requires ConfigOk(c) && Inv(c, s) && !c.pull && !s.endSent && EventOk(c, s, ev)
    requires ev.Request? ==> !ev.arrival.aggregated
    ensures !Step(c, s, ev).endSent
  {
    hide Inv;
    match ev
    case Request(o, m) => PushEndTest(c, s, o, m);
    case IssueCredit => IssueEndsNothing(c, s);
    case FlushPending => FlushSendsAllHere(c, s);
    case _ =>
  }

  lemma {:induction false} IssueEndsNothing(c: Config, s: State)
    requires ConfigOk(c)
    ensures Issue(c, s).0.endSent == s.endSent
  {
    ReserveEndsNothing(c, s);
  }

  lemma {:induction false} ReserveEndsNothing(c: Config, s: State)
    ensures Reserve(c, s).0.endSent == s.endSent
    decreases c.total - s.next
  {
    if s.next < c.total && Findable(c, s, s.next) && CellAt(c, s, s.next).sent {
      ReserveEndsNothing(c, s.(next := s.next + 1));
    }
  }

  /** A state in which everything is done, nothing is outstanding, and END was not sent. */
  ghost predicate Stalled(c: Config, s: State) {
    s.done == c.total && s.outstanding == 0 && !s.endSent
  }

  lemma OneMore(c: Config, s: State, ev: Event, n: nat)
    requires ConfigOk(c) && RunsTo(c, Unaggregated, START, s, n)
    requires CellsOk(c, s.cells) && EventOk(c, s, ev) && Allowed(c, Unaggregated, ev)
    ensures RunsTo(c, Unaggregated, START, Step(c, s, ev), n + 1)
  {
    var next := n + 1;
    var t := Step(c, s, ev);
    assert StepsTo(c, Unaggregated, s, ev, t);
    assert RunsTo(c, Unaggregated, START, t, next);
  }

  lemma LoneOffsetDone(c: Config, s: State, rank: nat)
    requires ConfigOk(c) && Inv(c, s) && !c.pull && c.total == s.next == 1 && s.done == 0 && !s.endSent
    requires c.requesters == {rank} && s.cells[0].entry == SelfCommitted(CallAt(c, 0))
    ensures Stalled(c, ResponderCallModel.OnRequest(c, s, 0,
                                                    Arrival(rank, true, false, 0, 0, ControlAck, c.op, true, [])))
  {
    hide MatchingInv, PendingInv;
    var m := Arrival(rank, true, false, 0, 0, ControlAck, c.op, true, []);
    PushEndTest(c, s, 0, m);
    SingleRequesterPushNeedsRepair(CallAt(c, 0), rank);
  }

  lemma FirstPushCredit(c: Config)
    requires ConfigOk(c) && !c.pull && c.capacity > 0 && Inv(c, START)
    ensures var s := Issue(c, START).0;
      s.next == 1 && s.done == 0 && !s.endSent && 0 in s.cells && s.cells[0].entry == SelfCommitted(CallAt(c, 0))
  {
    hide MatchingInv, PendingInv, CountInv, Reserve;
    ReserveInOrder(c, START);
  }

  /** The run that shows it: one credit, answered on the repair path. */
  lemma PushCallCanStall(c: Config, rank: nat)
    requires ConfigOk(c) && !c.pull && c.total == 1 && c.capacity > 0 && c.requesters == {rank}
    ensures exists s :: Reachable(c, Unaggregated, s) && Stalled(c, s)
  {
    hide ConfigOk, CountInv, MatchingInv, PendingInv, Stalled, Issue, ResponderCallModel.OnRequest;
    StartHolds(c);
    FirstPushCredit(c);
    StepKeeps(c, START, IssueCredit);
    OneMore(c, START, IssueCredit, 0);
    var s := Issue(c, START).0;
    var m := Arrival(rank, true, false, 0, 0, ControlAck, c.op, true, []);
    LoneOffsetDone(c, s, rank);
    OneMore(c, s, Event.Request(0, m), 1);
    assert Leads(c, Unaggregated, START, ResponderCallModel.OnRequest(c, s, 0, m));
    assert Reachable(c, Unaggregated, ResponderCallModel.OnRequest(c, s, 0, m));
  }

  /** A repair trigger carries exactly the payload its credit was issued with:
      looking for a predecessor never adds one, and the bound one is always
      there to be sent. */
  lemma TriggerCarriesBinding(c: Config, s: State, k: nat, p: nat)
    requires Inv(c, s) && k in s.cells
    ensures TriggerCarries(s, k, p) <==> s.cells[k].bound == Some(p)
  {
    hide TableInv, CountInv, PendingInv;
    assert CreditMatched(c.pull, s.cells, k);
    if p in s.cells {
      assert PayloadMatched(s.cells, p);
    }
  }

  /** No later event changes what a credit carries, nor which credit carries a
      payload once one does. */
  lemma BindingIsStable(c: Config, s: State, ev: Event, k: nat)
    requires ConfigOk(c) && Inv(c, s) && EventOk(c, s, ev) && k in s.cells
    ensures var t := Step(c, s, ev);
      && k in t.cells && t.cells[k].bound == s.cells[k].bound
      && (s.cells[k].boundBy.Some? ==> t.cells[k].boundBy == s.cells[k].boundBy)
      && (s.cells[k].entry.committed ==>
            t.cells[k].entry.committed && t.cells[k].entry.result == s.cells[k].entry.result)
  {
    hide CountInv, MatchingInv, PendingInv, CellsOk, CellInv, ResponderModel.OnRequest, Reserve, Issue, ReachesEndTest;
    match ev
    case IssueCredit => IssueIsStable(c, s, k);
    case Request(o, m) => CommittedStays(c, s, o, m);
    case FlushPending => FlushSendsAllHere(c, s);
    case _ =>
  }

  lemma FlushSendsAllHere(c: Config, s: State)
    requires Inv(c, s)
    ensures Flush(c, s) == (s.(pending := []), s.pending)
  {
    FlushSendsAll(c, s);
  }

  lemma IssueIsStable(c: Config, s: State, k: nat)
    requires ConfigOk(c) && TableInv(c, s.cells, s.next) && k in s.cells
    ensures var t := Issue(c, s).0;
      && k in t.cells && t.cells[k].bound == s.cells[k].bound && t.cells[k].entry == s.cells[k].entry
      && (s.cells[k].boundBy.Some? ==> t.cells[k].boundBy == s.cells[k].boundBy)
  {
    hide CellInv, CellsOk, Reserve;
    ReserveInOrder(c, s);
  }

  lemma CommittedStays(c: Config, s: State, o: nat, m: Arrival)
    requires ConfigOk(c) && CellsOk(c, s.cells) && o in s.cells && |m.payload| <= c.width
    ensures var e := ResponderModel.OnRequest(CallAt(c, o), s.cells[o].entry, m).entry;
      s.cells[o].entry.committed ==> e.committed && e.result == s.cells[o].entry.result
  {
    if s.cells[o].entry.committed {
      CommittedResultIsFinal(CallAt(c, o), s.cells[o].entry, ResponderHistory.Request(m));
    }
  }

  ghost predicate SameCarriage(s: State, t: State, k: nat) {
    && k in s.cells && k in t.cells && t.cells[k].bound == s.cells[k].bound
    && (s.cells[k].entry.committed ==> t.cells[k].entry.committed && t.cells[k].entry.result == s.cells[k].entry.result)
  }

  lemma {:induction false} CarriageKept(c: Config, traffic: Traffic, s: State, t: State, n: nat, k: nat)
    requires ConfigOk(c) && Inv(c, s) && RunsTo(c, traffic, s, t, n) && k in s.cells
    ensures SameCarriage(s, t, k)
    decreases n
  {
    hide ConfigOk, Inv, CellsOk, Step, EventOk, Allowed;
    if n > 0 {
      var mid, ev :| RunsTo(c, traffic, s, mid, n - 1) && StepsTo(c, traffic, mid, ev, t);
      CarriageKept(c, traffic, s, mid, n - 1, k);
      RunKeeps(c, traffic, s, mid, n - 1);
      BindingIsStable(c, mid, ev, k);
    }
  }

  /** Every packet that ever carries a credit carries the same payload, the one
      chosen when the credit was issued, and with the same result: whatever
      happens between states `s` and `t`, a repair trigger sent in `t` carries
      what the credit carried in `s`. */
  lemma BindingIsForever(c: Config, traffic: Traffic, s: State, t: State, k: nat, p: nat)
    requires ConfigOk(c) && Reachable(c, traffic, s) && Leads(c, traffic, s, t) && k in s.cells
    ensures SameCarriage(s, t, k)
    ensures TriggerCarries(t, k, p) <==> s.cells[k].bound == Some(p)
  {
    hide ConfigOk, Inv, RunsTo, TriggerCarries;
    ReachableInv(c, traffic, s);
    var n: nat :| RunsTo(c, traffic, s, t, n);
    CarriageKept(c, traffic, s, t, n, k);
    RunKeeps(c, traffic, s, t, n);
    TriggerCarriesBinding(c, t, k, p);
  }
}
