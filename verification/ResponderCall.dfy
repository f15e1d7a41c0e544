/** One respond_mode call with its table of credit entries, searched and updated in place,
    and its counters; proved to compute the functions of ResponderCallModel. */
module ResponderCall {
  import opened Prelude
  import opened Reduction
  import opened ResponderModel
  import opened ResponderCallModel
  import opened ResponderTable

  ghost predicate Unique(rows: Rows) {
    forall i, j :: 0 <= i < j < |rows| && rows[i].Some? && rows[j].Some? ==>
      rows[i].value.offset != rows[j].value.offset
  }

  /** The table as a map from offsets to entries. */
  ghost function TableOf(rows: Rows): (t: map<nat, Cell>)
    requires Unique(rows)
  {
    map i | 0 <= i < |rows| && rows[i].Some? :: rows[i].value.offset := rows[i].value.cell
  }

  lemma TableHas(rows: Rows, offset: nat)
    requires Unique(rows)
    ensures offset in TableOf(rows) <==> exists i :: Holds(rows, i, offset)
    ensures forall i :: Holds(rows, i, offset) ==> TableOf(rows)[offset] == rows[i].value.cell
  {
    if offset in TableOf(rows) {
      var i :| 0 <= i < |rows| && rows[i].Some? && rows[i].value.offset == offset;
      assert Holds(rows, i, offset);
    }
  }

  lemma RowCell(rows: Rows, i: nat)
    requires Unique(rows) && i < |rows| && rows[i].Some?
    ensures rows[i].value.offset in TableOf(rows)
    ensures TableOf(rows)[rows[i].value.offset] == rows[i].value.cell
  {
    TableHas(rows, rows[i].value.offset);
    assert Holds(rows, i, rows[i].value.offset);
  }

  lemma RowOk(c: Config, rows: Rows, i: nat)
    requires Unique(rows) && CellsOk(c, TableOf(rows)) && i < |rows| && rows[i].Some?
    ensures EntryOk(CallAt(c, rows[i].value.offset), rows[i].value.cell.entry)
  {
    RowCell(rows, i);
  }

  /** Writing one row changes the table at that row's offset only. */
  lemma RowWritten(rows: Rows, i: nat, row: Row)
    requires Unique(rows) && i < |rows|
    requires forall j :: Holds(rows, j, row.offset) ==> j == i
    requires rows[i].Some? ==> rows[i].value.offset == row.offset
    ensures Unique(rows[i := Some(row)])
    ensures TableOf(rows[i := Some(row)]) == TableOf(rows)[row.offset := row.cell]
  {
    hide TableOf;
    StillUnique(rows, i, row);
    var rows' := rows[i := Some(row)];
    var expected := TableOf(rows)[row.offset := row.cell];
    forall o: nat ensures o in TableOf(rows') <==> o in expected
                  ensures o in TableOf(rows') ==> TableOf(rows')[o] == expected[o]
    {
      RowWrittenAt(rows, i, row, o);
    }
  }

  lemma StillUnique(rows: Rows, i: nat, row: Row)
    requires Unique(rows) && i < |rows|
    requires forall j :: Holds(rows, j, row.offset) ==> j == i
    ensures Unique(rows[i := Some(row)])
  {
    var rows' := rows[i := Some(row)];
    forall a, b | 0 <= a < b < |rows'| && rows'[a].Some? && rows'[b].Some?
      ensures rows'[a].value.offset != rows'[b].value.offset
    {
      assert a != i ==> Holds(rows, a, rows'[a].value.offset);
      assert b != i ==> Holds(rows, b, rows'[b].value.offset);
    }
  }

  lemma RowWrittenAt(rows: Rows, i: nat, row: Row, o: nat)
    requires i < |rows| && Unique(rows) && Unique(rows[i := Some(row)])
    requires rows[i].Some? ==> rows[i].value.offset == row.offset
    ensures o in TableOf(rows[i := Some(row)]) <==> o in TableOf(rows)[row.offset := row.cell]
    ensures o in TableOf(rows[i := Some(row)]) ==>
              TableOf(rows[i := Some(row)])[o] == TableOf(rows)[row.offset := row.cell][o]
  {
    hide TableOf, Unique;
    var rows' := rows[i := Some(row)];
    TableHas(rows, o);
    TableHas(rows', o);
    assert Holds(rows', i, row.offset);
    assert forall j :: j != i ==> (Holds(rows', j, o) <==> Holds(rows, j, o));
    assert Holds(rows, i, o) ==> o == row.offset;
  }

  lemma EmptyTable()
    ensures Unique([]) && TableOf([]) == map[] && Full([])
  {
  }

  /** A table is full exactly when it has as many entries as rows. */
  lemma {:induction false} TableSize(rows: Rows)
    requires Unique(rows)
    ensures |TableOf(rows)| <= |rows|
    ensures |TableOf(rows)| == |rows| <==> Full(rows)
  {
    hide TableOf, Unique, Full;
    if rows == [] {
      EmptyTable();
    } else {
      var front, last := rows[..|rows| - 1], rows[|rows| - 1];
      assert rows == front + [last];
      TableSnoc(front, last);
      TableSize(front);
      assert |TableOf(rows).Keys| == |TableOf(rows)| && |TableOf(front).Keys| == |TableOf(front)|;
    }
  }

  lemma TableSnoc(front: Rows, last: Option<Row>)
    requires Unique(front + [last])
    ensures Unique(front) && (Full(front + [last]) <==> Full(front) && last.Some?)
    ensures last == None ==> TableOf(front + [last]) == TableOf(front)
    ensures last.Some? ==>
      && last.value.offset !in TableOf(front)
      && TableOf(front + [last]).Keys == TableOf(front).Keys + {last.value.offset}
  {
    var rows := front + [last];
    assert forall i :: 0 <= i < |front| ==> rows[i] == front[i];
    assert rows[|front|] == last;
    match last
    case None =>
      assert TableOf(rows) == TableOf(front);
    case Some(row) =>
      assert row.offset !in TableOf(front);
  }

  function TimedOut(row: Option<Row>, due: set<nat>): Option<Row> {
    match row
    case None => None
    case Some(r) =>
      if r.offset in due then Some(r.(cell := r.cell.(entry := EnterRepair(r.cell.entry)))) else row
  }

  lemma Overwritten(cells: map<nat, Cell>, o: nat, a: Cell, b: Cell)
    ensures cells[o := a][o := b] == cells[o := b]
  {
  }

  lemma BlankIsUnsent(c: Config, s: State, offset: nat)
    requires CellAt(c, s, offset).sent
    ensures offset in s.cells
  {
  }

  lemma TimedOutTable(c: Config, was: Rows, now: Rows, due: set<nat>)
    requires Unique(was) && |now| == |was| && CellsOk(c, TableOf(was))
    requires forall j :: 0 <= j < |was| ==> now[j] == TimedOut(was[j], due)
    ensures Unique(now)
    ensures TableOf(now) == OnTimeout(START.(cells := TableOf(was)), due).cells
    ensures CellsOk(c, TableOf(now))
  {
    hide CellsOk, EntryOk, Unique, TableOf, TimedOut;
    TimedOutUnique(was, now, due);
    forall o: nat | o in TableOf(was) || o in TableOf(now)
      ensures o in TableOf(was) && o in TableOf(now)
      ensures TableOf(now)[o] == OnTimeout(START.(cells := TableOf(was)), due).cells[o]
    {
      RowTimedOut(was, now, due, o);
    }
    TimeoutOk(c, TableOf(was), due);
  }

  lemma TimedOutUnique(was: Rows, now: Rows, due: set<nat>)
    requires Unique(was) && |now| == |was|
    requires forall j :: 0 <= j < |was| ==> now[j] == TimedOut(was[j], due)
    ensures Unique(now)
  {
  }

  lemma TimeoutOk(c: Config, cells: map<nat, Cell>, due: set<nat>)
    requires CellsOk(c, cells)
    ensures CellsOk(c, OnTimeout(START.(cells := cells), due).cells)
  {
  }

  lemma RowTimedOut(was: Rows, now: Rows, due: set<nat>, o: nat)
    requires Unique(was) && Unique(now) && |now| == |was|
    requires forall j :: 0 <= j < |was| ==> now[j] == TimedOut(was[j], due)
    requires o in TableOf(was) || o in TableOf(now)
    ensures o in TableOf(was) && o in TableOf(now)
    ensures TableOf(now)[o] == OnTimeout(START.(cells := TableOf(was)), due).cells[o]
  {
    TableHas(was, o);
    TableHas(now, o);
    var j :| Holds(was, j, o) || Holds(now, j, o);
    assert now[j] == TimedOut(was[j], due);
    RowCell(was, j);
    RowCell(now, j);
  }

  lemma FoundMeans(c: Config, was: Rows, now: Rows, offset: nat, i: int)
    requires Unique(was) && CellsOk(c, TableOf(was)) && |was| == c.capacity && Found(c.width, was, now, offset, i)
    ensures Unique(now) && CellsOk(c, TableOf(now)) && |now| == |was|
    ensures i == -1 <==> offset !in TableOf(was) && |TableOf(was)| >= c.capacity
    ensures i == -1 ==> now == was
    ensures i != -1 ==>
              var cell := if offset in TableOf(was) then TableOf(was)[offset] else Blank(c);
              && 0 <= i < |was| && now == was[i := Some(Row(offset, cell))] && EntryOk(CallAt(c, offset), cell.entry)
              && (was[i].Some? ==> now == was) && TableOf(now) == TableOf(was)[offset := cell]
  {
    hide TableOf, Unique, EntryOk, CellsOk;
    TableHas(was, offset);
    TableSize(was);
    if i == -1 {
    } else if Holds(was, i, offset) {
      RowCell(was, i);
      RowOk(c, was, i);
      assert TableOf(was)[offset := TableOf(was)[offset]] == TableOf(was);
    } else {
      RowWritten(was, i, Row(offset, Blank(c)));
      BlankKeeps(c, TableOf(was), offset);
      assert !Full(was);
    }
  }

  lemma BlankKeeps(c: Config, cells: map<nat, Cell>, offset: nat)
    requires CellsOk(c, cells)
    ensures EntryOk(CallAt(c, offset), Blank(c).entry) && CellsOk(c, cells[offset := Blank(c)])
  {
  }

  lemma RowRewritten(c: Config, was: Rows, i: nat, cell: Cell)
    requires Unique(was) && CellsOk(c, TableOf(was)) && i < |was| && was[i].Some?
    requires EntryOk(CallAt(c, was[i].value.offset), cell.entry)
    ensures var now := was[i := Some(Row(was[i].value.offset, cell))];
            && Unique(now) && CellsOk(c, TableOf(now)) && TableOf(now) == TableOf(was)[was[i].value.offset := cell]
  {
    hide TableOf, Unique, EntryOk;
    var offset := was[i].value.offset;
    forall j | Holds(was, j, offset) ensures j == i { OneHolds(was, i, j); }
    RowWritten(was, i, Row(offset, cell));
  }

  lemma OneHolds(rows: Rows, i: nat, j: int)
    requires Unique(rows) && i < |rows| && rows[i].Some? && Holds(rows, j, rows[i].value.offset)
    ensures j == i
  {
  }

  lemma NothingToBind(c: Config, s: State, k: nat)
    requires s.pending == [] && k in s.cells
    ensures Piggyback(c, s, k) == s
  {
  }

  lemma SameShape(c: Call, e: Entry, op: Op)
    requires EntryOk(c, e)
    ensures EntryOk(c, e.(op := op))
  {
  }

  lemma OwnOk(c: Config, k: nat, e: Entry)
    requires ConfigOk(c) && EntryOk(CallAt(c, k), e)
    ensures CallOk(CallAt(c, k)) && CallAt(c, k).width == c.width
    ensures EntryOk(CallAt(c, k), e.(committed := true, result := BuildResult(CallAt(c, k), [])))
  {
  }

  lemma CallIs(c: Config, offset: nat)
    requires ConfigOk(c)
    ensures CallOk(CallAt(c, offset)) && CallAt(c, offset).width == c.width
  {
  }

  lemma RequestOutside(c: Config, s: State, offset: nat, m: Arrival)
    requires ConfigOk(c) && CellsOk(c, s.cells) && |m.payload| <= c.width
    ensures offset >= c.total || !Findable(c, s, offset) ==> ResponderCallModel.OnRequest(c, s, offset, m) == s
  {
  }

  lemma RequestInside(c: Config, s: State, offset: nat, m: Arrival)
    requires ConfigOk(c) && CellsOk(c, s.cells) && |m.payload| <= c.width && offset < c.total && Findable(c, s, offset)
    requires EntryOk(CallAt(c, offset), CellAt(c, s, offset).entry)
    ensures var cell := CellAt(c, s, offset);
            ResponderCallModel.OnRequest(c, s, offset, m) ==
            Handled(c, s, offset, m, cell, ResponderModel.OnRequest(CallAt(c, offset), cell.entry, m))
  {
  }

  class CallTable {
    const table: EntryTable
    var next: nat
    var done: nat
    var outstanding: nat
    var endSent: bool
    var pending: seq<nat>

    ghost predicate Sized(c: Config) {
      && ConfigOk(c) && table.Valid() && this !in table.Objects()
      && |table.entries| == c.capacity && table.width == c.width
    }

    ghost predicate Valid(c: Config)
      reads this, table.heads, table.Objects()
    {
      Sized(c) && Unique(table.Rows()) && CellsOk(c, TableOf(table.Rows()))
    }

    ghost function View(): State
      requires table.Valid() && Unique(table.Rows())
      reads this, table.heads, table.Objects()
    {
      State(TableOf(table.Rows()), next, done, outstanding, endSent, pending)
    }

    constructor (c: Config)
      requires ConfigOk(c)
      ensures Valid(c) && View() == START && fresh(table) && fresh(table.heads) && fresh(table.Objects())
    {
      table := new EntryTable(c.capacity, c.width);
      next, done, outstanding, endSent, pending := 0, 0, 0, false, [];
      new;
      assert TableOf(table.Rows()) == map[];
    }

    /** find_entry: the row of the offset, allocated in the first free row when
        the offset is new; -1 when there is neither. */
    method FindEntry(c: Config, offset: nat) returns (i: int)
      requires Valid(c)
      modifies table.heads, table.Objects()
      ensures Valid(c)
      ensures i == -1 <==> !Findable(c, old(View()), offset)
      ensures i == -1 ==> View() == old(View())
      ensures i != -1 ==> 0 <= i < c.capacity && table.Rows()[i] == Some(Row(offset, CellAt(c, old(View()), offset)))
      ensures i != -1 ==> var was := old(table.Rows());
                          && table.Rows() == was[i := table.Rows()[i]]
                          && (was[i].Some? ==> table.Rows()[i] == was[i])
      ensures i != -1 ==> EntryOk(CallAt(c, offset), table.Rows()[i].value.cell.entry)
      ensures i != -1 ==> View() == old(View()).(cells := old(View()).cells[offset := CellAt(c, old(View()), offset)])
    {
      hide Unique, CellsOk, TableOf, EntryTable.Rows, EntryTable.Valid, EntryTable.Objects, Footprint, EntryOk, Found,
           Blank;
      ghost var was := table.Rows();
      i := table.FindRow(offset);
      FoundMeans(c, was, table.Rows(), offset, i);
    }

    /** A request reaches the entry in row `i`. */
    method ArriveAt(c: Config, i: nat, offset: nat, ghost cell: Cell, m: Arrival)
        returns (action: Action, counted: bool)
      requires Valid(c) && i < c.capacity && table.Rows()[i] == Some(Row(offset, cell)) && |m.payload| <= c.width
      modifies table.Objects()
      ensures Valid(c)
      ensures EntryOk(CallAt(c, offset), cell.entry)
      ensures var eff := ResponderModel.OnRequest(CallAt(c, offset), cell.entry, m);
              && action == eff.action && counted == eff.counted
              && View() == old(View()).(cells := old(View()).cells[offset := cell.(entry := eff.entry)])
    {
      hide TableOf, Unique, Holds, EntryOk, CellsOk, ResponderModel.OnRequest, EntryTable.Rows, EntryTable.Valid,
           EntryTable.Objects, Footprint;
      ghost var was := table.Rows();
      table.Owns(i);
      RowOk(c, was, i);
      action, counted := table.Arrive(i, CallAt(c, offset), m);
      RowRewritten(c, was, i, cell.(entry := ResponderModel.OnRequest(CallAt(c, offset), cell.entry, m).entry));
    }

    /** What a handled request means to the queue, the counters and END. */
    method Account(c: Config, offset: nat, m: Arrival, wasCommitted: bool, action: Action, counted: bool)
      requires Valid(c)
      modifies this`pending, this`done, this`outstanding, this`endSent
      ensures Valid(c) && table.Rows() == old(table.Rows())
      ensures pending == if action == Committed then PushPending(c, old(pending), offset) else old(pending)
      ensures done == old(done) + (if counted then 1 else 0)
      ensures outstanding == if counted && old(outstanding) > 0 then old(outstanding) - 1 else old(outstanding)
      ensures endSent == (old(endSent) || (ReachesEndTest(wasCommitted, m, action) && done >= c.total))
    {
      hide Unique, TableOf, CellsOk, ConfigOk, ReachesEndTest;
      hide EntryTable.Rows, EntryTable.Valid, EntryTable.Objects, Footprint;
      if action == Committed && |pending| < c.queue {
        pending := pending + [offset];
      }
      if counted {
        done := done + 1;
        if outstanding > 0 { outstanding := outstanding - 1; }
      }
      if !endSent && ReachesEndTest(wasCommitted, m, action) && done >= c.total {
        endSent := true;
      }
    }

    /** The request branch of respond_mode. */
    method HandleRequest(c: Config, offset: nat, m: Arrival)
      requires Valid(c) && |m.payload| <= c.width
      modifies this, table.heads, table.Objects()
      ensures Valid(c) && View() == ResponderCallModel.OnRequest(c, old(View()), offset, m)
    {
      hide TableOf, Unique, Holds, EntryOk, CellsOk, ResponderModel.OnRequest, ReachesEndTest, Blank, EntryTable.Rows,
           EntryTable.Valid, EntryTable.Objects, Footprint;
      hide ResponderCallModel.OnRequest, CellAt, CallAt, Footprint;
      ghost var start := View();
      RequestOutside(c, start, offset, m);
      if offset >= c.total { return; }
      var i := FindEntry(c, offset);
      if i == -1 { return; }
      var wasCommitted := IsCommitted(i);
      ghost var cell := CellAt(c, start, offset);
      CallIs(c, offset);
      var action, counted := ArriveAt(c, i, offset, cell, m);
      ghost var eff := ResponderModel.OnRequest(CallAt(c, offset), cell.entry, m);
      Account(c, offset, m, wasCommitted, action, counted);
      Overwritten(start.cells, offset, cell, cell.(entry := eff.entry));
      assert View() == Handled(c, start, offset, m, cell, eff);
      RequestInside(c, start, offset, m);
    }

    predicate IsCommitted(i: nat): (yes: bool)
      requires table.Valid() && i < |table.entries| && table.Rows()[i].Some?
      reads table.heads, table.Objects()
      ensures yes == table.Rows()[i].value.cell.entry.committed
    {
      table.Owns(i);
      table.RowIs(i);
      table.entries[i].committed
    }

    /** The credit in row `i` is reserved. */
    method ReserveAt(c: Config, i: nat, k: nat, ghost cell: Cell)
      requires Valid(c) && i < c.capacity && table.Rows()[i] == Some(Row(k, cell))
      modifies table.heads, table.Objects()
      ensures Valid(c)
      ensures table.Rows()[i].Some? && table.Rows()[i].value.offset == k
      ensures View() == old(View()).(cells := old(View()).cells[k := Cell(true, None, None, cell.entry.(op := c.op))])
    {
      hide TableOf, Unique, Holds, EntryOk, CellsOk, EntryTable.Rows, EntryTable.Valid, EntryTable.Objects, Footprint;
      ghost var was := table.Rows();
      table.Owns(i);
      RowOk(c, was, i);
      SameShape(CallAt(c, k), cell.entry, c.op);
      table.Reserve(i, c.op);
      RowRewritten(c, was, i, Cell(true, None, None, cell.entry.(op := c.op)));
    }

    predicate IsSent(i: nat): (yes: bool)
      requires table.Valid() && i < |table.entries| && table.Rows()[i].Some?
      reads table.heads, table.Objects()
      ensures yes == table.Rows()[i].value.cell.sent
    {
      table.Owns(i);
      table.RowIs(i);
      table.heads[i].value.sent
    }

    /** One turn of reserve_credit: the offset at the cursor is reserved, passed over, or finds
        no row. */
    method TryNext(c: Config) returns (i: int, taken: bool)
      requires Valid(c) && next < c.total
      modifies this, table.heads, table.Objects()
      ensures Valid(c) && -1 <= i < c.capacity
      ensures i == -1 ==> !taken && (View(), None) == Reserve(c, old(View()))
      ensures taken ==>
                && (View(), Some(old(next))) == Reserve(c, old(View()))
                && table.Rows()[i].Some? && table.Rows()[i].value.offset == old(next)
      ensures i != -1 && !taken ==> next == old(next) + 1 && Reserve(c, View()) == Reserve(c, old(View()))
    {
      hide TableOf, Unique, Holds, EntryOk, Blank, ConfigOk, CallAt, CellsOk;
      hide EntryTable.Rows, EntryTable.Valid, EntryTable.Objects, Footprint;
      ghost var before := View();
      i := FindEntry(c, next);
      if i == -1 {
        return -1, false;
      }
      taken := !IsSent(i);
      if taken {
        ghost var cell := CellAt(c, before, next);
        ReserveAt(c, i, next, cell);
        Overwritten(before.cells, next, cell, View().cells[next]);
        outstanding := outstanding + 1;
      } else {
        assert next in before.cells by { BlankIsUnsent(c, before, next); }
        assert before.cells[next := before.cells[next]] == before.cells;
      }
      next := next + 1;
    }

    /** reserve_credit: the credit reserved and its row. */
    method ReserveCredit(c: Config) returns (credit: Option<nat>, i: nat)
      requires Valid(c)
      modifies this, table.heads, table.Objects()
      ensures Valid(c) && (View(), credit) == Reserve(c, old(View()))
      ensures credit.Some? ==> i < c.capacity && table.Rows()[i].Some? && table.Rows()[i].value.offset == credit.value
    {
      hide TableOf, Unique, Holds, EntryOk, Blank, ConfigOk, CallAt, CellsOk;
      hide EntryTable.Rows, EntryTable.Valid, EntryTable.Objects, Footprint;
      ghost var start := View();
      while next < c.total
        invariant Valid(c) && Reserve(c, View()) == Reserve(c, start)
        decreases c.total - next
      {
        var k := next;
        var row, taken := TryNext(c);
        if row == -1 {
          return None, 0;
        }
        if taken {
          return Some(k), row;
        }
      }
      return None, 0;
    }

    /** The push credit in row `i` carries its own payload. */
    method CommitOwnAt(c: Config, i: nat, k: nat)
      requires Valid(c) && i < c.capacity && table.Rows()[i].Some? && table.Rows()[i].value.offset == k
      modifies table.heads, table.Objects()
      ensures Valid(c) && k in old(View()).cells && View() == SelfBind(c, old(View()), k)
    {
      hide TableOf, Unique, Holds, EntryOk, CellsOk, EntryTable.Rows, EntryTable.Valid, EntryTable.Objects, Footprint,
           CallAt;
      ghost var was := table.Rows();
      table.Owns(i);
      RowCell(was, i);
      RowOk(c, was, i);
      ghost var cell := was[i].value.cell;
      OwnOk(c, k, cell.entry);
      table.CommitOwn(i, CallAt(c, k), k);
      ghost var e := cell.entry.(committed := true, result := BuildResult(CallAt(c, k), []));
      RowRewritten(c, was, i, Cell(cell.sent, Some(k), Some(k), e));
    }

    /** maybe_issue_credits: push credits carry their own payload, pull credits
        the response that has waited longest. */
    method MaybeIssueCredits(c: Config) returns (credit: Option<nat>)
      requires Valid(c)
      modifies this, table.heads, table.Objects()
      ensures Valid(c) && (View(), credit) == Issue(c, old(View()))
    {
      hide TableOf, Unique, Holds, EntryOk, CellsOk, EntryTable.Rows, EntryTable.Valid, EntryTable.Objects, Footprint,
           Reserve, Piggyback, SelfBind;
      var i;
      credit, i := ReserveCredit(c);
      if credit == None { return; }
      RowCell(table.Rows(), i);
      if !c.pull {
        CommitOwnAt(c, i, credit.value);
      } else if pending != [] {
        BindNext(c, i, credit.value);
      } else {
        NothingToBind(c, View(), credit.value);
      }
    }

    /** Bind the response at the head of the queue to credit `k`, held in row `i`. */
    method BindNext(c: Config, i: nat, k: nat)
      requires Valid(c) && pending != [] && i < c.capacity
      requires table.Rows()[i].Some? && table.Rows()[i].value.offset == k && k in View().cells
      modifies this, table.heads, table.Objects()
      ensures Valid(c) && View() == Piggyback(c, old(View()), k)
    {
      hide TableOf, Unique, Holds, EntryOk, CellsOk, Blank, EntryTable.Rows, EntryTable.Valid, EntryTable.Objects,
           Footprint;
      ghost var start, was := View(), table.Rows();
      var p := pending[0];
      pending := pending[1..];
      RowCell(was, i);
      var j := FindEntry(c, p);
      if j == -1 { return; }
      assert table.Rows()[i] == was[i];
      if IsCommitted(j) && BoundBy(j) == None {
        LinkBound(c, i, Some(p));
        RowCell(table.Rows(), j);
        LinkBoundBy(c, j, Some(k));
      }
    }

    function BoundBy(i: nat): (rider: Option<nat>)
      requires table.Valid() && i < |table.entries| && table.Rows()[i].Some?
      reads table.heads, table.Objects()
      ensures rider == table.Rows()[i].value.cell.boundBy
    {
      table.Owns(i);
      table.RowIs(i);
      table.heads[i].value.boundBy
    }

    /** The credit in row `i` carries another payload. */
    method LinkBound(c: Config, i: nat, bound: Option<nat>)
      requires Valid(c) && i < c.capacity && table.Rows()[i].Some?
      modifies table.heads
      ensures Valid(c)
      ensures var row := old(table.Rows())[i].value;
              var cell := row.cell.(bound := bound);
              && table.Rows() == old(table.Rows())[i := Some(row.(cell := cell))]
              && View() == old(View()).(cells := old(View()).cells[row.offset := cell])
    {
      hide TableOf, Unique, Holds, EntryOk, CellsOk, EntryTable.Rows, EntryTable.Valid, EntryTable.Objects, Footprint;
      ghost var was := table.Rows();
      RowOk(c, was, i);
      table.Link(i, bound, BoundBy(i));
      RowRewritten(c, was, i, was[i].value.cell.(bound := bound));
    }

    /** The payload of row `i` rides on another credit. */
    method LinkBoundBy(c: Config, i: nat, boundBy: Option<nat>)
      requires Valid(c) && i < c.capacity && table.Rows()[i].Some?
      modifies table.heads
      ensures Valid(c)
      ensures var row := old(table.Rows())[i].value;
              var cell := row.cell.(boundBy := boundBy);
              && table.Rows() == old(table.Rows())[i := Some(row.(cell := cell))]
              && View() == old(View()).(cells := old(View()).cells[row.offset := cell])
    {
      hide TableOf, Unique, Holds, EntryOk, CellsOk, EntryTable.Rows, EntryTable.Valid, EntryTable.Objects, Footprint;
      ghost var was := table.Rows();
      table.Owns(i);
      table.RowIs(i);
      RowOk(c, was, i);
      table.Link(i, table.heads[i].value.bound, boundBy);
      RowRewritten(c, was, i, was[i].value.cell.(boundBy := boundBy));
    }

    /** One turn of flush_pending_responses: the head of the queue leaves it, and
        is sent when it has a stored response and no credit. */
    method FlushHead(c: Config) returns (sent: seq<nat>)
      requires Valid(c) && pending != []
      modifies this, table.heads, table.Objects()
      ensures Valid(c) && View() == Allocate(c, old(View()).(pending := old(pending)[1..]), old(pending)[0])
      ensures pending == old(pending)[1..]
      ensures sent == if Bindable(View(), old(pending)[0]) then [old(pending)[0]] else []
    {
      hide TableOf, Unique, Holds, EntryOk, Blank, ConfigOk, CallAt, CellsOk, EntryTable.Rows, EntryTable.Valid,
           EntryTable.Objects, Footprint;
      var p := pending[0];
      pending := pending[1..];
      var i := FindEntry(c, p);
      if i == -1 { return []; }
      return if IsCommitted(i) && BoundBy(i) == None then [p] else [];
    }

    /** flush_pending_responses. */
    method FlushPendingResponses(c: Config) returns (sent: seq<nat>)
      requires Valid(c)
      modifies this, table.heads, table.Objects()
      ensures Valid(c) && (View(), sent) == Flush(c, old(View()))
    {
      hide TableOf, Unique, Holds, EntryOk, Blank, ConfigOk, CallAt, CellsOk, Allocate, Bindable, EntryTable.Rows,
           EntryTable.Valid, EntryTable.Objects, Footprint;
      sent := [];
      ghost var start := View();
      while pending != []
        invariant Valid(c)
        invariant Flush(c, start).0 == Flush(c, View()).0
        invariant Flush(c, start).1 == sent + Flush(c, View()).1
        decreases |pending|
      {
        var one := FlushHead(c);
        sent := sent + one;
      }
      assert sent + [] == sent;
    }

    /** The AGG_MISS branch of respond_mode. */
    method HandleAggMiss(c: Config, offset: nat)
      requires Valid(c)
      modifies table.heads, table.Objects()
      ensures Valid(c) && View() == OnAggMiss(c, old(View()), offset)
    {
      hide TableOf, Unique, Holds, Blank, CellsOk, EntryTable.Rows, EntryTable.Valid, EntryTable.Objects, Footprint;
      ghost var start := View();
      if offset >= c.total { return; }
      var i := FindEntry(c, offset);
      if i == -1 { return; }
      table.Owns(i);
      table.RowIs(i);
      ghost var cell := table.Rows()[i].value.cell;
      var e := table.entries[i];
      if e.committed || e.done || e.repairMode { return; }
      Overwritten(start.cells, offset, cell, cell.(entry := EnterRepair(cell.entry)));
      ghost var was := table.Rows();
      table.EnterRepairAt(i);
      RowRewritten(c, was, i, cell.(entry := EnterRepair(cell.entry)));
    }

    /** maybe_timeout_repair, over the rows whose timer ran out. */
    method TimeoutRepair(c: Config, due: set<nat>)
      requires Valid(c)
      modifies table.Objects()
      ensures Valid(c) && View() == OnTimeout(old(View()), due)
    {
      hide TableOf, Holds, EntryOk, CellsOk, Unique, ConfigOk, EntryTable.Rows, EntryTable.Valid, EntryTable.Objects,
           Footprint;
      ghost var was := table.Rows();
      for i := 0 to |table.entries|
        invariant |table.Rows()| == |was|
        invariant forall j :: 0 <= j < i ==> table.Rows()[j] == TimedOut(was[j], due)
        invariant forall j :: i <= j < |was| ==> table.Rows()[j] == was[j]
      {
        table.Owns(i);
        table.RowIs(i);
        if table.heads[i].Some? && table.heads[i].value.offset in due {
          table.EnterRepairAt(i);
        }
      }
      TimedOutTable(c, was, table.Rows(), due);
    }
  }
}
