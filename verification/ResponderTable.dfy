/** The array of credit entries of one respond_mode call (protocol/responder.c): every
    row has its own entry object, cleared and updated in place. */
module ResponderTable {
  import opened Prelude
  import opened Reduction
  import opened ResponderModel
  import opened ResponderCallModel
  import opened Responder

  // What a row keeps beside its credit entry.
  datatype Head = Head(offset: nat, sent: bool, bound: Option<nat>, boundBy: Option<nat>)

  datatype Row = Row(offset: nat, cell: Cell)

  type Rows = seq<Option<Row>>

  function RowOf(head: Option<Head>, e: Entry): Option<Row> {
    match head
    case None => None
    case Some(h) => Some(Row(h.offset, Cell(h.sent, h.bound, h.boundBy, e)))
  }

  ghost predicate Holds(rows: Rows, i: int, offset: nat) {
    0 <= i < |rows| && rows[i].Some? && rows[i].value.offset == offset
  }

  ghost predicate Full(rows: Rows) {
    forall i :: 0 <= i < |rows| ==> rows[i].Some?
  }

  /** Row `i` is the offset's, allocated if it was new; -1 when it was new and the table full. */
  ghost predicate Found(width: nat, was: Rows, now: Rows, offset: nat, i: int) {
    if i == -1 then now == was && Full(was) && forall k :: !Holds(was, k, offset)
    else if Holds(was, i, offset) then now == was
    else
      && 0 <= i < |was| && was[i] == None && (forall k :: !Holds(was, k, offset))
      && now == was[i := Some(Row(offset, Cell(false, None, None, ZeroEntry(width))))]
  }

  ghost function Footprint(e: CreditEntry): set<object> {
    {e, e.direct, e.repair, e.result}
  }

  ghost predicate Laid(e: CreditEntry, width: nat) {
    && e.direct.Length == e.repair.Length == e.result.Length == width
    && e.direct != e.repair && e.direct != e.result && e.repair != e.result
  }

  class EntryTable {
    const heads: array<Option<Head>>
    const entries: seq<CreditEntry>
    const width: nat

    ghost function Objects(): set<object> {
      set i, o | 0 <= i < |entries| && o in Footprint(entries[i]) :: o
    }

    /** One entry a row, none sharing anything with another. */
    ghost predicate Valid() {
      && heads.Length == |entries| && heads !in Objects()
      && (forall i :: 0 <= i < |entries| ==> Laid(entries[i], width))
      && forall i, j :: 0 <= i < j < |entries| ==> Footprint(entries[i]) !! Footprint(entries[j])
    }

    lemma Owns(i: nat)
      requires i < |entries|
      ensures Footprint(entries[i]) <= Objects()
    {
    }

    ghost function RowAt(i: nat): Option<Row>
      requires i < heads.Length == |entries|
      reads heads, Footprint(entries[i])
    {
      RowOf(heads[i], entries[i].State())
    }

    ghost function Rows(): (rows: Rows)
      requires Valid()
      reads heads, Objects()
      ensures |rows| == |entries| && forall i :: 0 <= i < |rows| ==> (Owns(i); rows[i] == RowAt(i))
    {
      seq(|entries|, i requires 0 <= i < |entries| reads heads, Objects() => (Owns(i); RowAt(i)))
    }

    lemma RowIs(i: nat)
      requires Valid() && i < |entries|
      ensures heads.Length == |entries| && Rows()[i] == RowOf(heads[i], entries[i].State())
    {
      Owns(i);
    }

    constructor (capacity: nat, width: nat)
      ensures Valid() && |entries| == capacity && this.width == width && fresh(heads) && fresh(Objects())
      ensures forall i :: 0 <= i < capacity ==> Rows()[i] == None
    {
      var made: seq<CreditEntry> := [];
      for k := 0 to capacity
        invariant |made| == k
        invariant forall i :: 0 <= i < k ==> Laid(made[i], width) && fresh(Footprint(made[i]))
        invariant forall i, j :: 0 <= i < j < k ==> Footprint(made[i]) !! Footprint(made[j])
      {
        var e := new CreditEntry.Zeroed(width);
        made := made + [e];
      }
      heads := new Option<Head>[capacity](_ => None);
      entries := made;
      this.width := width;
    }

    /** A step that touches row `i` alone changes row `i` alone. */
    twostate lemma OneRow(i: nat)
      requires Valid() && i < |entries|
      requires forall j :: 0 <= j < heads.Length && j != i ==> heads[j] == old(heads[j])
      requires forall o :: o in Objects() && o !in Footprint(entries[i]) ==> unchanged(o)
      ensures Rows() == old(Rows())[i := RowAt(i)]
    {
      forall j: nat | j < |entries| && j != i ensures RowAt(j) == old(RowAt(j)) {
        Owns(j);
        assert Footprint(entries[j]) !! Footprint(entries[i]);
      }
    }

    /** The scan of find_entry: the row in use for the offset, or else the first free one. */
    method Scan(offset: nat) returns (found: int, free: int)
      requires Valid()
      ensures |Rows()| == |entries| && -1 <= found < |entries| && -1 <= free < |entries|
      ensures found >= 0 ==> Rows()[found].Some? && Rows()[found].value.offset == offset
      ensures found == -1 ==> forall k :: 0 <= k < |Rows()| && Rows()[k].Some? ==> Rows()[k].value.offset != offset
      ensures free >= 0 ==> Rows()[free] == None && forall k :: 0 <= k < free ==> Rows()[k].Some?
      ensures found == free == -1 ==> forall k :: 0 <= k < |Rows()| ==> Rows()[k].Some?
    {
      free := -1;
      for j := 0 to |entries|
        invariant -1 <= free < j
        invariant free >= 0 ==> Rows()[free] == None && forall k :: 0 <= k < free ==> Rows()[k].Some?
        invariant free == -1 ==> forall k :: 0 <= k < j ==> Rows()[k].Some?
        invariant forall k :: 0 <= k < j && Rows()[k].Some? ==> Rows()[k].value.offset != offset
      {
        if heads[j].Some? && heads[j].value.offset == offset {
          return j, free;
        }
        if heads[j] == None && free == -1 {
          free := j;
        }
      }
      return -1, free;
    }

    /** find_entry clears the row it allocates. */
    method Clear(i: nat, offset: nat)
      requires Valid() && i < |entries|
      modifies heads, Footprint(entries[i])
      ensures Rows() == old(Rows())[i := Some(Row(offset, Cell(false, None, None, ZeroEntry(width))))]
    {
      Owns(i);
      heads[i] := Some(Head(offset, false, None, None));
      entries[i].Clear();
      OneRow(i);
    }

    /** find_entry: the row of the offset, allocated in the first free row when it is new. */
    method FindRow(offset: nat) returns (i: int)
      requires Valid()
      modifies heads, Objects()
      ensures Found(width, old(Rows()), Rows(), offset, i)
    {
      var found, free := Scan(offset);
      if found >= 0 {
        return found;
      }
      if free >= 0 {
        Owns(free);
        Clear(free, offset);
      }
      return free;
    }

    /** The links of a row. */
    method Link(i: nat, bound: Option<nat>, boundBy: Option<nat>)
      requires Valid() && i < |entries| && Rows()[i].Some?
      modifies heads
      ensures var row := old(Rows())[i].value;
              Rows() == old(Rows())[i := Some(row.(cell := row.cell.(bound := bound, boundBy := boundBy)))]
    {
      Owns(i);
      heads[i] := Some(heads[i].value.(bound := bound, boundBy := boundBy));
      OneRow(i);
    }

    /** A row's entry meets its precondition as an object when its state does. */
    lemma EntryReady(i: nat, c: Call)
      requires Valid() && i < |entries| && CallOk(c) && c.width == width && EntryOk(c, entries[i].State())
      ensures entries[i].Ok(c)
    {
    }

    /** A request reaches the entry of row `i`. */
    method Arrive(i: nat, c: Call, m: Arrival) returns (action: Action, counted: bool)
      requires Valid() && i < |entries| && Rows()[i].Some?
      requires CallOk(c) && c.width == width && EntryOk(c, Rows()[i].value.cell.entry) && |m.payload| <= c.width
      modifies Footprint(entries[i])
      ensures var row := old(Rows())[i].value;
              var eff := ResponderModel.OnRequest(c, row.cell.entry, m);
              && action == eff.action && counted == eff.counted && EntryOk(c, eff.entry)
              && Rows() == old(Rows())[i := Some(row.(cell := row.cell.(entry := eff.entry)))]
    {
      hide ResponderModel.OnRequest;
      Owns(i);
      EntryReady(i, c);
      action, counted := entries[i].OnArrival(c, m);
      OneRow(i);
    }

    /** try_enter_repair. */
    method EnterRepairAt(i: nat)
      requires Valid() && i < |entries| && Rows()[i].Some?
      modifies Footprint(entries[i])
      ensures var row := old(Rows())[i].value;
              Rows() == old(Rows())[i := Some(row.(cell := row.cell.(entry := EnterRepair(row.cell.entry))))]
    {
      Owns(i);
      entries[i].TryEnterRepair();
      OneRow(i);
    }

    /** The credit of row `i` is reserved for operation `op`. */
    method Reserve(i: nat, op: Op)
      requires Valid() && i < |entries| && Rows()[i].Some?
      modifies heads, Footprint(entries[i])
      ensures var row := old(Rows())[i].value;
              Rows() == old(Rows())[i := Some(row.(cell := Cell(true, None, None, row.cell.entry.(op := op))))]
    {
      Owns(i);
      heads[i] := Some(Head(heads[i].value.offset, true, None, None));
      entries[i].op := op;
      OneRow(i);
    }

    /** A push credit's entry commits the responder's own data and carries it. */
    method CommitOwn(i: nat, c: Call, credit: nat)
      requires Valid() && i < |entries| && Rows()[i].Some?
      requires CallOk(c) && c.width == width && EntryOk(c, Rows()[i].value.cell.entry)
      modifies heads, Footprint(entries[i])
      ensures var row := old(Rows())[i].value;
              var e := row.cell.entry.(committed := true, result := BuildResult(c, []));
              Rows() == old(Rows())[i := Some(row.(cell := Cell(row.cell.sent, Some(credit), Some(credit), e)))]
    {
      Owns(i);
      EntryReady(i, c);
      heads[i] := Some(heads[i].value.(bound := Some(credit), boundBy := Some(credit)));
      entries[i].BuildResultPayload(c, []);
      entries[i].committed := true;
      OneRow(i);
    }
  }
}
