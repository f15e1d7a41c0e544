/** One respond_mode call of protocol/responder.c as a state machine: the table
    of credit entries, the credit cursor, the queue of committed responses
    waiting for a credit to ride on, and the decision to send END.  Offsets are
    relative to the call's first sequence number.  ResponderCall.dfy holds the
    table as an array searched in place. */
module ResponderCallModel {
  import opened Prelude
  import opened Reduction
  import opened ResponderModel

  /** The parameters of a call: who must answer, what the call reduces, whether
      the requesters push or the responder pulls, how many packets it spans, how
      many entries the table holds, and how many responses may wait. */
  datatype Config = Config(requesters: set<nat>, op: Op, local: nat -> Option<Payload>, width: nat,
                           pull: bool, total: nat, capacity: nat, queue: nat)

  ghost predicate ConfigOk(c: Config) {
    && 0 < c.total && c.capacity <= c.queue
    && forall o :: CallOk(CallAt(c, o))
  }

  function CallAt(c: Config, offset: nat): Call {
    Call(c.requesters, c.op, c.local(offset), c.width)
  }

  /** A table entry: the credit entry proper, whether its credit was sent, which
      payload that credit carries, and which credit carries its own payload. */
  datatype Cell = Cell(sent: bool, bound: Option<nat>, boundBy: Option<nat>, entry: Entry)

  datatype State = State(cells: map<nat, Cell>, next: nat, done: nat, outstanding: nat, endSent: bool,
                         pending: seq<nat>)

  const START: State := State(map[], 0, 0, 0, false, [])

  /** A freshly allocated entry. */
  function Blank(c: Config): Cell {
    Cell(false, None, None, ZeroEntry(c.width))
  }

  /** find_entry succeeds when the offset is known or the table has room. */
  predicate Findable(c: Config, s: State, offset: nat) {
    offset in s.cells || |s.cells| < c.capacity
  }

  function CellAt(c: Config, s: State, offset: nat): Cell {
    if offset in s.cells then s.cells[offset] else Blank(c)
  }

  /** find_entry allocates the offset it looks for. */
  function Allocate(c: Config, s: State, offset: nat): State {
    if Findable(c, s, offset) then s.(cells := s.cells[offset := CellAt(c, s, offset)]) else s
  }

  ghost predicate CellsOk(c: Config, cells: map<nat, Cell>) {
    forall o :: o in cells ==> EntryOk(CallAt(c, o), cells[o].entry)
  }

  /** Whether handling a packet comes past the test that sends END: dropping and
      replaying do not, and neither does a repair request for a committed entry. */
  predicate ReachesEndTest(committed: bool, m: Arrival, action: Action) {
    || (action == Acknowledged && IsControlAck(m))
    || (action in {Recorded, Acknowledged, Committed} && !(m.repair && committed))
  }

  /** pending_response_push: dropped when the queue is full. */
  function PushPending(c: Config, pending: seq<nat>, offset: nat): seq<nat> {
    if |pending| >= c.queue then pending else pending + [offset]
  }

  /** What a request leaves behind, given what its entry made of it. */
  function Handled(c: Config, s: State, offset: nat, m: Arrival, cell: Cell, eff: Effect): State {
    var done := if eff.counted then s.done + 1 else s.done;
    State(s.cells[offset := cell.(entry := eff.entry)],
          s.next,
          done,
          if eff.counted && s.outstanding > 0 then s.outstanding - 1 else s.outstanding,
          s.endSent || (ReachesEndTest(cell.entry.committed, m, eff.action) && done >= c.total),
          if eff.action == Committed then PushPending(c, s.pending, offset) else s.pending)
  }

  /** The request branch of respond_mode. */
  function OnRequest(c: Config, s: State, offset: nat, m: Arrival): State
    requires ConfigOk(c) && CellsOk(c, s.cells) && |m.payload| <= c.width
  {
    if offset >= c.total || !Findable(c, s, offset) then s
    else
      var cell := CellAt(c, s, offset);
      Handled(c, s, offset, m, cell, ResponderModel.OnRequest(CallAt(c, offset), cell.entry, m))
  }

  /** reserve_credit: the cursor passes over credits already sent and stops at
      the end of the message or when the table is full. */
  function Reserve(c: Config, s: State): (r: (State, Option<nat>))
    ensures r.1.Some? ==> s.next <= r.1.value < c.total && r.1.value in r.0.cells
    decreases c.total - s.next
  {
    if s.next >= c.total || !Findable(c, s, s.next) then (s, None)
    else
      var cell := CellAt(c, s, s.next);
      if cell.sent then Reserve(c, s.(next := s.next + 1))
      else
        (s.(cells := s.cells[s.next := Cell(true, None, None, cell.entry.(op := c.op))],
            next := s.next + 1,
            outstanding := s.outstanding + 1),
         Some(s.next))
  }

  predicate Bindable(s: State, offset: nat) {
    offset in s.cells && s.cells[offset].entry.committed && s.cells[offset].boundBy == None
  }

  /** A push credit carries its own offset's payload, committed on the spot. */
  function SelfBind(c: Config, s: State, credit: nat): State
    requires ConfigOk(c) && credit in s.cells
  {
    var e := s.cells[credit].entry.(committed := true, result := BuildResult(CallAt(c, credit), []));
    s.(cells := s.cells[credit := Cell(s.cells[credit].sent, Some(credit), Some(credit), e)])
  }

  /** A pull credit carries the response that has waited longest, if it still may. */
  function Piggyback(c: Config, s: State, credit: nat): State
    requires credit in s.cells
  {
    if s.pending == [] then s
    else
      var p := s.pending[0];
      var t := Allocate(c, s.(pending := s.pending[1..]), p);
      if !Bindable(t, p) then t
      else
        var cells := t.cells[credit := t.cells[credit].(bound := Some(p))];
        t.(cells := cells[p := cells[p].(boundBy := Some(credit))])
  }

  /** maybe_issue_credits, and the credit it sent. */
  function Issue(c: Config, s: State): (r: (State, Option<nat>))
    requires ConfigOk(c)
  {
    var (t, credit) := Reserve(c, s);
    match credit
    case None => (t, None)
    case Some(k) => (if c.pull then Piggyback(c, t, k) else SelfBind(c, t, k), Some(k))
  }

  /** flush_pending_responses: what could not ride on a credit goes out alone.
      Also the payloads sent, in order. */
  function Flush(c: Config, s: State): (r: (State, seq<nat>))
    decreases |s.pending|
  {
    if s.pending == [] then (s, [])
    else
      var p := s.pending[0];
      var t := Allocate(c, s.(pending := s.pending[1..]), p);
      var (rest, sent) := Flush(c, t);
      (rest, (if Bindable(t, p) then [p] else []) + sent)
  }

  /** AGG_MISS: an entry nobody committed yet changes to the repair path. */
  function OnAggMiss(c: Config, s: State, offset: nat): State {
    if offset >= c.total || !Findable(c, s, offset) then s
    else
      var cell := CellAt(c, s, offset);
      var e := if cell.entry.committed || cell.entry.done || cell.entry.repairMode then cell.entry
          else EnterRepair(cell.entry);
      s.(cells := s.cells[offset := cell.(entry := e)])
  }

  /** maybe_timeout_repair over the entries whose timer ran out. */
  function OnTimeout(s: State, due: set<nat>): State {
    s.(cells := map o | o in s.cells :: if o in due then s.cells[o].(entry := EnterRepair(s.cells[o].entry))
       else s.cells[o])
  }

  /** find_replay_predecessor: some committed entry whose payload rode on credit `k`. */
  ghost predicate Predecessor(s: State, k: nat, p: nat) {
    p in s.cells && s.cells[p].entry.committed && s.cells[p].boundBy == Some(k)
  }

  /** The payload a repair trigger for credit `k` carries: the one bound to it,
      else that of the predecessor, provided its entry has a stored response. */
  ghost predicate TriggerCarries(s: State, k: nat, p: nat)
    requires k in s.cells
  {
    match s.cells[k].bound
    case Some(q) => p == q && q in s.cells && s.cells[q].entry.committed
    case None => Predecessor(s, k, p)
  }
}
