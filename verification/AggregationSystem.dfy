/** Routers, requesters and responders of any number of channels over a network
    that may lose, delay and reorder packets, with any routing between routers.

    Routers count contributions without knowing whose they are: the data of a
    pull offset, and the header-only acknowledgements of a push offset alike.
    Here every packet and every live slot also carries the set of ranks whose
    contribution it holds, a history variable no step reads, and a count is shown
    to be the size of that set in every reachable state. */
module AggregationSystem {
  import opened Prelude
  import opened Reduction
  import R = RouterModel
  import P = ResponderModel
  import H = ResponderHistory

  // The UDP port names the channel and subchannel; the offset is the credit.
  datatype Key = Key(port: nat, offset: nat)

  const DTYPE_INT32: nat := 4

  /** What is fixed for every offset: whether it is pulled or pushed, who must answer,
      what they contribute (nothing but the acknowledgement when it is pushed), and
      the responder's own input. */
  datatype Config = Config(
    width: nat,
    bound: nat,
    pull: Key -> bool,
    requesters: Key -> set<nat>,
    op: Key -> Op,
    inputs: Key -> Inputs,
    local: Key -> Option<Payload>)

  ghost predicate ConfigOk(c: Config) {
    forall k: Key :: KeyOk(c, k)
  }

  ghost predicate KeyOk(c: Config, k: Key) {
    && c.requesters(k) != {} && (forall r :: r in c.requesters(k) ==> r < c.bound)
    && Shaped(c.inputs(k), WidthOf(c, k))
    && P.CallOk(CallOf(c, k))
  }

  /** The words a contribution carries. */
  function WidthOf(c: Config, k: Key): nat {
    if c.pull(k) then c.width else 0
  }

  ghost function CallOf(c: Config, k: Key): P.Call {
    P.Call(c.requesters(k), c.op(k), c.local(k), c.width)
  }

  ghost function Reduced(c: Config, k: Key, ranks: set<nat>): (p: Payload)
    requires ConfigOk(c)
    ensures |p| == WidthOf(c, k)
  {
    assert KeyOk(c, k);
    Fold(c.op(k), c.inputs(k), WidthOf(c, k), ranks, c.bound)
  }

  /** A request in flight, with the ranks whose inputs it carries. */
  datatype Tagged = Tagged(packet: R.Request, ranks: set<nat>)

  /** An AGG_MISS on its way to the responder, with the ranks whose contributions the
      refused packet carried. */
  datatype Report = Report(key: Key, ranks: set<nat>)

  /** Routers, packets, credits not answered yet, credit entries and reported misses, which
      may be lost, late or repeated; and, as history, the contributions that reached the
      responder and the ranks that asked for repair. */
  datatype System = System(
    routers: seq<R.RouterState>,
    held: map<(nat, nat), set<nat>>,
    net: map<nat, Tagged>,
    credits: set<(Key, nat)>,
    entries: map<Key, P.Entry>,
    arrived: multiset<(Key, nat)>,
    repaired: set<(Key, nat)>,
    reports: set<Report>)

  function KeyOf(q: R.Request): Key {
    Key(q.port, q.offset)
  }

  function HeldBy(s: System, i: nat, j: nat): set<nat> {
    if (i, j) in s.held then s.held[(i, j)] else {}
  }

  // ---------------------------------------------------------------- steps

  /** The packet a requester sends for a normal credit: its own input or a header-only
      acknowledgement, and whatever stack and fan-ins it was given. */
  ghost predicate OwnRequest(c: Config, k: Key, r: nat, q: R.Request)
    requires ConfigOk(c)
  {
    && R.WellFormed(q, c.width)
    && KeyOf(q) == k && q.source == r
    && !q.aggregated && OfKind(c, k, q)
    && q.op == c.op(k) && q.dtype == DTYPE_INT32
    && q.payload == c.inputs(k)(r)
  }

  predicate OfKind(c: Config, k: Key, q: R.Request) {
    q.payloadValid == c.pull(k) && (c.pull(k) ==> q.dataKind)
  }

  /** A pull entry waits for its requesters; a push entry is committed as it is issued. */
  ghost function Issued(c: Config, k: Key): P.Entry
    requires ConfigOk(c)
  {
    assert KeyOk(c, k);
    if c.pull(k) then P.Reserved(CallOf(c, k)) else P.SelfCommitted(CallOf(c, k))
  }

  ghost predicate IssueCredit(c: Config, s: System, s': System, k: Key)
    requires ConfigOk(c)
  {
    && k !in s.entries
    && s' == s.(entries := s.entries[k := Issued(c, k)],
                credits := s.credits + Tokens(k, c.requesters(k)))
  }

  ghost predicate LoseCredit(s: System, s': System, token: (Key, nat)) {
    s' == s.(credits := s.credits - {token})
  }

  ghost predicate SendRequest(c: Config, s: System, s': System, k: Key, r: nat, id: nat, q: R.Request)
    requires ConfigOk(c)
  {
    && (k, r) in s.credits && id !in s.net && OwnRequest(c, k, r, q)
    && s' == s.(credits := s.credits - {(k, r)}, net := s.net[id := Tagged(q, {r})])
  }

  ghost predicate LoseRequest(s: System, s': System, id: nat) {
    s' == s.(net := s.net - {id})
  }

  /** A normal credit reaches a router, any number of times. */
  ghost predicate RouterCredit(c: Config, s: System, s': System, i: nat, k: Key, responder: nat) {
    && i < |s.routers| && R.Valid(s.routers[i], c.width)
    && var before := s.routers[i];
       var (after, index) := R.BindCredit(before, k.port, k.offset, responder, c.width);
       s' == s.(routers := s.routers[i := after],
                held := if R.FindSlot(before.slots, k.port, k.offset, responder, 0) < |before.slots|
                        then s.held else s.held[(i, index) := {}])
  }

  /** A request reaches a router, which need not be one on its tree path. */
  ghost predicate RouterRequest(c: Config, s: System, s': System, i: nat, id: nat, bypass: bool) {
    && i < |s.routers| && R.Valid(s.routers[i], c.width)
    && id in s.net && R.WellFormed(s.net[id].packet, c.width)
    && var q, ranks := s.net[id].packet, s.net[id].ranks;
       var (after, out) := R.HandleRequest(s.routers[i], bypass, q, c.width);
       var t := s.(routers := s.routers[i := after]);
       match out
       case Forward(f) => s' == t.(net := s.net[id := Tagged(f, ranks)])
       case Miss(port, offset) =>
         s' == t.(net := s.net - {id}, reports := s.reports + {Report(Key(port, offset), ranks)})
       case Absorbed =>
         var j := q.locs[q.depth - 1];
         s' == t.(net := s.net - {id}, held := s.held[(i, j) := HeldBy(s, i, j) + ranks])
       case Master(m) =>
         var j := q.locs[q.depth - 1];
         s' == t.(net := s.net[id := Tagged(m, HeldBy(s, i, j) + ranks)], held := s.held[(i, j) := {}])
  }

  function ArrivalOf(q: R.Request): P.Arrival {
    P.Arrival(q.source, false, q.aggregated, q.depth, q.merged,
              if q.payloadValid then P.PayloadRequest else P.ControlAck,
              q.op, q.dtype == 2 || q.dtype == DTYPE_INT32, q.payload)
  }

  function RepairArrival(c: Config, k: Key, r: nat): P.Arrival {
    P.Arrival(r, true, false, 0, 0, if c.pull(k) then P.PayloadRequest else P.ControlAck, c.op(k), true, c.inputs(k)(r))
  }

  ghost predicate EntryStep(c: Config, s: System, s': System, k: Key, ev: H.Event)
  {
    && k in s.entries
    && P.CallOk(CallOf(c, k)) && P.EntryOk(CallOf(c, k), s.entries[k]) && H.EventOk(CallOf(c, k), ev)
    && s' == s.(entries := s.entries[k := H.Step(CallOf(c, k), s.entries[k], ev)])
  }

  /** The contributions of a packet leave the network for the responder. */
  ghost function Arrive(s: System, id: nat): System
    requires id in s.net
  {
    s.(net := s.net - {id}, arrived := s.arrived + multiset(Tokens(KeyOf(s.net[id].packet), s.net[id].ranks)))
  }

  /** A request reaches the responder, aggregated or not, complete or not. */
  ghost predicate Deliver(c: Config, s: System, s': System, id: nat) {
    && id in s.net
    && var t := s.net[id];
       EntryStep(c, Arrive(s, id), s', KeyOf(t.packet), H.Request(ArrivalOf(t.packet)))
  }

  /** A repair request of a requester reaches the responder, any number of times. */
  ghost predicate DeliverRepair(c: Config, s: System, s': System, k: Key, r: nat) {
    && r in c.requesters(k)
    && EntryStep(c, s.(repaired := s.repaired + {(k, r)}), s', k, H.Request(RepairArrival(c, k, r)))
  }

  /** The timer of an offset runs out. */
  ghost predicate TimesOut(c: Config, s: System, s': System, k: Key) {
    EntryStep(c, s, s', k, H.SwitchToRepair)
  }

  /** A reported miss reaches the responder, which puts the offset it names on the repair
      path unless that is committed. */
  ghost predicate MissArrives(c: Config, s: System, s': System, report: Report) {
    && report in s.reports && report.key in s.entries
    && if s.entries[report.key].committed || s.entries[report.key].done then s' == s
       else EntryStep(c, s, s', report.key, H.SwitchToRepair)
  }

  ghost predicate Next(c: Config, s: System, s': System)
    requires ConfigOk(c)
  {
    || (exists k :: IssueCredit(c, s, s', k))
    || (exists token :: LoseCredit(s, s', token))
    || (exists k, r, id, q :: SendRequest(c, s, s', k, r, id, q))
    || (exists id :: LoseRequest(s, s', id))
    || (exists i, k, responder :: RouterCredit(c, s, s', i, k, responder))
    || (exists i, id, bypass :: RouterRequest(c, s, s', i, id, bypass))
    || (exists id :: Deliver(c, s, s', id))
    || (exists k, r :: DeliverRepair(c, s, s', k, r))
    || (exists k :: TimesOut(c, s, s', k))
    || (exists report :: MissArrives(c, s, s', report))
  }

  ghost predicate Init(c: Config, s: System) {
    && (forall i :: 0 <= i < |s.routers| ==>
          && R.Valid(s.routers[i], c.width)
          && (forall j :: 0 <= j < |s.routers[i].slots| ==> s.routers[i].slots[j] == R.EMPTY_SLOT))
    && s.held == map[] && s.net == map[] && s.credits == {} && s.entries == map[]
    && s.arrived == multiset{} && s.repaired == {} && s.reports == {}
  }

  // ------------------------------------------------------------ invariant

  ghost function Tokens(k: Key, ranks: set<nat>): set<(Key, nat)> {
    set r | r in ranks :: (k, r)
  }

  // Where a requester's single contribution to a key may be.
  datatype Place = Unspent | Flying(id: nat) | InSlot(i: nat, j: nat) | AtResponder

  ghost function At(s: System, p: Place): set<(Key, nat)> {
    match p
    case Unspent => s.credits
    case AtResponder => set t | t in s.arrived
    case Flying(id) => if id in s.net then Tokens(KeyOf(s.net[id].packet), s.net[id].ranks) else {}
    case InSlot(i, j) =>
      if i < |s.routers| && j < |s.routers[i].slots| then
        Tokens(Key(s.routers[i].slots[j].port, s.routers[i].slots[j].offset), HeldBy(s, i, j))
      else {}
  }

  /** No contribution is in two places, and only issued credits have contributions. */
  ghost predicate Disjoint(s: System) {
    && (forall p, q, t :: t in At(s, p) && t in At(s, q) ==> p == q)
    && (forall p, t :: t in At(s, p) ==> t.0 in s.entries)
  }

  /** Nobody's contribution reaches the responder twice. */
  ghost predicate ArrivedOnce(s: System) {
    forall t :: s.arrived[t] <= 1
  }

  ghost predicate PacketInv(c: Config, t: Tagged)
    requires ConfigOk(c)
  {
    var q, k := t.packet, KeyOf(t.packet);
    && R.WellFormed(q, c.width)
    && OfKind(c, k, q)
    && q.op == c.op(k) && q.dtype == DTYPE_INT32
    && q.source in t.ranks && t.ranks <= c.requesters(k)
    && R.Contribution(q) == |t.ranks|
    && q.payload == Reduced(c, k, t.ranks)
  }

  ghost predicate SlotInv(c: Config, slot: R.Slot, row: Payload, ranks: set<nat>)
    requires ConfigOk(c)
  {
    && (ranks == {} ==> slot.forwarded || slot.count == 0)
    && (slot.count == 0 && slot.ownerValid ==> ranks == {} && (forall w :: 0 <= w < |row| ==> row[w] == 0))
    && (slot.forwarded || !slot.ownerValid ==> ranks == {})
    && (ranks != {} ==>
          var k := Key(slot.port, slot.offset);
          && slot.count == |ranks| && ranks <= c.requesters(k)
          && slot.op == c.op(k) && slot.words == WidthOf(c, k) <= |row|
          && row[..slot.words] == Reduced(c, k, ranks)
          && slot.master.Some?
          && var m := slot.master.value;
             && KeyOf(m) == k && m.source in ranks && m.op == c.op(k) && m.dtype == DTYPE_INT32
             && OfKind(c, k, m))
  }

  ghost predicate RouterInv(c: Config, s: System, i: nat)
    requires ConfigOk(c) && i < |s.routers|
  {
    && R.Valid(s.routers[i], c.width)
    && (forall j :: 0 <= j < |s.routers[i].slots| ==>
          SlotInv(c, s.routers[i].slots[j], s.routers[i].rows[j], HeldBy(s, i, j)))
  }

  ghost predicate EntriesInv(c: Config, s: System)
    requires ConfigOk(c)
  {
    forall k :: k in s.entries ==> EntryExact(c, s, k, s.entries[k])
  }

  /** A pull entry is exact for the inputs of its offset; a push entry is done only with
      every requester's acknowledgement. */
  ghost predicate EntryExact(c: Config, s: System, k: Key, e: P.Entry) {
    && KeyOk(c, k)
    && if c.pull(k) then H.EntryInv(CallOf(c, k), c.inputs(k), c.bound, e) else PushExact(c, s, k, e)
  }

  ghost predicate AllArrived(c: Config, s: System, k: Key) {
    forall r :: r in c.requesters(k) ==> (k, r) in s.arrived
  }

  ghost predicate AllRepaired(c: Config, s: System, k: Key) {
    forall r :: r in c.requesters(k) ==> (k, r) in s.repaired
  }

  ghost predicate PushExact(c: Config, s: System, k: Key, e: P.Entry)
    requires KeyOk(c, k)
  {
    && P.EntryOk(CallOf(c, k), e) && e.committed && e.result == P.BuildResult(CallOf(c, k), [])
    && (forall r :: r in e.repairBitmap ==> (k, r) in s.repaired)
    && (e.done ==> AllArrived(c, s, k) || AllRepaired(c, s, k))
  }

  /** What may reach an entry: honest data for a pull offset; for a push offset
      acknowledgements, of which one with the full count speaks for everybody. */
  ghost predicate EventHonest(c: Config, s: System, k: Key, ev: H.Event) {
    && KeyOk(c, k)
    && if c.pull(k) then H.Honest(CallOf(c, k), c.inputs(k), c.bound, ev)
       else ev.Request? ==> AckHonest(c, s, k, ev.arrival)
  }

  ghost predicate AckHonest(c: Config, s: System, k: Key, m: P.Arrival) {
    && m.kind == P.ControlAck && m.payload == []
    && (m.repair ==> !m.aggregated && (k, m.rank) in s.repaired)
    && (!m.repair && m.aggregated && m.merged == P.Expected(CallOf(c, k)) ==> AllArrived(c, s, k))
  }

  /** A contribution that is nowhere any more. */
  ghost predicate Gone(s: System, t: (Key, nat)) {
    forall p :: t !in At(s, p)
  }

  /** A miss is reported for an offset that was issued, by a packet that carried some of its
      requesters' contributions, and these are lost for good. */
  ghost predicate ReportOk(c: Config, s: System, report: Report) {
    && report.key in s.entries && report.ranks != {} && report.ranks <= c.requesters(report.key)
    && forall r :: r in report.ranks ==> Gone(s, (report.key, r))
  }

  ghost predicate ReportsOk(c: Config, s: System) {
    forall report :: report in s.reports ==> ReportOk(c, s, report)
  }

  ghost predicate Inv(c: Config, s: System)
    requires ConfigOk(c)
  {
    && Disjoint(s) && ArrivedOnce(s) && ReportsOk(c, s)
    && (forall k, r :: (k, r) in s.credits ==> r in c.requesters(k))
    && (forall id :: id in s.net ==> PacketInv(c, s.net[id]))
    && (forall i :: 0 <= i < |s.routers| ==> RouterInv(c, s, i))
    && EntriesInv(c, s)
  }

  // --------------------------------------------------------------- proofs

  /** No contribution to an issued offset appears that was nowhere. */
  ghost predicate NoneReturns(s: System, s': System) {
    && s.entries.Keys <= s'.entries.Keys
    && forall p, t :: t in At(s', p) && t.0 in s.entries ==> exists q :: t in At(s, q)
  }

  lemma ReportsKept(c: Config, s: System, s': System)
    requires ReportsOk(c, s) && NoneReturns(s, s') && s'.reports == s.reports
    ensures ReportsOk(c, s')
  {
    hide At;
    forall report | report in s'.reports ensures ReportOk(c, s', report) {
      assert ReportOk(c, s, report);
      forall r, p | r in report.ranks ensures (report.key, r) !in At(s', p) {
        assert Gone(s, (report.key, r));
      }
    }
  }

  /** Contributions may only move between two places, or vanish. */
  lemma Redistribute(s: System, s': System, a: Place, b: Place)
    requires Disjoint(s) && s.entries.Keys <= s'.entries.Keys
    requires a != b
    requires forall p :: p != a && p != b ==> At(s', p) <= At(s, p)
    requires At(s', a) + At(s', b) <= At(s, a) + At(s, b)
    requires At(s', a) !! At(s', b)
    ensures Disjoint(s') && NoneReturns(s, s')
  {
    forall p, t | t in At(s', p)
      ensures t.0 in s'.entries && (t in At(s, p) || (t in At(s, a) + At(s, b) && (p == a || p == b))) {
    }
    forall p, q, t | t in At(s', p) && t in At(s', q) ensures p == q {
      if p == a || p == b {
        assert t in At(s, a) || t in At(s, b);
      }
      if q == a || q == b {
        assert t in At(s, a) || t in At(s, b);
      }
    }
  }

  lemma IssueKeepsDisjoint(c: Config, s: System, s': System, k: Key)
    requires ConfigOk(c) && Disjoint(s) && IssueCredit(c, s, s', k)
    ensures Disjoint(s') && NoneReturns(s, s')
  {
    hide ConfigOk, KeyOk, Issued;
    forall p ensures At(s', p) == if p == Unspent then At(s, p) + Tokens(k, c.requesters(k)) else At(s, p) {
    }
    NewTokens(s, s', k, Tokens(k, c.requesters(k)));
  }

  lemma NewTokens(s: System, s': System, k: Key, tokens: set<(Key, nat)>)
    requires Disjoint(s) && k !in s.entries && s'.entries.Keys == s.entries.Keys + {k}
    requires forall t :: t in tokens ==> t.0 == k
    requires forall p :: At(s', p) == if p == Unspent then At(s, p) + tokens else At(s, p)
    ensures Disjoint(s') && NoneReturns(s, s')
  {
    hide At;
    forall p, t | t in At(s', p) ensures t.0 in s'.entries && (t in At(s, p) || (p == Unspent && t.0 == k)) {
      assert t in At(s, p) ==> t.0 in s.entries;
    }
    forall p, q, t | t in At(s', p) && t in At(s', q) ensures p == q {
      assert t in At(s, p) || t in At(s, q) ==> t.0 in s.entries;
    }
  }

  lemma IssuedIsExact(c: Config, s: System, k: Key)
    requires ConfigOk(c)
    ensures EntryExact(c, s, k, Issued(c, k))
  {
    assert KeyOk(c, k);
  }

  lemma IssueKeepsInv(c: Config, s: System, s': System, k: Key)
    requires ConfigOk(c) && Inv(c, s) && IssueCredit(c, s, s', k)
    ensures Inv(c, s')
  {
    hide PacketInv, RouterInv, EntryExact;
    IssueKeepsDisjoint(c, s, s', k);
    ReportsKept(c, s, s');
    SameRouters(c, s, s');
    IssuedIsExact(c, s', k);
    forall x | x in s'.entries ensures EntryExact(c, s', x, s'.entries[x]) {
      if x != k { SameEntry(c, s, s', x); }
    }
  }

  lemma SameEntry(c: Config, s: System, s': System, x: Key)
    requires ConfigOk(c) && EntriesInv(c, s) && x in s.entries && s'.arrived == s.arrived && s'.repaired == s.repaired
    ensures EntryExact(c, s', x, s.entries[x])
  {
    assert EntryExact(c, s, x, s.entries[x]);
  }

  lemma SameRouters(c: Config, s: System, s': System)
    requires ConfigOk(c) && Inv(c, s)
    requires s'.routers == s.routers && s'.held == s.held
    ensures forall i :: 0 <= i < |s'.routers| ==> RouterInv(c, s', i)
  {
    forall i | 0 <= i < |s'.routers| ensures RouterInv(c, s', i) {
      assert RouterInv(c, s, i);
    }
  }

  lemma LoseCreditKeepsInv(c: Config, s: System, s': System, token: (Key, nat))
    requires ConfigOk(c) && Inv(c, s) && LoseCredit(s, s', token)
    ensures Inv(c, s')
  {
    hide At, PacketInv, RouterInv, EntriesInv, ReportsOk, NoneReturns;
    FewerPlaces(s, s');
    SamePlaces(s, s');
    ReportsKept(c, s, s');
    SameRouters(c, s, s');
    EntriesStayExact(c, s, s');
  }

  lemma FewerPlaces(s: System, s': System)
    requires s'.routers == s.routers && s'.held == s.held && s'.arrived == s.arrived
    requires s'.credits <= s.credits && s'.net.Keys <= s.net.Keys
    requires forall id :: id in s'.net ==> s'.net[id] == s.net[id]
    ensures forall p :: At(s', p) <= At(s, p)
  {
  }

  lemma OwnPacketInv(c: Config, k: Key, r: nat, q: R.Request)
    requires ConfigOk(c) && OwnRequest(c, k, r, q) && r in c.requesters(k)
    ensures PacketInv(c, Tagged(q, {r}))
  {
    assert KeyOk(c, k);
    FoldSingleton(c.op(k), c.inputs(k), WidthOf(c, k), r, c.bound);
  }

  lemma SendKeepsDisjoint(c: Config, s: System, s': System, k: Key, r: nat, id: nat, q: R.Request)
    requires ConfigOk(c) && Disjoint(s) && SendRequest(c, s, s', k, r, id, q)
    ensures Disjoint(s') && NoneReturns(s, s')
  {
    assert At(s', Flying(id)) == {(k, r)};
    assert (k, r) in At(s, Unspent);
    Redistribute(s, s', Unspent, Flying(id));
  }

  lemma SendKeepsInv(c: Config, s: System, s': System, k: Key, r: nat, id: nat, q: R.Request)
    requires ConfigOk(c) && Inv(c, s) && SendRequest(c, s, s', k, r, id, q)
    ensures Inv(c, s')
  {
    SendKeepsDisjoint(c, s, s', k, r, id, q);
    ReportsKept(c, s, s');
    OwnPacketInv(c, k, r, q);
    SameRouters(c, s, s');
  }

  lemma LoseRequestKeepsInv(c: Config, s: System, s': System, id: nat)
    requires ConfigOk(c) && Inv(c, s) && LoseRequest(s, s', id)
    ensures Inv(c, s')
  {
    hide At, PacketInv, RouterInv, EntriesInv, ReportsOk, NoneReturns;
    FewerPlaces(s, s');
    SamePlaces(s, s');
    ReportsKept(c, s, s');
    SameRouters(c, s, s');
    EntriesStayExact(c, s, s');
  }

  /** A new binding only empties the slot it takes. */
  ghost predicate Rebound(c: Config, s: System, s': System, i: nat, j: nat, k: Key, responder: nat) {
    && i < |s.routers| && R.Valid(s.routers[i], c.width) && j == s.routers[i].alloc
    && R.FindSlot(s.routers[i].slots, k.port, k.offset, responder, 0) == |s.routers[i].slots|
    && RouterCredit(c, s, s', i, k, responder)
  }

  lemma ReboundKeepsDisjoint(c: Config, s: System, s': System, i: nat, j: nat, k: Key, responder: nat)
    requires Disjoint(s) && Rebound(c, s, s', i, j, k, responder)
    ensures Disjoint(s') && NoneReturns(s, s')
  {
    forall p ensures At(s', p) <= At(s, p) {
      if p.InSlot? && !(p.i == i && p.j == j) {
        assert HeldBy(s', p.i, p.j) == HeldBy(s, p.i, p.j);
      }
    }
    Redistribute(s, s', Unspent, InSlot(i, j));
  }

  lemma ReboundKeepsRouters(c: Config, s: System, s': System, i: nat, j: nat, k: Key, responder: nat)
    requires ConfigOk(c) && Rebound(c, s, s', i, j, k, responder)
    requires forall x :: 0 <= x < |s.routers| ==> RouterInv(c, s, x)
    ensures forall x :: 0 <= x < |s'.routers| ==> RouterInv(c, s', x)
  {
    hide ConfigOk, Reduced;
    forall x | 0 <= x < |s'.routers| ensures RouterInv(c, s', x) {
      assert RouterInv(c, s, x);
      forall y | 0 <= y < |s'.routers[x].slots|
        ensures SlotInv(c, s'.routers[x].slots[y], s'.routers[x].rows[y], HeldBy(s', x, y))
      {
        if !(x == i && y == j) {
          assert HeldBy(s', x, y) == HeldBy(s, x, y);
        }
      }
    }
  }

  lemma RouterCreditKeepsInv(c: Config, s: System, s': System, i: nat, k: Key, responder: nat)
    requires ConfigOk(c) && Inv(c, s) && RouterCredit(c, s, s', i, k, responder)
    ensures Inv(c, s')
  {
    hide ConfigOk, Disjoint, PacketInv, RouterInv, EntryExact, R.Valid, ReportsOk, NoneReturns;
    var before := s.routers[i];
    if R.FindSlot(before.slots, k.port, k.offset, responder, 0) < |before.slots| {
      assert s'.routers == s.routers;
      SameRouters(c, s, s');
      assert s' == s;
    } else {
      ReboundKeepsDisjoint(c, s, s', i, before.alloc, k, responder);
      ReportsKept(c, s, s');
      ReboundKeepsRouters(c, s, s', i, before.alloc, k, responder);
    }
    EntriesStayExact(c, s, s');
  }

  /** Merging an accepted packet into a slot: the sets are disjoint, so the
      count still is the number of contributors and the register their reduction. */
  lemma MergeIsExact(c: Config, k: Key, a: set<nat>, b: set<nat>)
    requires ConfigOk(c) && a !! b
    ensures |a + b| == |a| + |b|
    ensures Reduced(c, k, a + b) == Combine(c.op(k), Reduced(c, k, a), Reduced(c, k, b))
  {
    assert KeyOk(c, k);
    FoldUnion(c.op(k), c.inputs(k), WidthOf(c, k), a, b, c.bound);
  }

  lemma AcceptKeepsSlot(c: Config, slot: R.Slot, row: Payload, held: set<nat>, t: Tagged, fanin: nat)
    requires ConfigOk(c) && SlotInv(c, slot, row, held) && PacketInv(c, t)
    requires |row| == c.width
    requires R.SlotAccept(slot, t.packet, fanin).Accept?
    requires held !! t.ranks
    ensures var v := R.SlotAccept(slot, t.packet, fanin);
            var row' := Accumulate(v.slot.op, slot.count == 0, row, t.packet.payload);
            var merged := R.MergeEcn(v.slot, t.packet.ecn);
            && SlotInv(c, merged, row', held + t.ranks)
            && (merged.master.value.depth > 0 ==> PacketInvOfMaster(c, merged, row', held + t.ranks))
  {
    var q, k := t.packet, KeyOf(t.packet);
    var v := R.SlotAccept(slot, q, fanin);
    MergeIsExact(c, k, held, t.ranks);
    assert q.source in held + t.ranks;
    if slot.count == 0 {
      FirstContribution(q.op, row, q.payload);
      assert held + t.ranks == t.ranks;
    } else {
      assert Accumulate(v.slot.op, false, row, q.payload)[..|q.payload|] ==
        Combine(v.slot.op, row[..|q.payload|], q.payload);
    }
  }

  /** The master finalized from a slot is the packet of its contributors. */
  ghost predicate PacketInvOfMaster(c: Config, slot: R.Slot, row: Payload, ranks: set<nat>)
    requires ConfigOk(c)
  {
    && slot.master.Some? && slot.master.value.depth > 0 && slot.words <= |row|
    && var m := R.Finalize(slot, row);
       && KeyOf(m) == Key(slot.port, slot.offset)
       && OfKind(c, KeyOf(m), m) && m.op == c.op(KeyOf(m)) && m.dtype == DTYPE_INT32
       && m.source in ranks && ranks <= c.requesters(KeyOf(m))
       && R.Contribution(m) == |ranks|
       && m.payload == Reduced(c, KeyOf(m), ranks)
  }

  lemma ForwardKeepsPacket(c: Config, st: R.RouterState, bypass: bool, t: Tagged)
    requires ConfigOk(c) && R.Valid(st, c.width) && PacketInv(c, t)
    requires R.HandleRequest(st, bypass, t.packet, c.width).1.Forward?
    ensures var (st', out) := R.HandleRequest(st, bypass, t.packet, c.width);
            st' == st && KeyOf(out.request) == KeyOf(t.packet) && PacketInv(c, Tagged(out.request, t.ranks))
  {
    hide ConfigOk;
  }

  lemma ForwardKeepsInv(c: Config, s: System, s': System, i: nat, id: nat, bypass: bool)
    requires ConfigOk(c) && Inv(c, s) && RouterRequest(c, s, s', i, id, bypass)
    requires R.HandleRequest(s.routers[i], bypass, s.net[id].packet, c.width).1.Forward?
    ensures Inv(c, s')
  {
    hide ConfigOk, PacketInv, RouterInv, EntryExact, R.HandleRequest;
    assert PacketInv(c, s.net[id]);
    ForwardKeepsPacket(c, s.routers[i], bypass, s.net[id]);
    assert s.routers[i := s.routers[i]] == s.routers;
    SameRouters(c, s, s');
    SamePlaces(s, s');
    ReportsKept(c, s, s');
    EntriesStayExact(c, s, s');
  }

  lemma SamePlaces(s: System, s': System)
    requires Disjoint(s) && s.entries.Keys <= s'.entries.Keys
    requires forall p :: At(s', p) <= At(s, p)
    ensures Disjoint(s') && NoneReturns(s, s')
  {
    Redistribute(s, s', Unspent, Flying(0));
  }

  lemma MissKeepsInv(c: Config, s: System, s': System, i: nat, id: nat, bypass: bool)
    requires ConfigOk(c) && Inv(c, s) && RouterRequest(c, s, s', i, id, bypass)
    requires R.HandleRequest(s.routers[i], bypass, s.net[id].packet, c.width).1.Miss?
    ensures Inv(c, s')
  {
    hide PacketInv, RouterInv, EntriesInv, ReportOk, At, R.HandleRequest;
    MissNamesRequest(s.routers[i], bypass, s.net[id].packet, c.width);
    var lost := s.(net := s.net - {id});
    assert s.routers[i := s.routers[i]] == s.routers;
    LoseRequestKeepsInv(c, s, lost, id);
    NewReportOk(c, s, lost, id);
    SameRouters(c, lost, s');
    SameSystem(c, lost, s', Report(KeyOf(s.net[id].packet), s.net[id].ranks));
  }

  lemma MissNamesRequest(st: R.RouterState, bypass: bool, q: R.Request, width: nat)
    requires R.Valid(st, width) && R.WellFormed(q, width) && R.HandleRequest(st, bypass, q, width).1.Miss?
    ensures R.HandleRequest(st, bypass, q, width) == (st, R.Miss(q.port, q.offset))
  {
    R.MissNamesRequest(st, bypass, q, width);
  }

  /** The contributions of a refused packet are nowhere once it is gone. */
  lemma NewReportOk(c: Config, s: System, lost: System, id: nat)
    requires ConfigOk(c) && Inv(c, s) && id in s.net && lost == s.(net := s.net - {id})
    ensures ReportOk(c, lost, Report(KeyOf(s.net[id].packet), s.net[id].ranks))
  {
    hide RouterInv, EntriesInv, ReportsOk;
    var k, ranks := KeyOf(s.net[id].packet), s.net[id].ranks;
    assert PacketInv(c, s.net[id]);
    FewerPlaces(s, lost);
    assert At(lost, Flying(id)) == {};
    assert s.net[id].packet.source in ranks;
    forall r | r in ranks ensures k in s.entries && Gone(lost, (k, r)) {
      assert (k, r) in At(s, Flying(id));
      forall p ensures (k, r) !in At(lost, p) {
        assert (k, r) in At(lost, p) ==> (k, r) in At(s, p);
      }
    }
  }

  lemma SameSystem(c: Config, s: System, s': System, report: Report)
    requires ConfigOk(c) && Inv(c, s) && ReportOk(c, s, report) && s' == s.(reports := s.reports + {report})
    requires forall i :: 0 <= i < |s'.routers| ==> RouterInv(c, s', i)
    ensures Inv(c, s')
  {
    hide RouterInv, PacketInv, EntryExact;
    FewerPlaces(s, s');
    SamePlaces(s, s');
    EntriesStayExact(c, s, s');
    forall x | x in s'.reports ensures ReportOk(c, s', x) {
      assert ReportOk(c, s, x);
      forall r | r in x.ranks ensures Gone(s', (x.key, r)) { assert Gone(s, (x.key, r)); }
    }
  }

  lemma HeldAndFlyingDisjoint(s: System, i: nat, j: nat, id: nat)
    requires Disjoint(s) && id in s.net && i < |s.routers| && j < |s.routers[i].slots|
    requires KeyOf(s.net[id].packet) == Key(s.routers[i].slots[j].port, s.routers[i].slots[j].offset)
    ensures HeldBy(s, i, j) !! s.net[id].ranks
  {
    var k := KeyOf(s.net[id].packet);
    forall r | r in s.net[id].ranks ensures r !in HeldBy(s, i, j) {
      assert (k, r) in At(s, Flying(id));
      assert r in HeldBy(s, i, j) <==> (k, r) in At(s, InSlot(i, j));
    }
  }

  /** A request taken in by slot `j` of router `i`: the slot and its register
      change, and the packet's contributors stay in the slot or leave in a master. */
  ghost predicate Merges(c: Config, s: System, s': System, i: nat, id: nat, j: nat, slot: R.Slot, row: Payload,
                         master: Option<R.Request>)
  {
    && i < |s.routers| && id in s.net && j < |s.routers[i].slots| == |s.routers[i].rows|
    && |s'.routers| == |s.routers| && s'.routers == s.routers[i := s'.routers[i]]
    && s'.routers[i].slots == s.routers[i].slots[j := slot]
    && s'.routers[i].rows == s.routers[i].rows[j := row]
    && Key(slot.port, slot.offset) == Key(s.routers[i].slots[j].port, s.routers[i].slots[j].offset) ==
       KeyOf(s.net[id].packet)
    && s'.credits == s.credits && s'.entries == s.entries && s'.arrived == s.arrived && s'.repaired == s.repaired
    && s'.reports == s.reports
    && var ranks := HeldBy(s, i, j) + s.net[id].ranks;
       match master
       case None => s'.net == s.net - {id} && s'.held == s.held[(i, j) := ranks]
       case Some(m) =>
         KeyOf(m) == KeyOf(s.net[id].packet) && s'.net == s.net[id := Tagged(m, ranks)]
             && s'.held == s.held[(i, j) := {}]
  }

  lemma MergeKeepsDisjoint(c: Config, s: System, s': System, i: nat, id: nat, j: nat, slot: R.Slot, row: Payload,
                           master: Option<R.Request>)
    requires Disjoint(s) && Merges(c, s, s', i, id, j, slot, row, master)
    ensures Disjoint(s') && NoneReturns(s, s')
  {
    forall p | p != Flying(id) && p != InSlot(i, j) ensures At(s', p) <= At(s, p) {
      if p.InSlot? {
        assert HeldBy(s', p.i, p.j) == HeldBy(s, p.i, p.j);
      }
    }
    assert HeldBy(s', i, j) == if master.None? then HeldBy(s, i, j) + s.net[id].ranks else {};
    Redistribute(s, s', Flying(id), InSlot(i, j));
  }

  lemma MergeKeepsRouters(c: Config, s: System, s': System, i: nat, id: nat, j: nat, slot: R.Slot, row: Payload,
                          master: Option<R.Request>)
    requires ConfigOk(c) && Merges(c, s, s', i, id, j, slot, row, master)
    requires forall x :: 0 <= x < |s.routers| ==> RouterInv(c, s, x)
    requires R.Valid(s'.routers[i], c.width) && SlotInv(c, slot, row, HeldBy(s', i, j))
    ensures forall x :: 0 <= x < |s'.routers| ==> RouterInv(c, s', x)
  {
    forall x | 0 <= x < |s'.routers| ensures RouterInv(c, s', x) {
      assert RouterInv(c, s, x);
      forall y | 0 <= y < |s'.routers[x].slots|
        ensures SlotInv(c, s'.routers[x].slots[y], s'.routers[x].rows[y], HeldBy(s', x, y))
      {
        if !(x == i && y == j) {
          assert HeldBy(s', x, y) == HeldBy(s, x, y);
        }
      }
    }
  }

  /** The accept branch of a router: which slot and register row change, and how. */
  lemma TakenIn(st: R.RouterState, bypass: bool, q: R.Request, width: nat)
    requires R.Valid(st, width) && R.WellFormed(q, width)
    requires !R.HandleRequest(st, bypass, q, width).1.Forward? && !R.HandleRequest(st, bypass, q, width).1.Miss?
    ensures 0 < q.depth && q.locs[q.depth - 1] < |st.slots|
    ensures
      var j, fanin := q.locs[q.depth - 1], q.fanins[q.depth - 1];
      var v := R.SlotAccept(st.slots[j], q, fanin);
      v.Accept? &&
      var slot, row := R.MergeEcn(v.slot, q.ecn), Accumulate(v.slot.op, st.slots[j].count == 0, st.rows[j], q.payload);
      var (st', out) := R.HandleRequest(st, bypass, q, width);
      && slot.master.Some? && slot.master.value.depth > 0 && slot.words <= |row|
      && slot.port == st.slots[j].port == q.port && slot.offset == st.slots[j].offset == q.offset
      && st'.slots == st.slots[j := if v.complete then slot.(forwarded := true) else slot]
      && st'.rows == st.rows[j := row]
      && out == if v.complete then R.Master(R.Finalize(slot, row)) else R.Absorbed
  {
    R.AcceptKeepsSlot(st.slots[q.locs[q.depth - 1]], q, q.fanins[q.depth - 1], q.locs[q.depth - 1], width);
  }

  /** A request taken in, with the slot it leaves and the master it completes in order. */
  ghost predicate MergesWell(c: Config, s: System, s': System, i: nat, id: nat, j: nat, slot: R.Slot, row: Payload,
                             master: Option<R.Request>)
    requires ConfigOk(c)
  {
    && Merges(c, s, s', i, id, j, slot, row, master)
    && R.Valid(s'.routers[i], c.width) && SlotInv(c, slot, row, HeldBy(s', i, j))
    && (master.Some? ==> PacketInv(c, s'.net[id]))
  }

  ghost predicate TakesIn(c: Config, s: System, i: nat, id: nat, bypass: bool)
    requires i < |s.routers| && id in s.net && R.Valid(s.routers[i], c.width) && R.WellFormed(s.net[id].packet, c.width)
  {
    !R.HandleRequest(s.routers[i], bypass, s.net[id].packet, c.width).1.Forward?
    && !R.HandleRequest(s.routers[i], bypass, s.net[id].packet, c.width).1.Miss?
  }

  /** What an accepted request does to a router, slot and output included. */
  lemma AcceptedRequestMerges(c: Config, s: System, s': System, i: nat, id: nat, bypass: bool)
    requires ConfigOk(c) && Disjoint(s) && RouterRequest(c, s, s', i, id, bypass)
    requires RouterInv(c, s, i) && PacketInv(c, s.net[id]) && TakesIn(c, s, i, id, bypass)
    ensures exists j: nat, slot, row, master :: MergesWell(c, s, s', i, id, j, slot, row, master)
  {
    hide Disjoint, Reduced, Accumulate, R.HandleRequest, R.SlotAccept, R.MergeEcn, R.SlotValid;
    var t, st := s.net[id], s.routers[i];
    var q := t.packet;
    TakenIn(st, bypass, q, c.width);
    var level := q.depth - 1;
    var j := q.locs[level];
    HeldAndFlyingDisjoint(s, i, j, id);
    AcceptKeepsSlot(c, st.slots[j], st.rows[j], HeldBy(s, i, j), t, q.fanins[level]);
    var v := R.SlotAccept(st.slots[j], q, q.fanins[level]);
    var slot := R.MergeEcn(v.slot, q.ecn);
    var row := Accumulate(v.slot.op, st.slots[j].count == 0, st.rows[j], q.payload);
    if v.complete {
      assert MergesWell(c, s, s', i, id, j, slot.(forwarded := true), row, Some(R.Finalize(slot, row)));
    } else {
      assert MergesWell(c, s, s', i, id, j, slot, row, None);
    }
  }

  lemma MergedKeepsInv(c: Config, s: System, s': System, i: nat, id: nat, j: nat, slot: R.Slot, row: Payload,
                       master: Option<R.Request>)
    requires ConfigOk(c) && Inv(c, s) && MergesWell(c, s, s', i, id, j, slot, row, master)
    ensures Inv(c, s')
  {
    hide Disjoint, ReportsOk, NoneReturns, EntryExact, RouterInv, PacketInv;
    EntriesStayExact(c, s, s');
    MergeKeepsDisjoint(c, s, s', i, id, j, slot, row, master);
    ReportsKept(c, s, s');
    MergeKeepsRouters(c, s, s', i, id, j, slot, row, master);
    MergeKeepsPackets(c, s, s', i, id, j, slot, row, master);
  }

  lemma MergeKeepsPackets(c: Config, s: System, s': System, i: nat, id: nat, j: nat, slot: R.Slot, row: Payload,
                          master: Option<R.Request>)
    requires ConfigOk(c) && MergesWell(c, s, s', i, id, j, slot, row, master)
    requires forall x :: x in s.net ==> PacketInv(c, s.net[x])
    ensures forall x :: x in s'.net ==> PacketInv(c, s'.net[x])
  {
    hide PacketInv, SlotInv, R.Valid, ConfigOk, HeldBy;
    forall x | x in s'.net ensures PacketInv(c, s'.net[x]) {
      assert x != id ==> s'.net[x] == s.net[x];
    }
  }

  lemma MergeKeepsInv(c: Config, s: System, s': System, i: nat, id: nat, bypass: bool)
    requires ConfigOk(c) && Inv(c, s) && RouterRequest(c, s, s', i, id, bypass) && TakesIn(c, s, i, id, bypass)
    ensures Inv(c, s')
  {
    assert RouterInv(c, s, i) && PacketInv(c, s.net[id]);
    AcceptedRequestMerges(c, s, s', i, id, bypass);
    var j: nat, slot, row, master :| MergesWell(c, s, s', i, id, j, slot, row, master);
    MergedKeepsInv(c, s, s', i, id, j, slot, row, master);
  }

  lemma RouterRequestKeepsInv(c: Config, s: System, s': System, i: nat, id: nat, bypass: bool)
    requires ConfigOk(c) && Inv(c, s) && RouterRequest(c, s, s', i, id, bypass)
    ensures Inv(c, s')
  {
    match R.HandleRequest(s.routers[i], bypass, s.net[id].packet, c.width).1
    case Forward(_) => ForwardKeepsInv(c, s, s', i, id, bypass);
    case Miss(_, _) => MissKeepsInv(c, s, s', i, id, bypass);
    case Absorbed => MergeKeepsInv(c, s, s', i, id, bypass);
    case Master(_) => MergeKeepsInv(c, s, s', i, id, bypass);
  }

  /** A packet whose count is the number of requesters carries all of them. */
  lemma FullCountMeansEveryRequester(c: Config, t: Tagged)
    requires ConfigOk(c) && PacketInv(c, t)
    requires R.Contribution(t.packet) == |c.requesters(KeyOf(t.packet))|
    ensures t.ranks == c.requesters(KeyOf(t.packet))
    ensures t.packet.payload == Reduced(c, KeyOf(t.packet), c.requesters(KeyOf(t.packet)))
  {
    SubsetOfEqualSize(t.ranks, c.requesters(KeyOf(t.packet)));
  }

  /** What the network delivers to a responder is honest: this is where the
      anonymous counting of the routers is discharged. */
  lemma DeliveredPacketIsHonest(c: Config, s: System, t: Tagged)
    requires ConfigOk(c) && PacketInv(c, t)
    requires forall r :: r in t.ranks ==> (KeyOf(t.packet), r) in s.arrived
    ensures EventHonest(c, s, KeyOf(t.packet), H.Request(ArrivalOf(t.packet)))
  {
    var k := KeyOf(t.packet);
    assert KeyOk(c, k);
    if R.Contribution(t.packet) == |c.requesters(k)| {
      FullCountMeansEveryRequester(c, t);
    }
    if |c.requesters(k)| == 1 {
      SubsetOfEqualSize({t.packet.source}, c.requesters(k));
      FoldSingleton(c.op(k), c.inputs(k), WidthOf(c, k), t.packet.source, c.bound);
      if !t.packet.aggregated {
        assert t.ranks == {t.packet.source};
      }
    }
  }

  /** Acknowledgements and repairs only accumulate. */
  lemma EntriesStayExact(c: Config, s: System, s': System)
    requires ConfigOk(c) && EntriesInv(c, s) && s'.entries == s.entries
    requires s.arrived <= s'.arrived && s.repaired <= s'.repaired
    ensures EntriesInv(c, s')
  {
    forall k | k in s'.entries ensures EntryExact(c, s', k, s'.entries[k]) {
      assert EntryExact(c, s, k, s.entries[k]);
    }
  }

  lemma ArriveKeepsDisjoint(s: System, id: nat)
    requires Disjoint(s) && id in s.net
    ensures Disjoint(Arrive(s, id)) && NoneReturns(s, Arrive(s, id))
  {
    var s' := Arrive(s, id);
    var tokens := Tokens(KeyOf(s.net[id].packet), s.net[id].ranks);
    assert tokens == At(s, Flying(id));
    assert At(s', AtResponder) == At(s, AtResponder) + tokens;
    Redistribute(s, s', Flying(id), AtResponder);
  }

  lemma ArriveKeepsOnce(s: System, id: nat)
    requires Disjoint(s) && ArrivedOnce(s) && id in s.net
    ensures ArrivedOnce(Arrive(s, id))
  {
    var s' := Arrive(s, id);
    forall t ensures s'.arrived[t] <= 1 {
      if t in s.arrived {
        assert t in At(s, AtResponder);
        assert t !in At(s, Flying(id));
      }
    }
  }

  lemma ArriveKeepsInv(c: Config, s: System, id: nat)
    requires ConfigOk(c) && Inv(c, s) && id in s.net
    ensures Inv(c, Arrive(s, id))
    ensures forall r :: r in s.net[id].ranks ==> (KeyOf(s.net[id].packet), r) in Arrive(s, id).arrived
  {
    hide ConfigOk, Disjoint, ArrivedOnce, PacketInv, RouterInv, EntryExact;
    ArriveKeepsDisjoint(s, id);
    ReportsKept(c, s, Arrive(s, id));
    ArriveKeepsOnce(s, id);
    SameRouters(c, s, Arrive(s, id));
    EntriesStayExact(c, s, Arrive(s, id));
  }

  lemma RepairAskedKeepsInv(c: Config, s: System, k: Key, r: nat)
    requires ConfigOk(c) && Inv(c, s)
    ensures Inv(c, s.(repaired := s.repaired + {(k, r)}))
  {
    hide PacketInv, RouterInv, EntryExact;
    var s' := s.(repaired := s.repaired + {(k, r)});
    SameRouters(c, s, s');
    SamePlaces(s, s');
    ReportsKept(c, s, s');
    EntriesStayExact(c, s, s');
  }

  /** A push entry is completed only by a count that speaks for everybody, or by
      everybody's repair. */
  lemma PushEventKeeps(c: Config, s: System, k: Key, e: P.Entry, ev: H.Event)
    requires ConfigOk(c) && !c.pull(k) && KeyOk(c, k) && PushExact(c, s, k, e)
    requires EventHonest(c, s, k, ev) && H.EventOk(CallOf(c, k), ev)
    ensures PushExact(c, s, k, H.Step(CallOf(c, k), e, ev))
  {
    hide ConfigOk, AllArrived;
    if ev.Request? && ev.arrival.repair {
      var a := P.AccumulateInput(e, ev.arrival.rank, [], true, 1);
      if c.requesters(k) <= a.repairBitmap { assert AllRepaired(c, s, k); }
    }
  }

  lemma EntriesChangedOnly(c: Config, s: System, s': System)
    requires ConfigOk(c) && Inv(c, s) && EntriesInv(c, s')
    requires s' == s.(entries := s'.entries) && s.entries.Keys <= s'.entries.Keys
    ensures Inv(c, s')
  {
    hide ConfigOk, PacketInv, RouterInv, EntryExact;
    SameRouters(c, s, s');
    SamePlaces(s, s');
    ReportsKept(c, s, s');
  }

  /** Putting an entry on the repair path keeps it exact. */
  lemma RepairKeepsExact(c: Config, s: System, k: Key, e: P.Entry)
    requires ConfigOk(c) && EntryExact(c, s, k, e)
    ensures EntryExact(c, s, k, P.EnterRepair(e))
  {
    assert KeyOk(c, k);
    if c.pull(k) {
      H.EventKeepsEntry(CallOf(c, k), c.inputs(k), c.bound, e, H.SwitchToRepair);
    } else {
      PushEventKeeps(c, s, k, e, H.SwitchToRepair);
    }
  }

  lemma EntryStepKeepsInv(c: Config, s: System, s': System, k: Key, ev: H.Event)
    requires ConfigOk(c) && Inv(c, s) && EntryStep(c, s, s', k, ev) && EventHonest(c, s, k, ev)
    ensures Inv(c, s')
  {
    hide PacketInv, RouterInv, PushExact, H.EntryInv, H.Step, AckHonest, H.Honest;
    assert EntryExact(c, s, k, s.entries[k]);
    if c.pull(k) {
      H.EventKeepsEntry(CallOf(c, k), c.inputs(k), c.bound, s.entries[k], ev);
    } else {
      PushEventKeeps(c, s, k, s.entries[k], ev);
    }
    EntryWritten(c, s, s', k);
    EntriesChangedOnly(c, s, s');
  }

  lemma EntryWritten(c: Config, s: System, s': System, k: Key)
    requires ConfigOk(c) && EntriesInv(c, s) && k in s'.entries && s' == s.(entries := s.entries[k := s'.entries[k]])
    requires EntryExact(c, s, k, s'.entries[k])
    ensures EntriesInv(c, s')
  {
    hide H.EntryInv;
    forall x | x in s'.entries ensures EntryExact(c, s', x, s'.entries[x]) {
      assert x != k ==> EntryExact(c, s, x, s.entries[x]);
    }
  }

  lemma DeliverKeepsInv(c: Config, s: System, s': System, id: nat)
    requires ConfigOk(c) && Inv(c, s) && Deliver(c, s, s', id)
    ensures Inv(c, s')
  {
    hide Disjoint, ArrivedOnce, RouterInv, EntriesInv, EventHonest;
    var t := s.net[id];
    assert PacketInv(c, t);
    ArriveKeepsInv(c, s, id);
    DeliveredPacketIsHonest(c, Arrive(s, id), t);
    EntryStepKeepsInv(c, Arrive(s, id), s', KeyOf(t.packet), H.Request(ArrivalOf(t.packet)));
  }

  lemma DeliverRepairKeepsInv(c: Config, s: System, s': System, k: Key, r: nat)
    requires ConfigOk(c) && Inv(c, s) && DeliverRepair(c, s, s', k, r)
    ensures Inv(c, s')
  {
    hide Disjoint, ArrivedOnce, RouterInv, EntriesInv, PacketInv;
    assert KeyOk(c, k);
    RepairAskedKeepsInv(c, s, k, r);
    EntryStepKeepsInv(c, s.(repaired := s.repaired + {(k, r)}), s', k, H.Request(RepairArrival(c, k, r)));
  }

  lemma SwitchKeepsInv(c: Config, s: System, s': System, k: Key)
    requires ConfigOk(c) && Inv(c, s) && EntryStep(c, s, s', k, H.SwitchToRepair)
    ensures Inv(c, s')
  {
    hide Disjoint, ArrivedOnce, RouterInv, EntriesInv, PacketInv, ReportsOk;
    assert KeyOk(c, k);
    EntryStepKeepsInv(c, s, s', k, H.SwitchToRepair);
  }

  lemma NextKeepsInv(c: Config, s: System, s': System)
    requires ConfigOk(c) && Inv(c, s) && Next(c, s, s')
    ensures Inv(c, s')
  {
    if k :| IssueCredit(c, s, s', k) {
      IssueKeepsInv(c, s, s', k);
    } else if token :| LoseCredit(s, s', token) {
      LoseCreditKeepsInv(c, s, s', token);
    } else if k, r, id, q :| SendRequest(c, s, s', k, r, id, q) {
      SendKeepsInv(c, s, s', k, r, id, q);
    } else if id :| LoseRequest(s, s', id) {
      LoseRequestKeepsInv(c, s, s', id);
    } else if i, k, responder :| RouterCredit(c, s, s', i, k, responder) {
      RouterCreditKeepsInv(c, s, s', i, k, responder);
    } else if i, id, bypass :| RouterRequest(c, s, s', i, id, bypass) {
      RouterRequestKeepsInv(c, s, s', i, id, bypass);
    } else if id :| Deliver(c, s, s', id) {
      DeliverKeepsInv(c, s, s', id);
    } else if k, r :| DeliverRepair(c, s, s', k, r) {
      DeliverRepairKeepsInv(c, s, s', k, r);
    } else if k :| TimesOut(c, s, s', k) {
      SwitchKeepsInv(c, s, s', k);
    } else {
      var report :| MissArrives(c, s, s', report);
      if s' != s { SwitchKeepsInv(c, s, s', report.key); }
    }
  }

  /** The states a run reaches in `n` steps. */
  ghost predicate ReachedIn(c: Config, s: System, n: nat)
    requires ConfigOk(c)
    decreases n
  {
    if n == 0 then Init(c, s)
    else exists before :: ReachedIn(c, before, n - 1) && Next(c, before, s)
  }

  ghost predicate Reachable(c: Config, s: System)
    requires ConfigOk(c)
  {
    exists n: nat :: ReachedIn(c, s, n)
  }

  lemma InitInv(c: Config, s: System)
    requires ConfigOk(c) && Init(c, s)
    ensures Inv(c, s)
  {
    assert forall p :: At(s, p) == {};
  }

  lemma {:induction false} ReachedInv(c: Config, s: System, n: nat)
    requires ConfigOk(c) && ReachedIn(c, s, n)
    ensures Inv(c, s)
    decreases n
  {
    hide Init, Next, Inv;
    if n == 0 {
      InitInv(c, s);
    } else {
      var before :| ReachedIn(c, before, n - 1) && Next(c, before, s);
      ReachedInv(c, before, n - 1);
      NextKeepsInv(c, before, s);
    }
  }

  lemma ReachableInv(c: Config, s: System)
    requires ConfigOk(c) && Reachable(c, s)
    ensures Inv(c, s)
  {
    var n: nat :| ReachedIn(c, s, n);
    ReachedInv(c, s, n);
  }

  /** Contributor sets: in every reachable state the contributions of a credit
      are in pairwise disjoint places, and every count, in a packet or in a live
      slot, is the number of distinct requesters whose inputs it stands for. */
  lemma CountsAreContributors(c: Config, s: System)
    requires ConfigOk(c) && Reachable(c, s)
    ensures Disjoint(s) && ArrivedOnce(s)
    ensures forall id :: id in s.net ==> R.Contribution(s.net[id].packet) == |s.net[id].ranks|
    ensures forall i, j :: 0 <= i < |s.routers| && 0 <= j < |s.routers[i].slots| ==>
              var slot := s.routers[i].slots[j];
              slot.ownerValid && !slot.forwarded ==> slot.count == |HeldBy(s, i, j)|
  {
    ReachableInv(c, s);
    forall i, j | 0 <= i < |s.routers| && 0 <= j < |s.routers[i].slots|
      ensures var slot := s.routers[i].slots[j];
              slot.ownerValid && !slot.forwarded ==> slot.count == |HeldBy(s, i, j)|
    {
      assert RouterInv(c, s, i);
      assert SlotInv(c, s.routers[i].slots[j], s.routers[i].rows[j], HeldBy(s, i, j));
    }
  }

  /** End to end: in every run, whatever is lost, reordered, overwritten in a
      slot or repaired, each word of a committed offset that is pulled is the maximum,
      the minimum or the sum modulo 2^32 of every requester's word and the responder's,
      each taken once (the responder as rank `own`), and one that is pushed holds the
      responder's own input. */
  lemma CommittedOffsetsAreExact(c: Config, s: System, k: Key, own: nat)
    requires ConfigOk(c) && Reachable(c, s) && k in s.entries && s.entries[k].committed && own !in c.requesters(k)
    ensures KeyOk(c, k)
    ensures if c.pull(k) then P.HoldsReduction(CallOf(c, k), c.inputs(k), c.bound, own, s.entries[k].result)
            else P.HoldsOwn(CallOf(c, k), s.entries[k].result)
  {
    hide P.HoldsReduction, P.HoldsOwn;
    assert KeyOk(c, k);
    ReachableInv(c, s);
    assert EntryExact(c, s, k, s.entries[k]);
    ExactIsReduction(c, s, k, own, s.entries[k]);
  }

  lemma ExactIsReduction(c: Config, s: System, k: Key, own: nat, e: P.Entry)
    requires ConfigOk(c) && EntryExact(c, s, k, e) && e.committed && own !in c.requesters(k)
    ensures if c.pull(k) then P.HoldsReduction(CallOf(c, k), c.inputs(k), c.bound, own, e.result)
            else P.HoldsOwn(CallOf(c, k), e.result)
  {
    hide P.HoldsReduction, P.HoldsOwn;
    if c.pull(k) {
      P.ResultIsReduction(CallOf(c, k), c.inputs(k), c.bound, own);
    } else {
      P.ResultIsOwn(CallOf(c, k));
    }
  }

  /** A done push offset has been acknowledged by every requester: by one contribution of
      each that reached the responder, exactly once, or by a repair request of each. */
  lemma DonePushIsAcknowledged(c: Config, s: System, k: Key)
    requires ConfigOk(c) && Reachable(c, s) && k in s.entries && !c.pull(k) && s.entries[k].done
    ensures || (forall r :: r in c.requesters(k) ==> s.arrived[(k, r)] == 1)
            || (forall r :: r in c.requesters(k) ==> (k, r) in s.repaired)
  {
    ReachableInv(c, s);
    assert EntryExact(c, s, k, s.entries[k]);
  }

  /** No miss is reported in vain: it names an offset that was issued, the packet refused
      carried contributions of its requesters, these are nowhere any more, and so nothing
      in flight can ever complete the offset on the normal path. */
  lemma MissesAreLost(c: Config, s: System, report: Report)
    requires ConfigOk(c) && Reachable(c, s) && report in s.reports
    ensures report.key in s.entries && report.ranks != {} && report.ranks <= c.requesters(report.key)
    ensures forall r :: r in report.ranks ==> Gone(s, (report.key, r))
    ensures !AllArrived(c, s, report.key)
    ensures forall id :: id in s.net && KeyOf(s.net[id].packet) == report.key ==>
              R.Contribution(s.net[id].packet) < |c.requesters(report.key)|
  {
    hide Reachable, RouterInv, EntryExact, Disjoint, ArrivedOnce;
    ReachableInv(c, s);
    assert ReportOk(c, s, report);
    var r :| r in report.ranks;
    assert Gone(s, (report.key, r));
    assert (report.key, r) !in At(s, AtResponder);
    forall id | id in s.net && KeyOf(s.net[id].packet) == report.key
      ensures R.Contribution(s.net[id].packet) < |c.requesters(report.key)|
    {
      assert PacketInv(c, s.net[id]);
      assert (report.key, r) !in At(s, Flying(id));
      SubsetSize(s.net[id].ranks, c.requesters(report.key) - {r});
    }
  }

  /** And the offset it names, if it is not committed yet, is the one the responder puts on
      the repair path, and the only thing that changes. */
  lemma MissPutsOnRepair(c: Config, s: System, s': System, report: Report)
    requires ConfigOk(c) && Reachable(c, s) && MissArrives(c, s, s', report)
    ensures var k := report.key;
            && k in s.entries
            && s' == if s.entries[k].committed || s.entries[k].done then s
                     else s.(entries := s.entries[k := s.entries[k].(repairMode := true)])
  {
    H.SwitchSetsMode(s.entries[report.key]);
  }
}
