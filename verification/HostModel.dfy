/** The responder and requester state machines of reference/arbor-host.cc, as
    functions of their state.

    Sequence numbers are unbounded here; SequenceSpace.dfy shows that the 24-bit
    arithmetic agrees with them while live numbers stay within half the space.
    `sent`, `binding`, `firstSent` and `held` are history: no decision reads them. */
module HostModel {
  import opened Prelude

  // One message of a channel: its packet count, and whether requests carry the data (pull).
  datatype Desc = Desc(total: nat, pull: bool)

  /** Requesters, subchannels, and the messages both sides submit in the same order. */
  /** `controlAggregation`: the switches aggregate header-only requests too. */
  datatype Env = Env(n: nat, nsub: nat, plan: seq<Desc>, piggyback: bool, controlAggregation: bool)

  ghost predicate EnvOk(env: Env) {
    env.n > 0 && env.nsub > 0 && forall i :: 0 <= i < |env.plan| ==> env.plan[i].total > 0
  }

  function Full(env: Env): set<nat> {
    Range(0, env.n)
  }

  /** The sequence number at which message `i` of the plan starts. */
  function Start(plan: seq<Desc>, i: nat): nat
    requires i <= |plan|
  {
    if i == 0 then 0 else Start(plan, i - 1) + plan[i - 1].total
  }

  // ------------------------------------------------------------- packets

  datatype Down =
    | Response(repair: bool, payload: Option<nat>, credit: Option<nat>, sub: nat)
    | RegisterAck(start: nat, sub: nat)
    | End(start: nat, id: nat)

  datatype Up =
    | Register(start: nat, sub: nat)
    | NormalRequest(offset: nat)
    | RepairRequest(offset: nat)
    | EndAck(start: nat)

  // ----------------------------------------------------------- responder

  datatype Entry = Entry(
    sub: nat,
    bitmap: set<nat>,
    committed: bool,
    done: bool,
    repairMode: bool,
    hasPayload: bool,
    boundPayload: Option<nat>,
    boundBy: Option<nat>)

  datatype RespMessage = RespMessage(
    id: nat,
    start: nat,
    total: nat,
    pull: bool,
    issued: nat,
    done: nat,
    reg: seq<set<nat>>,
    endPending: bool,
    endAck: set<nat>)

  datatype Resp = Resp(
    messages: map<nat, RespMessage>,
    entries: map<nat, Entry>,
    submitted: nat,
    nextSeq: nat,
    creditNext: nat,
    outstanding: nat,
    subOut: seq<nat>,
    pending: seq<nat>,
    aborted: bool,
    sent: multiset<Down>,
    binding: map<nat, nat>,
    firstSent: multiset<nat>)

  function InitialResp(env: Env): Resp {
    Resp(map[], map[], 0, 0, 0, 0, seq(env.nsub, _ => 0), [], false, multiset{}, map[], multiset{})
  }

  predicate Covers(start: nat, total: nat, o: nat) {
    start <= o < start + total
  }

  /** The start of the live message covering an offset. */
  ghost function FindMessage(messages: map<nat, RespMessage>, o: nat): (r: Option<nat>)
    ensures r.Some? ==> r.value in messages && Covers(r.value, messages[r.value].total, o)
    ensures r.None? ==> forall s :: s in messages ==> !Covers(s, messages[s].total, o)
  {
    if exists s :: s in messages && Covers(s, messages[s].total, o) then
      var s :| s in messages && Covers(s, messages[s].total, o);
      Some(s)
    else None
  }

  function Abort(s: Resp): Resp {
    s.(aborted := true)
  }

  function Send(s: Resp, d: Down): Resp {
    s.(sent := s.sent + multiset{d})
  }

  function SubmitResp(env: Env, s: Resp): Resp
    requires s.submitted < |env.plan|
  {
    var d := env.plan[s.submitted];
    s.(messages := s.messages[s.nextSeq := RespMessage(s.submitted, s.nextSeq, d.total, d.pull, 0, 0,
                                                       seq(env.nsub, _ => {}), false, {})],
       submitted := s.submitted + 1,
       nextSeq := s.nextSeq + d.total)
  }

  const MAX_OUTSTANDING: nat := 0x10_0000

  /** The registration gate, and the bound on outstanding credits.  Window and
      pacing gates only make the choice of subchannel narrower. */
  ghost predicate CanIssue(env: Env, s: Resp, pick: nat) {
    && s.outstanding < MAX_OUTSTANDING
    && pick < env.nsub && pick < |s.subOut|
    && FindMessage(s.messages, s.creditNext).Some?
    && var m := s.messages[FindMessage(s.messages, s.creditNext).value];
       pick < |m.reg| && m.reg[pick] == Full(env)
  }

  function FreshEntry(pick: nat): Entry {
    Entry(pick, {}, false, false, false, false, None, None)
  }

  /** Create the entry of the next offset and account for its credit. */
  ghost function Reserve(env: Env, s: Resp, pick: nat): Resp
    requires CanIssue(env, s, pick)
  {
    var k := s.creditNext;
    var st := FindMessage(s.messages, k).value;
    var m := s.messages[st];
    s.(creditNext := k + 1,
       outstanding := s.outstanding + 1,
       subOut := s.subOut[pick := s.subOut[pick] + 1],
       messages := s.messages[st := m.(issued := m.issued + 1)],
       entries := s.entries[k := FreshEntry(pick)])
  }

  /** Push: the offset is committed and its payload sent with its own credit. */
  function PushSelf(s: Resp, k: nat): Resp
    requires k in s.entries
  {
    var e := s.entries[k];
    Send(s.(entries := s.entries[k := e.(hasPayload := true, committed := true, boundPayload := Some(k),
                                         boundBy := Some(k))],
            binding := s.binding[k := k],
            firstSent := s.firstSent + multiset{k}),
         Response(false, Some(k), Some(k), e.sub))
  }

  /** Pull: the oldest pending payload rides on the new credit. */
  ghost function Piggyback(s: Resp, k: nat): Resp
    requires k in s.entries && s.pending != []
  {
    var p := s.pending[0];
    if p !in s.entries || FindMessage(s.messages, p).None? then Abort(s)
    else
      var bound := s.entries[k := s.entries[k].(boundPayload := Some(p))];
      Send(s.(pending := s.pending[1..],
              entries := bound[p := bound[p].(boundBy := Some(k))],
              binding := s.binding[k := p],
              firstSent := s.firstSent + multiset{p}),
           Response(false, Some(p), Some(k), s.entries[k].sub))
  }

  /** One round of the loop of IssueCredits on the chosen subchannel. */
  ghost function IssueOne(env: Env, s: Resp, pick: nat): Resp
    requires CanIssue(env, s, pick)
  {
    var k := s.creditNext;
    var m := s.messages[FindMessage(s.messages, k).value];
    if k in s.entries then Abort(s)
    else
      var t := Reserve(env, s, pick);
      if !m.pull then PushSelf(t, k)
      else if env.piggyback && s.pending != [] then Piggyback(t, k)
      else Send(t, Response(false, None, Some(k), pick))
  }

  /** A call of IssueCredits that chose the subchannels `picks`, in order. */
  ghost predicate Issuable(env: Env, s: Resp, picks: seq<nat>)
    decreases |picks|
  {
    picks == [] || (CanIssue(env, s, picks[0]) && Issuable(env, IssueOne(env, s, picks[0]), picks[1..]))
  }

  ghost function IssueAll(env: Env, s: Resp, picks: seq<nat>): Resp
    requires Issuable(env, s, picks)
    decreases |picks|
  {
    if picks == [] then s else IssueAll(env, IssueOne(env, s, picks[0]), picks[1..])
  }

  /** Is there something for CheckDone to do? */
  predicate Finishable(env: Env, s: Resp, k: nat)
    requires k in s.entries
  {
    var e := s.entries[k];
    !e.done && e.committed && e.bitmap == Full(env)
  }

  /** CheckDone up to its call of IssueCredits. */
  ghost function MarkDone(env: Env, s: Resp, k: nat): Resp
    requires k in s.entries
  {
    var e := s.entries[k];
    if !Finishable(env, s, k) then s
    else if s.outstanding == 0 || FindMessage(s.messages, k).None? then Abort(s)
    else
      var st := FindMessage(s.messages, k).value;
      s.(entries := s.entries[k := e.(done := true)],
         outstanding := s.outstanding - 1,
         subOut := if e.sub < |s.subOut| && s.subOut[e.sub] > 0 then s.subOut[e.sub := s.subOut[e.sub] - 1]
             else s.subOut,
         messages := s.messages[st := s.messages[st].(done := s.messages[st].done + 1)])
  }

  function SetBitmap(s: Resp, k: nat, b: set<nat>): Resp
    requires k in s.entries
  {
    s.(entries := s.entries[k := s.entries[k].(bitmap := b)])
  }

  /** CommitEntry up to its call of CheckDone. */
  function MarkCommitted(s: Resp, k: nat): Resp
    requires k in s.entries
  {
    if s.entries[k].committed then Abort(s)
    else s.(entries := s.entries[k := s.entries[k].(committed := true, hasPayload := true)], pending := s.pending + [k])
  }

  /** First send of the oldest pending payload, without a credit. */
  ghost function FlushOne(s: Resp): Resp
    requires s.pending != []
  {
    var p := s.pending[0];
    if p !in s.entries || FindMessage(s.messages, p).None? then Abort(s.(pending := s.pending[1..]))
    else Send(s.(pending := s.pending[1..], firstSent := s.firstSent + multiset{p}),
              Response(false, Some(p), None, s.entries[p].sub))
  }

  ghost function FlushAll(s: Resp): Resp
    decreases |s.pending|
  {
    if s.pending == [] then s else FlushAll(FlushOne(s))
  }

  /** Start the END handshake of a message whose offsets are all done. */
  function StartEnd(s: Resp, st: nat): Resp {
    if st in s.messages && s.messages[st].done == s.messages[st].total && !s.messages[st].endPending then
      Send(s.(messages := s.messages[st := s.messages[st].(endPending := true)]), End(st, s.messages[st].id))
    else s
  }

  /** How far each IssueCredits call inside one event went. */
  datatype Picks = Picks(first: seq<nat>, second: seq<nat>)

  /** CheckDone followed by the END check, for an entry already committed. */
  ghost predicate ConsumeOk(env: Env, s: Resp, k: nat, picks: Picks)
    requires k in s.entries
  {
    Issuable(env, MarkDone(env, s, k), if Finishable(env, s, k) then picks.first else [])
  }

  ghost function Consume(env: Env, s: Resp, k: nat, picks: Picks): Resp
    requires k in s.entries && ConsumeOk(env, s, k, picks)
  {
    IssueAll(env, MarkDone(env, s, k), if Finishable(env, s, k) then picks.first else [])
  }

  ghost function EndCheck(s: Resp, k: nat): Resp {
    match FindMessage(s.messages, k)
    case None => s
    case Some(st) => StartEnd(s, st)
  }

  /** CommitEntry. */
  ghost predicate CommitOk(env: Env, s: Resp, k: nat, picks: Picks)
    requires k in s.entries
  {
    var c := MarkCommitted(s, k);
    ConsumeOk(env, c, k, picks) && Issuable(env, Consume(env, c, k, picks), picks.second)
  }

  ghost function Commit(env: Env, s: Resp, k: nat, picks: Picks): Resp
    requires k in s.entries && CommitOk(env, s, k, picks)
  {
    EndCheck(FlushAll(IssueAll(env, Consume(env, MarkCommitted(s, k), k, picks), picks.second)), k)
  }

  /** The tail of OnRequest once the bitmap has been updated. */
  ghost predicate SettleOk(env: Env, s: Resp, k: nat, picks: Picks)
    requires k in s.entries
  {
    if s.entries[k].committed then ConsumeOk(env, s, k, picks)
    else s.entries[k].bitmap == Full(env) ==> CommitOk(env, s, k, picks)
  }

  ghost function Settle(env: Env, s: Resp, k: nat, picks: Picks): Resp
    requires k in s.entries && SettleOk(env, s, k, picks)
  {
    if s.entries[k].committed then EndCheck(Consume(env, s, k, picks), k)
    else if s.entries[k].bitmap == Full(env) then Commit(env, s, k, picks)
    else s
  }

  /** Whom a request speaks for: the switches merged `count` of them, or one requester
      sent it alone. */
  datatype Sender = Switches(count: nat) | Single(rank: nat, repair: bool)

  /** A request nobody aggregated although the switches should have: a protocol
      violation on which the responder stops. */
  predicate Misplaced(env: Env, from: Sender) {
    from.Single? && !from.repair && env.n > 1 && env.controlAggregation
  }

  /** The entry state after the bitmap update of OnRequest; None when the packet is ignored. */
  ghost function Recorded(env: Env, s: Resp, k: nat, from: Sender): Option<Resp>
    requires k in s.entries
  {
    var e := s.entries[k];
    match from
    case Switches(count) =>
      if count != env.n || (!e.committed && e.repairMode) then None else Some(SetBitmap(s, k, Full(env)))
    case Single(rank, _) =>
      if rank in e.bitmap then None else Some(SetBitmap(s, k, e.bitmap + {rank}))
  }

  /** OnRequest: an aggregated master, or the single input of one rank. */
  ghost predicate RequestOk(env: Env, s: Resp, k: nat, from: Sender, picks: Picks) {
    FindMessage(s.messages, k).Some? && k in s.entries && !Misplaced(env, from) && Recorded(env, s, k, from).Some? ==>
      SettleOk(env, Recorded(env, s, k, from).value, k, picks)
  }

  ghost function OnRequest(env: Env, s: Resp, k: nat, from: Sender, picks: Picks): Resp
    requires RequestOk(env, s, k, from, picks)
  {
    if FindMessage(s.messages, k).None? then s
    else if k !in s.entries || Misplaced(env, from) then Abort(s)
    else
      match Recorded(env, s, k, from)
      case None => s
      case Some(t) => Settle(env, t, k, picks)
  }

  /** EnterRepair and SendRepairCredit; `funded` when the token bucket covers the charge. */
  ghost function EnterRepair(s: Resp, k: nat, funded: bool): Resp
    requires k in s.entries
  {
    var e := s.entries[k];
    var bound := if e.boundPayload.Some? && e.boundPayload.value !in s.entries then None else e.boundPayload;
    var t := s.(entries := s.entries[k := e.(repairMode := true, boundPayload := bound)]);
    if FindMessage(s.messages, k).None? then Abort(t)
    else if !funded then t
    else Send(t, Response(true, bound, Some(k), e.sub))
  }

  ghost function OnCreditTimeout(s: Resp, k: nat, funded: bool): Resp {
    if k !in s.entries || s.entries[k].done then s else EnterRepair(s, k, funded)
  }

  ghost function OnAggMiss(s: Resp, k: nat, funded: bool): Resp {
    if k !in s.entries || s.entries[k].committed || s.entries[k].done || s.entries[k].repairMode then s
    else EnterRepair(s, k, funded)
  }

  /** May END-timeout replay this offset's payload? */
  predicate TailPayload(s: Resp, p: nat) {
    p in s.entries && s.entries[p].committed && s.entries[p].hasPayload && s.entries[p].boundBy.None?
  }

  /** The replay loop of OnEndTimeout from offset `p`, with tokens for `budget` more payloads. */
  function ReplayTail(s: Resp, p: nat, end: nat, budget: nat): (r: Resp)
    requires p <= end
    decreases end - p
  {
    if p == end then s
    else if !TailPayload(s, p) then ReplayTail(s, p + 1, end, budget)
    else if budget == 0 then s
    else ReplayTail(Send(s, Response(true, Some(p), None, s.entries[p].sub)), p + 1, end, budget - 1)
  }

  function OnEndTimeout(s: Resp, st: nat, budget: nat): Resp {
    if st !in s.messages || !s.messages[st].endPending then s
    else Send(ReplayTail(s, st, st + s.messages[st].total, budget), End(st, s.messages[st].id))
  }

  /** Forget a finished message and all its entries. */
  function Erase(s: Resp, st: nat): Resp
    requires st in s.messages
  {
    s.(messages := s.messages - {st}, entries := s.entries - Range(st, s.messages[st].total))
  }

  function OnEndAck(env: Env, s: Resp, st: nat, rank: nat): Resp {
    if st !in s.messages then s
    else
      var m := s.messages[st];
      var acked := m.(endAck := m.endAck + {rank});
      if acked.endAck != Full(env) then s.(messages := s.messages[st := acked])
      else
        var t := s.(messages := s.messages[st := acked.(endPending := false)]);
        if acked.done != acked.total then t else Erase(t, st)
  }

  /** OnRegister up to its call of IssueCredits. */
  function RecordRegister(env: Env, s: Resp, st: nat, sub: nat, rank: nat): Resp {
    if st !in s.messages || sub >= |s.messages[st].reg| then s
    else
      var m := s.messages[st];
      var m' := m.(reg := m.reg[sub := m.reg[sub] + {rank}]);
      var t := s.(messages := s.messages[st := m']);
      if m'.reg[sub] == Full(env) then Send(t, RegisterAck(st, sub)) else t
  }

  // ----------------------------------------------------------- requester

  datatype ReqMessage = ReqMessage(
    id: nat,
    start: nat,
    total: nat,
    pull: bool,
    delivered: nat,
    complete: bool,
    ackedSubs: set<nat>)

  datatype OffsetState = OffsetState(sent: bool, delivered: bool)

  datatype Req = Req(
    messages: map<nat, ReqMessage>,
    offsets: map<nat, OffsetState>,
    submitted: nat,
    nextSeq: nat,
    tombstones: map<nat, nat>,
    violations: nat,
    sent: multiset<Up>,
    held: set<nat>)

  const INITIAL_REQ: Req := Req(map[], map[], 0, 0, map[], 0, multiset{}, {})

  ghost function FindReqMessage(messages: map<nat, ReqMessage>, o: nat): (r: Option<nat>)
    ensures r.Some? ==> r.value in messages && Covers(r.value, messages[r.value].total, o)
    ensures r.None? ==> forall s :: s in messages ==> !Covers(s, messages[s].total, o)
  {
    if exists s :: s in messages && Covers(s, messages[s].total, o) then
      var s :| s in messages && Covers(s, messages[s].total, o);
      Some(s)
    else None
  }

  function SubmitReq(env: Env, q: Req): Req
    requires q.submitted < |env.plan|
  {
    var d := env.plan[q.submitted];
    q.(messages := q.messages[q.nextSeq := ReqMessage(q.submitted, q.nextSeq, d.total, d.pull, 0, false, {})],
       submitted := q.submitted + 1,
       nextSeq := q.nextSeq + d.total)
  }

  function StateOf(q: Req, o: nat): OffsetState {
    if o in q.offsets then q.offsets[o] else OffsetState(false, false)
  }

  /** A packet for an offset no live message covers: late, or a gate violation. */
  function NoteUncovered(q: Req, o: nat): Req {
    if o < q.nextSeq then q else q.(violations := q.violations + 1)
  }

  /** The payload half of OnResponse. */
  ghost function TakePayload(q: Req, p: nat, sub: nat): Req {
    match FindReqMessage(q.messages, p)
    case None => NoteUncovered(q, p)
    case Some(st) =>
      var m := q.messages[st].(ackedSubs := q.messages[st].ackedSubs + {sub});
      if m.complete || StateOf(q, p).delivered then q.(messages := q.messages[st := m])
      else
        var m' := m.(delivered := m.delivered + 1, complete := m.delivered + 1 == m.total);
        q.(messages := q.messages[st := m'],
           offsets := q.offsets[p := StateOf(q, p).(delivered := true)],
           held := q.held + {p})
  }

  /** The credit half of OnResponse. */
  ghost function TakeCredit(q: Req, k: nat, repair: bool, sub: nat): Req {
    match FindReqMessage(q.messages, k)
    case None => NoteUncovered(q, k)
    case Some(st) =>
      var m := q.messages[st].(ackedSubs := q.messages[st].ackedSubs + {sub});
      var t := q.(messages := q.messages[st := m]);
      if m.complete && m.pull then t
      else if repair then t.(sent := t.sent + multiset{RepairRequest(k)})
      else if StateOf(q, k).sent then t
      else t.(offsets := t.offsets[k := StateOf(q, k).(sent := true)], sent := t.sent + multiset{NormalRequest(k)})
  }

  ghost function OnResponse(q: Req, d: Down): Req
    requires d.Response?
  {
    var t := match d.payload case None => q case Some(p) => TakePayload(q, p, d.sub);
    match d.credit case None => t case Some(k) => TakeCredit(t, k, d.repair, d.sub)
  }

  function OnRegisterAck(q: Req, st: nat, sub: nat): Req {
    if st !in q.messages then q
    else q.(messages := q.messages[st := q.messages[st].(ackedSubs := q.messages[st].ackedSubs + {sub})])
  }

  /** A beacon tick that picked this message and subchannel. */
  function SendRegister(q: Req, st: nat, sub: nat): Req {
    if st !in q.messages || q.messages[st].complete || sub in q.messages[st].ackedSubs then q
    else q.(sent := q.sent + multiset{Register(st, sub)})
  }

  /** Tombstones are kept per 8-bit message id. */
  function TombstoneSlot(id: nat): nat {
    id % 256
  }

  function OnEnd(q: Req, st: nat, id: nat): Req {
    if st !in q.messages then
      if TombstoneSlot(id) in q.tombstones && q.tombstones[TombstoneSlot(id)] == st then
        q.(sent := q.sent + multiset{EndAck(st)})
      else q
    else
      var m := q.messages[st];
      if !m.complete then q
      else q.(sent := q.sent + multiset{EndAck(st)},
              offsets := q.offsets - Range(st, m.total),
              tombstones := q.tombstones[TombstoneSlot(m.id) := st],
              messages := q.messages - {st})
  }
}
