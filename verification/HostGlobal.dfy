/** The invariant that ties the responder to all requesters, and what each
    responder step does to it. */
module HostGlobal {
  import opened Prelude
  import opened HostModel
  import opened HostPlan
  import opened HostCounting
  import opened HostResponderInvariant
  import Requester = HostRequesterInvariant

  ghost predicate AllHold(reqs: seq<Req>, o: nat) {
    forall r :: 0 <= r < |reqs| ==> o in reqs[r].held
  }

  /** A requester that consumed credit `k` holds the payload bound to it. */
  ghost predicate Took(q: Req, binding: map<nat, nat>, k: nat) {
    k in binding ==> binding[k] in q.held
  }

  /** A response for credit `k` carries the payload bound to `k`, unless everyone holds that already. */
  ghost predicate Carries(reqs: seq<Req>, binding: map<nat, nat>, k: nat, payload: Option<nat>) {
    k in binding ==> payload == Some(binding[k]) || AllHold(reqs, binding[k])
  }

  ghost predicate GoodDown(d: Down, creditNext: nat, binding: map<nat, nat>, reqs: seq<Req>) {
    d.Response? ==>
      && (d.payload.Some? ==> d.payload.value < creditNext)
      && (d.credit.Some? ==> d.credit.value < creditNext && Carries(reqs, binding, d.credit.value, d.payload))
  }

  ghost predicate SentInv(sent: multiset<Down>, creditNext: nat, binding: map<nat, nat>, reqs: seq<Req>) {
    forall d :: d in sent ==> GoodDown(d, creditNext, binding, reqs)
  }

  ghost predicate Asked(q: Req, k: nat) {
    NormalRequest(k) in q.sent || RepairRequest(k) in q.sent
  }

  ghost predicate RequestsInv(reqs: seq<Req>, creditNext: nat, binding: map<nat, nat>) {
    forall r: nat, k: nat :: r < |reqs| && Asked(reqs[r], k) ==> k < creditNext && Took(reqs[r], binding, k)
  }

  /** Rank `r` is marked for credit `k`; of a forgotten entry, every rank is. */
  ghost predicate Marked(entries: map<nat, Entry>, k: nat, r: nat) {
    k in entries ==> r in entries[k].bitmap
  }

  ghost predicate MarksInv(entries: map<nat, Entry>, creditNext: nat, binding: map<nat, nat>, reqs: seq<Req>) {
    forall k: nat, r: nat :: k < creditNext && r < |reqs| && Marked(entries, k, r) ==> Took(reqs[r], binding, k)
  }

  ghost predicate Registered(messages: map<nat, RespMessage>, st: nat, j: nat, r: nat) {
    st in messages && j < |messages[st].reg| && r in messages[st].reg[j]
  }

  ghost predicate GateInv(messages: map<nat, RespMessage>, reqs: seq<Req>) {
    forall st: nat, j: nat, r: nat :: Registered(messages, st, j, r) && r < |reqs| ==>
      messages[st].id < reqs[r].submitted
  }

  ghost predicate CursorInv(creditNext: nat, reqs: seq<Req>) {
    forall r: nat :: r < |reqs| ==> creditNext <= reqs[r].nextSeq
  }

  ghost predicate EndAcked(messages: map<nat, RespMessage>, st: nat, r: nat) {
    st in messages && r in messages[st].endAck
  }

  ghost predicate AckInv(messages: map<nat, RespMessage>, reqs: seq<Req>) {
    forall st: nat, r: nat :: EndAcked(messages, st, r) && r < |reqs| ==>
      Requester.HeldRange(reqs[r].held, st, messages[st].total)
  }

  ghost predicate FinishedInv(messages: map<nat, RespMessage>, creditNext: nat, reqs: seq<Req>) {
    forall o: nat :: o < creditNext && !Live(messages, o) ==> AllHold(reqs, o)
  }

  ghost predicate GlobalInv(s: Resp, reqs: seq<Req>) {
    && SentInv(s.sent, s.creditNext, s.binding, reqs)
    && RequestsInv(reqs, s.creditNext, s.binding)
    && MarksInv(s.entries, s.creditNext, s.binding, reqs)
    && GateInv(s.messages, reqs) && CursorInv(s.creditNext, reqs)
    && AckInv(s.messages, reqs) && FinishedInv(s.messages, s.creditNext, reqs)
  }

  // ------------------------------------------- steps that issue no new credit

  ghost predicate SameMessage(a: RespMessage, b: RespMessage) {
    b.id == a.id && b.total == a.total && b.reg == a.reg && b.endAck == a.endAck
  }

  ghost predicate SameMessages(a: map<nat, RespMessage>, b: map<nat, RespMessage>) {
    a.Keys == b.Keys && forall st :: st in a ==> SameMessage(a[st], b[st])
  }

  ghost predicate SameMarks(a: map<nat, Entry>, b: map<nat, Entry>) {
    a.Keys == b.Keys && forall k :: k in a ==> b[k].bitmap == a[k].bitmap
  }

  ghost predicate SameCredits(s: Resp, t: Resp) {
    && t.creditNext == s.creditNext && t.binding == s.binding
    && SameMessages(s.messages, t.messages) && SameMarks(s.entries, t.entries)
  }

  lemma SameMessagesKeep(messages: map<nat, RespMessage>, messages': map<nat, RespMessage>, creditNext: nat,
                         reqs: seq<Req>)
    requires SameMessages(messages, messages')
    requires GateInv(messages, reqs) && AckInv(messages, reqs) && FinishedInv(messages, creditNext, reqs)
    ensures GateInv(messages', reqs) && AckInv(messages', reqs) && FinishedInv(messages', creditNext, reqs)
  {
    forall st: nat, j: nat, r: nat | Registered(messages', st, j, r) ensures Registered(messages, st, j, r) {}
    forall st: nat, r: nat | EndAcked(messages', st, r) ensures EndAcked(messages, st, r) {}
    forall o: nat | Live(messages, o) ensures Live(messages', o) {
      var st :| st in messages && Covers(st, messages[st].total, o);
      assert st in messages' && Covers(st, messages'[st].total, o);
    }
  }

  lemma SameMarksKeep(entries: map<nat, Entry>, entries': map<nat, Entry>, creditNext: nat, binding: map<nat, nat>,
                      reqs: seq<Req>)
    requires SameMarks(entries, entries') && MarksInv(entries, creditNext, binding, reqs)
    ensures MarksInv(entries', creditNext, binding, reqs)
  {
    forall k: nat, r: nat | Marked(entries', k, r) ensures Marked(entries, k, r) {}
  }

  lemma SameCreditsKeep(s: Resp, t: Resp, reqs: seq<Req>)
    requires GlobalInv(s, reqs) && SameCredits(s, t)
    requires forall d :: d in t.sent && d !in s.sent ==> GoodDown(d, s.creditNext, s.binding, reqs)
    ensures GlobalInv(t, reqs)
  {
    hide SameMessages, SameMarks, RequestsInv, MarksInv, GateInv, CursorInv, AckInv, FinishedInv, GoodDown;
    SameMessagesKeep(s.messages, t.messages, s.creditNext, reqs);
    SameMarksKeep(s.entries, t.entries, s.creditNext, s.binding, reqs);
  }

  /** The responder's own invariant together with the global one. */
  ghost predicate Inv(env: Env, s: Resp, reqs: seq<Req>) {
    RespInv(env, s) && GlobalInv(s, reqs) && |reqs| == env.n
  }

  lemma MarkDoneGlobal(env: Env, s: Resp, k: nat, reqs: seq<Req>)
    requires Inv(env, s, reqs) && k in s.entries
    ensures Inv(env, MarkDone(env, s, k), reqs)
  {
    hide RespInv, GlobalInv;
    MarkDoneKeeps(env, s, k);
    SameCreditsKeep(s, MarkDone(env, s, k), reqs);
  }

  lemma MarkCommittedGlobal(env: Env, s: Resp, k: nat, reqs: seq<Req>)
    requires Inv(env, s, reqs) && k in s.entries && !s.entries[k].committed
    ensures Inv(env, MarkCommitted(s, k), reqs)
  {
    hide RespInv, GlobalInv;
    MarkCommittedKeeps(env, s, k);
    SameCreditsKeep(s, MarkCommitted(s, k), reqs);
  }

  lemma HeadIssued(env: Env, s: Resp)
    requires RespInv(env, s) && s.pending != []
    ensures s.pending[0] < s.creditNext
  {
    hide MessagesInv, EntriesInv, BindingInv, FirstSendInv, OutstandingInv, DoneInv;
    PendingHead(s.entries, s.creditNext, s.pending, s.firstSent);
  }

  lemma FlushOneGlobal(env: Env, s: Resp, reqs: seq<Req>)
    requires Inv(env, s, reqs) && s.pending != []
    ensures Inv(env, FlushOne(s), reqs)
  {
    hide RespInv, GlobalInv;
    FlushOneKeeps(env, s);
    HeadIssued(env, s);
    SameCreditsKeep(s, FlushOne(s), reqs);
  }

  lemma {:induction false} FlushAllGlobal(env: Env, s: Resp, reqs: seq<Req>)
    requires Inv(env, s, reqs)
    ensures Inv(env, FlushAll(s), reqs)
    decreases |s.pending|
  {
    hide Inv;
    if s.pending != [] {
      FlushOneGlobal(env, s, reqs);
      FlushAllGlobal(env, FlushOne(s), reqs);
    }
  }

  lemma StartEndGlobal(env: Env, s: Resp, st: nat, reqs: seq<Req>)
    requires Inv(env, s, reqs)
    ensures Inv(env, StartEnd(s, st), reqs)
  {
    hide RespInv, GlobalInv;
    StartEndKeeps(env, s, st);
    SameCreditsKeep(s, StartEnd(s, st), reqs);
  }

  lemma EndCheckGlobal(env: Env, s: Resp, k: nat, reqs: seq<Req>)
    requires Inv(env, s, reqs)
    ensures Inv(env, EndCheck(s, k), reqs)
  {
    hide Inv;
    if FindMessage(s.messages, k).Some? {
      StartEndGlobal(env, s, FindMessage(s.messages, k).value, reqs);
    }
  }

  /** The repair credit of `k` carries what `k` was bound to, unless everyone holds it. */
  lemma RepairCarries(env: Env, s: Resp, k: nat, reqs: seq<Req>)
    requires Inv(env, s, reqs) && k in s.entries
    ensures var bound := EnterRepair(s, k, true).entries[k].boundPayload;
            Carries(reqs, s.binding, k, bound) && (bound.Some? ==> bound.value < s.creditNext) && k < s.creditNext
  {
    hide MessagesInv, FirstSendInv, OutstandingInv, DoneInv, SentInv, RequestsInv, MarksInv, GateInv, CursorInv, AckInv;
    var b := s.entries[k].boundPayload;
    if k in s.binding {
      var p := s.binding[k];
      assert BoundTo(s.binding, k, p);
      if p in s.entries {
        assert Rides(s.entries, k, p);
      } else {
        assert !Live(s.messages, p);
      }
    }
    if b.Some? { assert Rides(s.entries, k, b.value); }
  }

  lemma EnterRepairGlobal(env: Env, s: Resp, k: nat, funded: bool, reqs: seq<Req>)
    requires Inv(env, s, reqs) && k in s.entries
    ensures Inv(env, EnterRepair(s, k, funded), reqs)
  {
    hide RespInv, GlobalInv, Carries, FindMessage;
    EnterRepairKeeps(env, s, k, funded);
    RepairCarries(env, s, k, reqs);
    EnterRepairSame(s, k, funded);
    hide EnterRepair;
    SameCreditsKeep(s, EnterRepair(s, k, funded), reqs);
  }

  /** Repair keeps the credits, and sends at most the repair credit itself. */
  lemma EnterRepairSame(s: Resp, k: nat, funded: bool)
    requires k in s.entries
    ensures var t := EnterRepair(s, k, funded);
            && k in EnterRepair(s, k, true).entries && SameCredits(s, t)
            && forall d :: d in t.sent && d !in s.sent ==>
                 d == Response(true, EnterRepair(s, k, true).entries[k].boundPayload, Some(k), s.entries[k].sub)
  {
    hide SameCredits;
    EnterRepairIs(s, k, funded);
    EnterRepairIs(s, k, true);
    hide EnterRepair;
    OneEntrySame(s, EnterRepair(s, k, funded), k);
  }

  lemma OneEntrySame(s: Resp, t: Resp, k: nat)
    requires k in s.entries && k in t.entries && t.entries == s.entries[k := t.entries[k]]
    requires t.entries[k].bitmap == s.entries[k].bitmap && t.messages == s.messages
    requires t.creditNext == s.creditNext && t.binding == s.binding
    ensures SameCredits(s, t)
  {
  }

  lemma EnterRepairIs(s: Resp, k: nat, funded: bool)
    requires k in s.entries
    ensures var t, e := EnterRepair(s, k, funded), s.entries[k];
            var bound := if e.boundPayload.Some? && e.boundPayload.value !in s.entries then None else e.boundPayload;
            && t.entries == s.entries[k := e.(repairMode := true, boundPayload := bound)]
            && t.messages == s.messages && t.creditNext == s.creditNext && t.binding == s.binding
            && (t.sent == s.sent || t.sent == s.sent + multiset{Response(true, bound, Some(k), e.sub)})
  {
    hide FindMessage;
  }

  lemma TailIssued(env: Env, s: Resp)
    requires RespInv(env, s)
    ensures forall p: nat :: TailPayload(s, p) ==> p < s.creditNext
  {
  }

  lemma OnEndTimeoutGlobal(env: Env, s: Resp, st: nat, budget: nat, reqs: seq<Req>)
    requires Inv(env, s, reqs)
    ensures Inv(env, OnEndTimeout(s, st, budget), reqs)
  {
    hide RespInv, GlobalInv;
    OnEndTimeoutKeeps(env, s, st, budget);
    if st in s.messages && s.messages[st].endPending {
      ReplayTailSends(s, st, st + s.messages[st].total, budget);
      TailIssued(env, s);
      SameCreditsKeep(s, OnEndTimeout(s, st, budget), reqs);
    }
  }

  /** Marking ranks that have taken the bound payload. */
  lemma SetBitmapGlobal(env: Env, s: Resp, k: nat, b: set<nat>, reqs: seq<Req>)
    requires Inv(env, s, reqs) && k in s.entries && s.entries[k].bitmap <= b <= Full(env)
    requires forall r :: r in b && r !in s.entries[k].bitmap ==> r < |reqs| && Took(reqs[r], s.binding, k)
    ensures Inv(env, SetBitmap(s, k, b), reqs)
  {
    hide RespInv, SentInv, RequestsInv, GateInv, CursorInv, AckInv, FinishedInv, Took;
    SetBitmapKeeps(env, s, k, b);
    var t := SetBitmap(s, k, b);
    forall c: nat, r: nat | c < t.creditNext && r < |reqs| && Marked(t.entries, c, r)
      ensures Took(reqs[r], s.binding, c) {
      if c != k || r in s.entries[k].bitmap { assert Marked(s.entries, c, r); }
    }
  }

  // --------------------------------------------------- the registration gate

  lemma RegisterKeepsGate(messages: map<nat, RespMessage>, reqs: seq<Req>, st: nat, m: RespMessage, sub: nat, rank: nat)
    requires GateInv(messages, reqs) && st in messages && sub < |messages[st].reg|
    requires m.id == messages[st].id && m.reg == messages[st].reg[sub := messages[st].reg[sub] + {rank}]
    requires rank < |reqs| ==> m.id < reqs[rank].submitted
    ensures GateInv(messages[st := m], reqs)
  {
    var messages' := messages[st := m];
    forall x: nat, j: nat, r: nat | Registered(messages', x, j, r) && r < |reqs|
      ensures messages'[x].id < reqs[r].submitted
    {
      if !(x == st && r == rank) { assert Registered(messages, x, j, r); }
    }
  }

  lemma RewriteKeepsAcks(messages: map<nat, RespMessage>, creditNext: nat, reqs: seq<Req>, st: nat, m: RespMessage)
    requires AckInv(messages, reqs) && FinishedInv(messages, creditNext, reqs) && st in messages
    requires m.total == messages[st].total && m.endAck == messages[st].endAck
    ensures AckInv(messages[st := m], reqs) && FinishedInv(messages[st := m], creditNext, reqs)
  {
    forall x: nat, r: nat | EndAcked(messages[st := m], x, r) ensures EndAcked(messages, x, r) {}
    forall o: nat ensures Live(messages[st := m], o) <==> Live(messages, o) { LayoutKept(messages, st, m, o); }
  }

  lemma RecordRegisterGlobal(env: Env, s: Resp, st: nat, sub: nat, rank: nat, reqs: seq<Req>)
    requires Inv(env, s, reqs) && rank < env.n
    requires st in s.messages ==> s.messages[st].id < reqs[rank].submitted
    ensures Inv(env, RecordRegister(env, s, st, sub, rank), reqs)
  {
    hide RespInv, RequestsInv, MarksInv, GateInv, CursorInv, AckInv, FinishedInv;
    RecordRegisterKeeps(env, s, st, sub, rank);
    if st in s.messages && sub < |s.messages[st].reg| {
      var m := s.messages[st];
      var m' := m.(reg := m.reg[sub := m.reg[sub] + {rank}]);
      RegisterKeepsGate(s.messages, reqs, st, m', sub, rank);
      RewriteKeepsAcks(s.messages, s.creditNext, reqs, st, m');
    }
  }

  // --------------------------------------------------------- issuing a credit

  /** What one round of IssueCredits does, as seen by the other invariants. */
  ghost predicate Issued(s: Resp, t: Resp) {
    var k := s.creditNext;
    && t.creditNext == k + 1 && SameMessages(s.messages, t.messages) && Live(s.messages, k)
    && t.entries.Keys == s.entries.Keys + {k} && k !in s.entries && k !in s.binding
    && t.entries[k].bitmap == {} && (forall c :: c in s.entries ==> t.entries[c].bitmap == s.entries[c].bitmap)
    && t.binding.Keys <= s.binding.Keys + {k} && s.binding.Keys <= t.binding.Keys
    && (forall c :: c in s.binding ==> t.binding[c] == s.binding[c])
    && exists payload: Option<nat>, sub: nat :: SentOne(s, t, payload, sub)
  }

  ghost predicate SentOne(s: Resp, t: Resp, payload: Option<nat>, sub: nat) {
    && t.sent == s.sent + multiset{Response(false, payload, Some(s.creditNext), sub)}
    && (payload.Some? ==> payload.value <= s.creditNext)
    && (s.creditNext in t.binding ==> payload == Some(t.binding[s.creditNext]))
  }

  lemma ReserveShape(env: Env, s: Resp, pick: nat)
    requires RespInv(env, s) && CanIssue(env, s, pick)
    ensures var k, t := s.creditNext, Reserve(env, s, pick);
            && SameMessages(s.messages, t.messages) && Live(s.messages, k)
            && k !in s.entries && k !in s.binding && t.entries == s.entries[k := FreshEntry(pick)]
               && t.creditNext == k + 1
            && t.sent == s.sent && t.binding == s.binding && t.pending == s.pending
  {
    CursorIsFresh(env, s, pick);
  }

  /** The carrier of a fresh credit: only its packet, its binding and the payload's entry change. */
  ghost predicate Carried(s: Resp, t: Resp, k: nat, payload: Option<nat>, sub: nat) {
    && t.creditNext == s.creditNext && t.messages == s.messages && SameMarks(s.entries, t.entries)
    && (t.binding == s.binding || (payload.Some? && t.binding == s.binding[k := payload.value]))
    && t.sent == s.sent + multiset{Response(false, payload, Some(k), sub)}
  }

  lemma PushCarries(s: Resp, k: nat)
    requires k in s.entries
    ensures Carried(s, PushSelf(s, k), k, Some(k), s.entries[k].sub)
  {
  }

  lemma PiggybackCarries(env: Env, s: Resp, k: nat)
    requires RespInv(env, s) && k in s.entries && s.pending != []
    ensures Carried(s, Piggyback(s, k), k, Some(s.pending[0]), s.entries[k].sub)
  {
    hide RespInv;
    HeadHasOwner(env, s);
  }

  lemma CarriedIsIssued(s: Resp, u: Resp, t: Resp, pick: nat, payload: Option<nat>, sub: nat)
    requires SameMessages(s.messages, u.messages) && Live(s.messages, s.creditNext)
    requires s.creditNext !in s.entries && s.creditNext !in s.binding
    requires u.entries == s.entries[s.creditNext := FreshEntry(pick)] && u.creditNext == s.creditNext + 1
    requires u.sent == s.sent && u.binding == s.binding
    requires Carried(u, t, s.creditNext, payload, sub) && (payload.Some? ==> payload.value <= s.creditNext)
    ensures Issued(s, t)
  {
    hide SameMessages, Live;
    assert SentOne(s, t, payload, sub);
  }

  lemma IssueShape(env: Env, s: Resp, pick: nat)
    requires RespInv(env, s) && CanIssue(env, s, pick)
    ensures Issued(s, IssueOne(env, s, pick))
  {
    hide RespInv, Carried, Issued, SameMessages, Live, Fresh;
    var k, u, t := s.creditNext, Reserve(env, s, pick), IssueOne(env, s, pick);
    ReserveShape(env, s, pick);
    ReserveKeeps(env, s, pick);
    if !s.messages[FindMessage(s.messages, k).value].pull {
      PushCarries(u, k);
      CarriedIsIssued(s, u, t, pick, Some(k), pick);
    } else if env.piggyback && s.pending != [] {
      HeadIssued(env, s);
      PiggybackCarries(env, u, k);
      CarriedIsIssued(s, u, t, pick, Some(s.pending[0]), pick);
    } else {
      assert Carried(u, t, k, None, pick) by { PlainCarries(u, k, pick); }
      CarriedIsIssued(s, u, t, pick, None, pick);
    }
  }

  lemma PlainCarries(s: Resp, k: nat, sub: nat)
    ensures Carried(s, Send(s, Response(false, None, Some(k), sub)), k, None, sub)
  {
  }

  lemma IssueKeepsSent(s: Resp, t: Resp, reqs: seq<Req>)
    requires Issued(s, t) && SentInv(s.sent, s.creditNext, s.binding, reqs)
    ensures SentInv(t.sent, t.creditNext, t.binding, reqs)
  {
    hide SameMessages, Live, AllHold;
    var payload: Option<nat>, sub: nat :| SentOne(s, t, payload, sub);
    forall d | d in t.sent ensures GoodDown(d, t.creditNext, t.binding, reqs) {
      if d in s.sent { assert GoodDown(d, s.creditNext, s.binding, reqs); }
    }
  }

  lemma IssueKeepsRequests(s: Resp, t: Resp, reqs: seq<Req>)
    requires Issued(s, t) && RequestsInv(reqs, s.creditNext, s.binding)
    ensures RequestsInv(reqs, t.creditNext, t.binding)
  {
    hide SameMessages, Live, SentOne;
  }

  lemma IssueKeepsMarks(s: Resp, t: Resp, reqs: seq<Req>)
    requires Issued(s, t) && MarksInv(s.entries, s.creditNext, s.binding, reqs)
    ensures MarksInv(t.entries, t.creditNext, t.binding, reqs)
  {
    hide SameMessages, Live, SentOne;
    forall c: nat, r: nat | c < t.creditNext && r < |reqs| && Marked(t.entries, c, r)
      ensures Took(reqs[r], t.binding, c) {
      assert Marked(s.entries, c, r) && c < s.creditNext;
    }
  }

  lemma IssueKeepsFinished(s: Resp, t: Resp, reqs: seq<Req>)
    requires Issued(s, t)
    requires GateInv(s.messages, reqs) && AckInv(s.messages, reqs) && FinishedInv(s.messages, s.creditNext, reqs)
    ensures GateInv(t.messages, reqs) && AckInv(t.messages, reqs) && FinishedInv(t.messages, t.creditNext, reqs)
  {
    hide SentOne, GateInv, AckInv;
    assert FinishedInv(s.messages, s.creditNext + 1, reqs);
    SameMessagesKeep(s.messages, t.messages, s.creditNext + 1, reqs);
  }

  lemma SubmittedPast(env: Env, q: Req, id: nat)
    requires Requester.ReqInv(env, q) && id < q.submitted && id < |env.plan|
    ensures Start(env.plan, id) + env.plan[id].total <= q.nextSeq
  {
    hide Requester.ReqInv;
    Requester.LayoutBounds(env, q);
    StartMonotone(env.plan, id, q.submitted);
  }

  lemma OwnerIdentity(env: Env, s: Resp, st: nat)
    requires RespInv(env, s) && st in s.messages
    ensures s.messages[st].id < s.submitted <= |env.plan| && st == Start(env.plan, s.messages[st].id)
    ensures s.messages[st].total == env.plan[s.messages[st].id].total && EnvOk(env)
  {
    hide EntriesInv, BindingInv, FirstSendInv, OutstandingInv, DoneInv;
    assert MessageInv(env, s.messages[st], st, s.submitted);
  }

  /** The gate: a credit is issued only for an offset that every requester has submitted. */
  lemma GateKeepsCursor(env: Env, s: Resp, pick: nat, reqs: seq<Req>)
    requires Inv(env, s, reqs) && CanIssue(env, s, pick)
    requires forall r :: 0 <= r < |reqs| ==> Requester.ReqInv(env, reqs[r])
    ensures CursorInv(s.creditNext + 1, reqs)
  {
    hide SentInv, RequestsInv, MarksInv, AckInv, FinishedInv, RespInv, Requester.ReqInv;
    var k := s.creditNext;
    var st := FindMessage(s.messages, k).value;
    var m := s.messages[st];
    OwnerIdentity(env, s, st);
    forall r: nat | r < |reqs| ensures k + 1 <= reqs[r].nextSeq {
      assert Registered(s.messages, st, pick, r);
      SubmittedPast(env, reqs[r], m.id);
    }
  }

  lemma IssueOneGlobal(env: Env, s: Resp, pick: nat, reqs: seq<Req>)
    requires Inv(env, s, reqs) && CanIssue(env, s, pick)
    requires forall r :: 0 <= r < |reqs| ==> Requester.ReqInv(env, reqs[r])
    ensures Inv(env, IssueOne(env, s, pick), reqs)
  {
    hide RespInv, CanIssue, IssueOne, SentInv, RequestsInv, MarksInv, CursorInv, GateInv, AckInv, FinishedInv,
         Requester.ReqInv;
    var t := IssueOne(env, s, pick);
    IssueOneKeeps(env, s, pick);
    IssueShape(env, s, pick);
    IssueKeepsSent(s, t, reqs);
    IssueKeepsRequests(s, t, reqs);
    IssueKeepsMarks(s, t, reqs);
    IssueKeepsFinished(s, t, reqs);
    GateKeepsCursor(env, s, pick, reqs);
  }

  lemma {:induction false} IssueAllGlobal(env: Env, s: Resp, picks: seq<nat>, reqs: seq<Req>)
    requires Inv(env, s, reqs) && Issuable(env, s, picks)
    requires forall r :: 0 <= r < |reqs| ==> Requester.ReqInv(env, reqs[r])
    ensures Inv(env, IssueAll(env, s, picks), reqs)
    decreases |picks|
  {
    hide Inv, CanIssue, Requester.ReqInv;
    if picks != [] {
      IssueOneGlobal(env, s, picks[0], reqs);
      IssueAllGlobal(env, IssueOne(env, s, picks[0]), picks[1..], reqs);
    }
  }

  // ---------------------------------------------------------- whole requests

  lemma ConsumeGlobal(env: Env, s: Resp, k: nat, picks: Picks, reqs: seq<Req>)
    requires Inv(env, s, reqs) && k in s.entries && ConsumeOk(env, s, k, picks)
    requires forall r :: 0 <= r < |reqs| ==> Requester.ReqInv(env, reqs[r])
    ensures Inv(env, Consume(env, s, k, picks), reqs)
  {
    hide Inv, Requester.ReqInv;
    MarkDoneGlobal(env, s, k, reqs);
    IssueAllGlobal(env, MarkDone(env, s, k), if Finishable(env, s, k) then picks.first else [], reqs);
  }

  lemma CommitGlobal(env: Env, s: Resp, k: nat, picks: Picks, reqs: seq<Req>)
    requires Inv(env, s, reqs) && k in s.entries && !s.entries[k].committed && CommitOk(env, s, k, picks)
    requires forall r :: 0 <= r < |reqs| ==> Requester.ReqInv(env, reqs[r])
    ensures Inv(env, Commit(env, s, k, picks), reqs)
  {
    hide Inv, Requester.ReqInv;
    var c := MarkCommitted(s, k);
    MarkCommittedGlobal(env, s, k, reqs);
    ConsumeGlobal(env, c, k, picks, reqs);
    var d := Consume(env, c, k, picks);
    IssueAllGlobal(env, d, picks.second, reqs);
    FlushAllGlobal(env, IssueAll(env, d, picks.second), reqs);
    EndCheckGlobal(env, FlushAll(IssueAll(env, d, picks.second)), k, reqs);
  }

  lemma SettleGlobal(env: Env, s: Resp, k: nat, picks: Picks, reqs: seq<Req>)
    requires Inv(env, s, reqs) && k in s.entries && SettleOk(env, s, k, picks)
    requires forall r :: 0 <= r < |reqs| ==> Requester.ReqInv(env, reqs[r])
    ensures Inv(env, Settle(env, s, k, picks), reqs)
  {
    hide Inv, Requester.ReqInv;
    if s.entries[k].committed {
      ConsumeGlobal(env, s, k, picks, reqs);
      EndCheckGlobal(env, Consume(env, s, k, picks), k, reqs);
    } else if s.entries[k].bitmap == Full(env) {
      CommitGlobal(env, s, k, picks, reqs);
    }
  }

  /** Whoever a request speaks for must have asked for that credit. */
  lemma OnRequestGlobal(env: Env, s: Resp, k: nat, from: Sender, picks: Picks, reqs: seq<Req>)
    requires Inv(env, s, reqs) && RequestOk(env, s, k, from, picks)
    requires forall r :: 0 <= r < |reqs| ==> Requester.ReqInv(env, reqs[r])
    requires k < s.creditNext && !Misplaced(env, from)
    requires from.Single? ==> from.rank < env.n && Took(reqs[from.rank], s.binding, k)
    requires from.Switches? && from.count == env.n ==> forall r :: 0 <= r < |reqs| ==> Took(reqs[r], s.binding, k)
    ensures Inv(env, OnRequest(env, s, k, from, picks), reqs)
  {
    hide RespInv, GlobalInv, Requester.ReqInv, Took, Recorded, Settle, SettleOk, FindMessage;
    if FindMessage(s.messages, k).Some? {
      IssuedOffset(env, s, k);
      var t := Recorded(env, s, k, from);
      if t.Some? {
        RecordedShape(env, s, k, from);
        SetBitmapGlobal(env, s, k, t.value.entries[k].bitmap, reqs);
        SettleGlobal(env, t.value, k, picks, reqs);
      }
    }
  }

  /** Only the sender of an input, or everyone on a full count, is marked. */
  lemma RecordedShape(env: Env, s: Resp, k: nat, from: Sender)
    requires k in s.entries && s.entries[k].bitmap <= Full(env) && Recorded(env, s, k, from).Some?
    requires from.Single? ==> from.rank < env.n
    ensures var t := Recorded(env, s, k, from).value;
            && k in t.entries && t == SetBitmap(s, k, t.entries[k].bitmap)
            && s.entries[k].bitmap <= t.entries[k].bitmap <= Full(env)
            && (from.Switches? ==> from.count == env.n)
            && forall r :: r in t.entries[k].bitmap && r !in s.entries[k].bitmap ==>
               r < env.n && (from.Switches? || from.rank == r)
  {
  }

  lemma IssuedOffset(env: Env, s: Resp, k: nat)
    requires RespInv(env, s) && k < s.creditNext && FindMessage(s.messages, k).Some?
    ensures k in s.entries && s.entries[k].bitmap <= Full(env)
  {
    hide BindingInv, FirstSendInv, OutstandingInv, DoneInv;
    assert Live(s.messages, k);
  }

  // ------------------------------------------------- submitting and finishing

  lemma NewMessageKeeps(messages: map<nat, RespMessage>, creditNext: nat, reqs: seq<Req>, st: nat, m: RespMessage)
    requires GateInv(messages, reqs) && AckInv(messages, reqs) && FinishedInv(messages, creditNext, reqs)
    requires st !in messages && m.endAck == {} && forall j :: 0 <= j < |m.reg| ==> m.reg[j] == {}
    ensures GateInv(messages[st := m], reqs) && AckInv(messages[st := m], reqs)
            && FinishedInv(messages[st := m], creditNext, reqs)
  {
    var messages' := messages[st := m];
    forall x: nat, j: nat, r: nat | Registered(messages', x, j, r) ensures x != st && Registered(messages, x, j, r) {}
    forall x: nat, r: nat | EndAcked(messages', x, r) ensures x != st && EndAcked(messages, x, r) {}
    forall o: nat | Live(messages, o) ensures Live(messages', o) {
      var x :| x in messages && Covers(x, messages[x].total, o);
      assert x in messages' && Covers(x, messages'[x].total, o);
    }
  }

  lemma SubmitGlobal(env: Env, s: Resp, reqs: seq<Req>)
    requires Inv(env, s, reqs) && s.submitted < |env.plan|
    ensures Inv(env, SubmitResp(env, s), reqs)
  {
    hide RespInv, SentInv, RequestsInv, MarksInv, GateInv, CursorInv, AckInv, FinishedInv;
    SubmitKeeps(env, s);
    assert s.nextSeq !in s.messages by { NextIsFree(env, s); }
    NewMessageKeeps(s.messages, s.creditNext, reqs, s.nextSeq, SubmitResp(env, s).messages[s.nextSeq]);
  }

  lemma NextIsFree(env: Env, s: Resp)
    requires RespInv(env, s) && s.submitted < |env.plan|
    ensures s.nextSeq !in s.messages
  {
    hide EntriesInv, BindingInv, FirstSendInv, OutstandingInv, DoneInv;
    SubmitKeepsMessages(env, s);
  }

  lemma AckKeeps(messages: map<nat, RespMessage>, creditNext: nat, reqs: seq<Req>, st: nat, m: RespMessage, rank: nat)
    requires GateInv(messages, reqs) && AckInv(messages, reqs) && FinishedInv(messages, creditNext, reqs)
             && st in messages
    requires m.id == messages[st].id && m.total == messages[st].total && m.reg == messages[st].reg
    requires m.endAck == messages[st].endAck + {rank}
    requires rank < |reqs| ==> Requester.HeldRange(reqs[rank].held, st, m.total)
    ensures GateInv(messages[st := m], reqs) && AckInv(messages[st := m], reqs)
            && FinishedInv(messages[st := m], creditNext, reqs)
  {
    hide Requester.HeldRange;
    var messages' := messages[st := m];
    forall x: nat, j: nat, r: nat | Registered(messages', x, j, r) ensures Registered(messages, x, j, r) {}
    forall x: nat, r: nat | EndAcked(messages', x, r) && r < |reqs|
      ensures Requester.HeldRange(reqs[r].held, x, messages'[x].total) {
      if !(x == st && r == rank) { assert EndAcked(messages, x, r); }
    }
    forall o: nat ensures Live(messages', o) <==> Live(messages, o) { LayoutKept(messages, st, m, o); }
  }

  lemma ForgetKeepsMessages(messages: map<nat, RespMessage>, creditNext: nat, reqs: seq<Req>, st: nat)
    requires GateInv(messages, reqs) && AckInv(messages, reqs) && FinishedInv(messages, creditNext, reqs)
             && st in messages
    requires forall r: nat :: r < |reqs| ==> r in messages[st].endAck
    ensures GateInv(messages - {st}, reqs) && AckInv(messages - {st}, reqs)
            && FinishedInv(messages - {st}, creditNext, reqs)
  {
    var messages' := messages - {st};
    forall x: nat, j: nat, r: nat | Registered(messages', x, j, r) ensures Registered(messages, x, j, r) {}
    forall x: nat, r: nat | EndAcked(messages', x, r) ensures EndAcked(messages, x, r) {}
    forall o: nat | Live(messages, o) && !Covers(st, messages[st].total, o) ensures Live(messages', o) {
      var x :| x in messages && Covers(x, messages[x].total, o);
      assert x in messages' && Covers(x, messages'[x].total, o);
    }
    forall o: nat | Covers(st, messages[st].total, o) ensures AllHold(reqs, o) {
      forall r: nat | r < |reqs| ensures o in reqs[r].held { assert EndAcked(messages, st, r); }
    }
  }

  lemma ForgetKeepsMarks(env: Env, entries: map<nat, Entry>, creditNext: nat, binding: map<nat, nat>, reqs: seq<Req>,
                         gone: set<nat>)
    requires MarksInv(entries, creditNext, binding, reqs) && |reqs| == env.n
    requires forall k :: k in gone && k in entries ==> entries[k].bitmap == Full(env)
    ensures MarksInv(entries - gone, creditNext, binding, reqs)
  {
    forall k: nat, r: nat | k < creditNext && r < |reqs| && Marked(entries - gone, k, r)
      ensures Marked(entries, k, r) {}
  }

  lemma EraseGlobal(env: Env, s: Resp, st: nat, reqs: seq<Req>)
    requires Inv(env, s, reqs) && st in s.messages && s.pending == []
    requires s.messages[st].done == s.messages[st].total && s.messages[st].endAck == Full(env)
    ensures Inv(env, Erase(s, st), reqs)
  {
    hide RespInv, SentInv, RequestsInv, MarksInv, GateInv, CursorInv, AckInv, FinishedInv;
    EraseKeeps(env, s, st);
    AllMarked(env, s, st);
    ForgetKeepsMessages(s.messages, s.creditNext, reqs, st);
    ForgetKeepsMarks(env, s.entries, s.creditNext, s.binding, reqs, Range(st, s.messages[st].total));
  }

  /** Every offset of a message whose offsets are all done has been consumed by everyone. */
  lemma AllMarked(env: Env, s: Resp, st: nat)
    requires RespInv(env, s) && st in s.messages && s.messages[st].done == s.messages[st].total
    ensures forall k :: k in Range(st, s.messages[st].total) && k in s.entries ==> s.entries[k].bitmap == Full(env)
  {
    hide MessagesInv, BindingInv, FirstSendInv, OutstandingInv, Live;
    AllDone(s.entries, st, s.messages[st].total);
    forall k | k in Range(st, s.messages[st].total) && k in s.entries ensures s.entries[k].bitmap == Full(env) {
      assert EntryInv(env, s.entries[k]);
    }
  }

  lemma OnEndAckGlobal(env: Env, s: Resp, st: nat, rank: nat, reqs: seq<Req>)
    requires Inv(env, s, reqs) && s.pending == [] && rank < env.n
    requires st in s.messages ==> Requester.HeldRange(reqs[rank].held, st, s.messages[st].total)
    ensures Inv(env, OnEndAck(env, s, st, rank), reqs)
  {
    hide RespInv, SentInv, RequestsInv, MarksInv, GateInv, CursorInv, AckInv, FinishedInv, Requester.HeldRange;
    if st in s.messages {
      var m := s.messages[st];
      var acked := m.(endAck := m.endAck + {rank});
      if acked.endAck == Full(env) { acked := acked.(endPending := false); }
      var t := s.(messages := s.messages[st := acked]);
      AckedKeeps(env, s, st, rank, acked);
      AckKeeps(s.messages, s.creditNext, reqs, st, acked, rank);
      if acked.endAck == Full(env) && acked.done == acked.total {
        EraseGlobal(env, t, st, reqs);
      }
    }
  }

  lemma AckedKeeps(env: Env, s: Resp, st: nat, rank: nat, acked: RespMessage)
    requires RespInv(env, s) && st in s.messages && rank < env.n
    requires acked == s.messages[st].(endAck := s.messages[st].endAck + {rank}, endPending := acked.endPending)
    ensures RespInv(env, s.(messages := s.messages[st := acked]))
  {
    hide EntriesInv, BindingInv, FirstSendInv, OutstandingInv, DoneInv;
    assert MessageInv(env, s.messages[st], st, s.submitted) && SameIdentity(env, s.messages[st], acked);
    MessageOnlyKeeps(env, s, s.(messages := s.messages[st := acked]), st, acked);
  }

  // -------------------------------------------------------- requester steps

  /** Requesters only ever gain: they submit, receive and ask. */
  ghost predicate Grown(a: seq<Req>, b: seq<Req>) {
    && |a| == |b|
    && forall r :: 0 <= r < |a| ==>
         a[r].held <= b[r].held && a[r].submitted <= b[r].submitted && a[r].nextSeq <= b[r].nextSeq
  }

  lemma GrownKeepsSent(s: Resp, a: seq<Req>, b: seq<Req>)
    requires Grown(a, b) && SentInv(s.sent, s.creditNext, s.binding, a)
    ensures SentInv(s.sent, s.creditNext, s.binding, b)
  {
    forall o: nat | AllHold(a, o) ensures AllHold(b, o) {}
    forall d | d in s.sent ensures GoodDown(d, s.creditNext, s.binding, b) {
      assert GoodDown(d, s.creditNext, s.binding, a);
    }
  }

  lemma GrownKeepsTook(a: seq<Req>, b: seq<Req>, binding: map<nat, nat>)
    requires Grown(a, b)
    ensures forall r: nat, k: nat :: r < |a| && Took(a[r], binding, k) ==> Took(b[r], binding, k)
  {
  }

  lemma GrownKeepsMessages(s: Resp, a: seq<Req>, b: seq<Req>)
    requires Grown(a, b) && GateInv(s.messages, a) && CursorInv(s.creditNext, a) && AckInv(s.messages, a)
    requires FinishedInv(s.messages, s.creditNext, a)
    ensures GateInv(s.messages, b) && CursorInv(s.creditNext, b) && AckInv(s.messages, b)
    ensures FinishedInv(s.messages, s.creditNext, b)
  {
    forall o: nat | AllHold(a, o) ensures AllHold(b, o) {}
    forall st: nat, r: nat | EndAcked(s.messages, st, r) && r < |b|
      ensures Requester.HeldRange(b[r].held, st, s.messages[st].total) {
      assert Requester.HeldRange(a[r].held, st, s.messages[st].total);
    }
  }

  /** A requester step keeps the invariant if its new requests answer credits it may consume. */
  lemma GrownKeeps(env: Env, s: Resp, a: seq<Req>, b: seq<Req>)
    requires Inv(env, s, a) && Grown(a, b)
    requires forall r: nat, k: nat :: r < |b| && Asked(b[r], k) && !Asked(a[r], k) ==>
             k < s.creditNext && Took(b[r], s.binding, k)
    ensures Inv(env, s, b)
  {
    hide RespInv, SentInv, GateInv, CursorInv, AckInv, FinishedInv, Asked, Took;
    GrownKeepsSent(s, a, b);
    GrownKeepsTook(a, b, s.binding);
    GrownKeepsMessages(s, a, b);
  }
}
