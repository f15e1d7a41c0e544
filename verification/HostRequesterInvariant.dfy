/** What every step of a requester keeps, on its own state. */
module HostRequesterInvariant {
  import opened Prelude
  import opened HostModel
  import opened HostPlan

  ghost predicate ReqMessageInv(env: Env, m: ReqMessage, st: nat, submitted: nat)
    requires submitted <= |env.plan|
  {
    && m.start == st && m.id < submitted && st == Start(env.plan, m.id)
    && m.total == env.plan[m.id].total && m.pull == env.plan[m.id].pull
  }

  ghost predicate LayoutInv(env: Env, messages: map<nat, ReqMessage>, submitted: nat, nextSeq: nat) {
    && EnvOk(env)
    && submitted <= |env.plan| && nextSeq == Start(env.plan, submitted)
    && forall st :: st in messages ==> ReqMessageInv(env, messages[st], st, submitted)
  }

  ghost predicate HeldRange(held: set<nat>, start: nat, total: nat) {
    forall o: nat :: Covers(start, total, o) ==> o in held
  }

  ghost function DeliveredIn(offsets: map<nat, OffsetState>, start: nat, total: nat): set<nat> {
    set o | o in offsets && offsets[o].delivered && Covers(start, total, o)
  }

  /** The delivered counter counts the delivered offsets, and `complete` is its reaching the total. */
  ghost predicate DeliveredInv(messages: map<nat, ReqMessage>, offsets: map<nat, OffsetState>, held: set<nat>) {
    && (forall st :: st in messages ==>
          && messages[st].delivered == |DeliveredIn(offsets, st, messages[st].total)|
          && (messages[st].complete <==> messages[st].delivered == messages[st].total))
    && (forall o :: o in offsets && offsets[o].delivered ==> o in held)
  }

  ghost predicate Reclaimed(env: Env, messages: map<nat, ReqMessage>, submitted: nat, i: nat)
    requires submitted <= |env.plan|
  {
    i < submitted && Start(env.plan, i) !in messages
  }

  /** Whatever was forgotten had been received in full. */
  ghost predicate ReclaimedInv(env: Env, messages: map<nat, ReqMessage>, submitted: nat, held: set<nat>)
    requires submitted <= |env.plan|
  {
    forall i: nat :: Reclaimed(env, messages, submitted, i) ==> HeldRange(held, Start(env.plan, i), env.plan[i].total)
  }

  ghost predicate AckedMessage(env: Env, submitted: nat, held: set<nat>, st: nat, i: nat)
    requires submitted <= |env.plan|
  {
    i < submitted && st == Start(env.plan, i) && HeldRange(held, st, env.plan[i].total)
  }

  ghost predicate OwnMessage(env: Env, submitted: nat, st: nat, i: nat)
    requires submitted <= |env.plan|
  {
    i < submitted && st == Start(env.plan, i)
  }

  /** END is acknowledged only for messages received in full, and only submitted messages are registered. */
  ghost predicate UpInv(env: Env, sent: multiset<Up>, submitted: nat, held: set<nat>, tombstones: map<nat, nat>)
    requires submitted <= |env.plan|
  {
    && (forall st: nat :: EndAck(st) in sent ==> exists i: nat :: AckedMessage(env, submitted, held, st, i))
    && (forall t :: t in tombstones ==> EndAck(tombstones[t]) in sent)
    && (forall st: nat, sub: nat :: Register(st, sub) in sent ==> exists i: nat :: OwnMessage(env, submitted, st, i))
  }

  /** Offsets are only ever touched through a live message. */
  ghost predicate OffsetsBelow(offsets: map<nat, OffsetState>, nextSeq: nat) {
    forall o :: o in offsets ==> o < nextSeq
  }

  ghost predicate ReqInv(env: Env, q: Req) {
    && LayoutInv(env, q.messages, q.submitted, q.nextSeq) && OffsetsBelow(q.offsets, q.nextSeq)
    && DeliveredInv(q.messages, q.offsets, q.held)
    && ReclaimedInv(env, q.messages, q.submitted, q.held)
    && UpInv(env, q.sent, q.submitted, q.held, q.tombstones)
    && q.violations == 0
  }

  // ------------------------------------------------------------- the layout

  lemma OwnerUnique(env: Env, messages: map<nat, ReqMessage>, submitted: nat, nextSeq: nat, a: nat, b: nat, o: nat)
    requires LayoutInv(env, messages, submitted, nextSeq) && a in messages && b in messages
    requires Covers(a, messages[a].total, o) && Covers(b, messages[b].total, o)
    ensures a == b
  {
    PlanDisjoint(env, messages[a].id, messages[b].id, o);
  }

  lemma MessageEnd(env: Env, messages: map<nat, ReqMessage>, submitted: nat, nextSeq: nat, st: nat)
    requires LayoutInv(env, messages, submitted, nextSeq) && st in messages
    ensures st + messages[st].total <= nextSeq
  {
    StartMonotone(env.plan, messages[st].id, submitted);
  }

  /** A complete message is held in full. */
  lemma CompleteHeld(messages: map<nat, ReqMessage>, offsets: map<nat, OffsetState>, held: set<nat>, st: nat)
    requires DeliveredInv(messages, offsets, held) && st in messages && messages[st].complete
    ensures HeldRange(held, st, messages[st].total)
  {
    var total := messages[st].total;
    RangeSize(st, total);
    assert DeliveredIn(offsets, st, total) <= Range(st, total);
    SubsetOfEqualSize(DeliveredIn(offsets, st, total), Range(st, total));
    forall o: nat | Covers(st, total, o) ensures o in held {
      assert o in DeliveredIn(offsets, st, total);
    }
  }

  /** An offset below the cursor that no live message covers is held. */
  lemma UncoveredHeld(env: Env, q: Req, o: nat)
    requires ReqInv(env, q) && o < q.nextSeq && FindReqMessage(q.messages, o).None?
    ensures o in q.held
  {
    hide DeliveredInv, UpInv, OffsetsBelow;
    var i := PlanCovers(env.plan, q.submitted, o);
    var st := Start(env.plan, i);
    if st in q.messages {
      assert ReqMessageInv(env, q.messages[st], st, q.submitted);
      PlanStartsDistinct(env, i, q.messages[st].id);
    }
    assert Reclaimed(env, q.messages, q.submitted, i);
  }

  // -------------------------------------------------------------- the steps

  lemma SubmitKeepsLayout(env: Env, q: Req)
    requires LayoutInv(env, q.messages, q.submitted, q.nextSeq) && q.submitted < |env.plan|
    ensures var t := SubmitReq(env, q); LayoutInv(env, t.messages, t.submitted, t.nextSeq)
    ensures q.nextSeq !in q.messages
  {
    forall x | x in q.messages ensures x < q.nextSeq {
      MessageEnd(env, q.messages, q.submitted, q.nextSeq, x);
    }
  }

  lemma SubmitKeepsDelivered(messages: map<nat, ReqMessage>, offsets: map<nat, OffsetState>, held: set<nat>, st: nat,
                             m: ReqMessage)
    requires DeliveredInv(messages, offsets, held) && OffsetsBelow(offsets, st)
    requires st !in messages && m.delivered == 0 && !m.complete && m.total > 0
    ensures DeliveredInv(messages[st := m], offsets, held)
  {
    assert DeliveredIn(offsets, st, m.total) == {};
  }

  /** Up-going packets stay justified while requesters submit and receive. */
  lemma UpGrows(env: Env, sent: multiset<Up>, submitted: nat, submitted': nat, held: set<nat>, held': set<nat>,
                tombstones: map<nat, nat>)
    requires submitted <= submitted' <= |env.plan| && held <= held'
    requires UpInv(env, sent, submitted, held, tombstones)
    ensures UpInv(env, sent, submitted', held', tombstones)
  {
    forall st: nat | EndAck(st) in sent ensures exists i: nat :: AckedMessage(env, submitted', held', st, i) {
      var i: nat :| AckedMessage(env, submitted, held, st, i);
      assert AckedMessage(env, submitted', held', st, i);
    }
    forall st: nat, sub: nat | Register(st, sub) in sent ensures exists i: nat :: OwnMessage(env, submitted', st, i) {
      var i: nat :| OwnMessage(env, submitted, st, i);
      assert OwnMessage(env, submitted', st, i);
    }
  }

  lemma SubmitKeepsReclaimed(env: Env, messages: map<nat, ReqMessage>, submitted: nat, held: set<nat>, m: ReqMessage)
    requires submitted < |env.plan| && ReclaimedInv(env, messages, submitted, held)
    ensures ReclaimedInv(env, messages[Start(env.plan, submitted) := m], submitted + 1, held)
  {
    hide HeldRange;
    var messages' := messages[Start(env.plan, submitted) := m];
    forall i: nat | Reclaimed(env, messages', submitted + 1, i)
      ensures HeldRange(held, Start(env.plan, i), env.plan[i].total) {
      assert i != submitted;
      assert Reclaimed(env, messages, submitted, i);
    }
  }

  lemma SubmitKeeps(env: Env, q: Req)
    requires ReqInv(env, q) && q.submitted < |env.plan|
    ensures ReqInv(env, SubmitReq(env, q))
  {
    var t := SubmitReq(env, q);
    assert EnvOk(env) && q.nextSeq == Start(env.plan, q.submitted);
    hide LayoutInv, DeliveredInv, ReclaimedInv, UpInv;
    SubmitKeepsLayout(env, q);
    SubmitKeepsDelivered(q.messages, q.offsets, q.held, q.nextSeq, t.messages[q.nextSeq]);
    SubmitKeepsReclaimed(env, q.messages, q.submitted, q.held, t.messages[q.nextSeq]);
    UpGrows(env, q.sent, q.submitted, t.submitted, q.held, q.held, q.tombstones);
  }

  ghost predicate SameReqIdentity(a: ReqMessage, b: ReqMessage) {
    b.id == a.id && b.start == a.start && b.total == a.total && b.pull == a.pull
  }

  lemma ReclaimedUnderRewrite(env: Env, messages: map<nat, ReqMessage>, submitted: nat, held: set<nat>,
                              held': set<nat>, st: nat, m: ReqMessage)
    requires submitted <= |env.plan| && st in messages && held <= held'
    requires ReclaimedInv(env, messages, submitted, held)
    ensures ReclaimedInv(env, messages[st := m], submitted, held')
  {
    forall i: nat | Reclaimed(env, messages[st := m], submitted, i)
      ensures HeldRange(held', Start(env.plan, i), env.plan[i].total)
    {
      assert Reclaimed(env, messages, submitted, i);
    }
  }

  lemma LayoutUnderRewrite(env: Env, messages: map<nat, ReqMessage>, submitted: nat, nextSeq: nat, st: nat,
                           m: ReqMessage)
    requires LayoutInv(env, messages, submitted, nextSeq) && st in messages && SameReqIdentity(messages[st], m)
    ensures LayoutInv(env, messages[st := m], submitted, nextSeq)
  {
  }

  lemma DeliveredUnderRewrite(messages: map<nat, ReqMessage>, offsets: map<nat, OffsetState>, held: set<nat>, st: nat,
                              m: ReqMessage)
    requires DeliveredInv(messages, offsets, held) && st in messages
    requires m.total == messages[st].total && m.delivered == messages[st].delivered
             && m.complete == messages[st].complete
    ensures DeliveredInv(messages[st := m], offsets, held)
  {
  }

  /** Noting that a subchannel's registration was acknowledged changes nothing else. */
  lemma AckSubKeeps(env: Env, q: Req, st: nat, sub: nat)
    requires ReqInv(env, q) && st in q.messages
    ensures ReqInv(env, q.(messages := q.messages[st := q.messages[st].(ackedSubs := q.messages[st].ackedSubs
            + {sub})]))
  {
    hide LayoutInv, DeliveredInv, ReclaimedInv, UpInv;
    var m := q.messages[st].(ackedSubs := q.messages[st].ackedSubs + {sub});
    assert q.submitted <= |env.plan| by { LayoutBounds(env, q); }
    LayoutUnderRewrite(env, q.messages, q.submitted, q.nextSeq, st, m);
    DeliveredUnderRewrite(q.messages, q.offsets, q.held, st, m);
    ReclaimedUnderRewrite(env, q.messages, q.submitted, q.held, q.held, st, m);
  }

  lemma LayoutBounds(env: Env, q: Req)
    requires ReqInv(env, q)
    ensures EnvOk(env) && q.submitted <= |env.plan| && q.nextSeq == Start(env.plan, q.submitted)
  {
  }

  /** One more offset delivered. */
  lemma DeliverOne(env: Env, messages: map<nat, ReqMessage>, submitted: nat, nextSeq: nat,
                   offsets: map<nat, OffsetState>, held: set<nat>,
                   st: nat, m: ReqMessage, p: nat, os: OffsetState)
    requires LayoutInv(env, messages, submitted, nextSeq) && DeliveredInv(messages, offsets, held)
    requires st in messages && Covers(st, messages[st].total, p) && os.delivered
    requires p in offsets ==> !offsets[p].delivered
    requires m.total == messages[st].total && m.delivered == messages[st].delivered + 1
    requires m.complete <==> m.delivered == m.total
    ensures DeliveredInv(messages[st := m], offsets[p := os], held + {p})
  {
    var messages', offsets' := messages[st := m], offsets[p := os];
    forall x | x in messages' ensures messages'[x].delivered == |DeliveredIn(offsets', x, messages'[x].total)| {
      if x == st {
        DeliveredGrows(offsets, st, m.total, p, os);
      } else {
        if Covers(x, messages[x].total, p) { OwnerUnique(env, messages, submitted, nextSeq, x, st, p); }
        DeliveredElsewhere(offsets, x, messages[x].total, p, os);
      }
    }
  }

  lemma DeliveredGrows(offsets: map<nat, OffsetState>, st: nat, total: nat, p: nat, os: OffsetState)
    requires Covers(st, total, p) && os.delivered && (p in offsets ==> !offsets[p].delivered)
    ensures |DeliveredIn(offsets[p := os], st, total)| == |DeliveredIn(offsets, st, total)| + 1
  {
    assert DeliveredIn(offsets[p := os], st, total) == DeliveredIn(offsets, st, total) + {p};
  }

  lemma DeliveredElsewhere(offsets: map<nat, OffsetState>, st: nat, total: nat, p: nat, os: OffsetState)
    requires !Covers(st, total, p)
    ensures DeliveredIn(offsets[p := os], st, total) == DeliveredIn(offsets, st, total)
  {
  }

  lemma TakePayloadKeeps(env: Env, q: Req, p: nat, sub: nat)
    requires ReqInv(env, q) && p < q.nextSeq
    ensures ReqInv(env, TakePayload(q, p, sub))
  {
    hide LayoutInv, DeliveredInv, ReclaimedInv, UpInv;
    if FindReqMessage(q.messages, p).Some? {
      var st := FindReqMessage(q.messages, p).value;
      var m := q.messages[st].(ackedSubs := q.messages[st].ackedSubs + {sub});
      if m.complete || StateOf(q, p).delivered {
        AckSubKeeps(env, q, st, sub);
      } else {
        LayoutBounds(env, q);
        var m' := m.(delivered := m.delivered + 1, complete := m.delivered + 1 == m.total);
        LayoutUnderRewrite(env, q.messages, q.submitted, q.nextSeq, st, m');
        DeliverOne(env, q.messages, q.submitted, q.nextSeq, q.offsets, q.held, st, m', p,
                   StateOf(q, p).(delivered := true));
        ReclaimedUnderRewrite(env, q.messages, q.submitted, q.held, q.held + {p}, st, m');
        UpGrows(env, q.sent, q.submitted, q.submitted, q.held, q.held + {p}, q.tombstones);
      }
    }
  }

  /** Whatever its state, a requester that has taken a payload holds it. */
  lemma TakePayloadHolds(env: Env, q: Req, p: nat, sub: nat)
    requires ReqInv(env, q) && p < q.nextSeq
    ensures p in TakePayload(q, p, sub).held && q.held <= TakePayload(q, p, sub).held
    ensures var t := TakePayload(q, p, sub); t.nextSeq == q.nextSeq && t.submitted == q.submitted && t.sent == q.sent
  {
    if FindReqMessage(q.messages, p).None? {
      UncoveredHeld(env, q, p);
    } else {
      var st := FindReqMessage(q.messages, p).value;
      if q.messages[st].complete { CompleteHeld(q.messages, q.offsets, q.held, st); }
    }
  }

  lemma SentOffsetKeeps(messages: map<nat, ReqMessage>, offsets: map<nat, OffsetState>, held: set<nat>, k: nat,
                        os: OffsetState)
    requires DeliveredInv(messages, offsets, held)
    requires os.delivered == (k in offsets && offsets[k].delivered)
    ensures DeliveredInv(messages, offsets[k := os], held)
  {
    var offsets' := offsets[k := os];
    forall x | x in messages ensures messages[x].delivered == |DeliveredIn(offsets', x, messages[x].total)| {
      assert DeliveredIn(offsets', x, messages[x].total) == DeliveredIn(offsets, x, messages[x].total);
    }
  }

  lemma RequestKeepsUp(env: Env, sent: multiset<Up>, submitted: nat, held: set<nat>, tombstones: map<nat, nat>, u: Up)
    requires submitted <= |env.plan| && UpInv(env, sent, submitted, held, tombstones)
    requires u.NormalRequest? || u.RepairRequest?
    ensures UpInv(env, sent + multiset{u}, submitted, held, tombstones)
  {
  }

  lemma TakeCreditKeeps(env: Env, q: Req, k: nat, repair: bool, sub: nat)
    requires ReqInv(env, q) && k < q.nextSeq
    ensures ReqInv(env, TakeCredit(q, k, repair, sub))
  {
    hide LayoutInv, DeliveredInv, ReclaimedInv, UpInv;
    if FindReqMessage(q.messages, k).Some? {
      var st := FindReqMessage(q.messages, k).value;
      AckSubKeeps(env, q, st, sub);
      LayoutBounds(env, q);
      var t := q.(messages := q.messages[st := q.messages[st].(ackedSubs := q.messages[st].ackedSubs + {sub})]);
      RequestKeepsUp(env, t.sent, t.submitted, t.held, t.tombstones, if repair then RepairRequest(k)
                     else NormalRequest(k));
      SentOffsetKeeps(t.messages, t.offsets, t.held, k, StateOf(q, k).(sent := true));
    }
  }

  /** What a credit makes a requester do: at most one request, for that credit. */
  lemma TakeCreditFrame(q: Req, k: nat, repair: bool, sub: nat)
    ensures var t := TakeCredit(q, k, repair, sub);
            && t.held == q.held && t.nextSeq == q.nextSeq && t.submitted == q.submitted && q.sent <= t.sent
            && t.sent <= q.sent + multiset{NormalRequest(k), RepairRequest(k)}
  {
  }

  lemma OnResponseKeeps(env: Env, q: Req, d: Down)
    requires ReqInv(env, q) && d.Response?
    requires (d.payload.Some? ==> d.payload.value < q.nextSeq) && (d.credit.Some? ==> d.credit.value < q.nextSeq)
    ensures ReqInv(env, OnResponse(q, d))
  {
    hide ReqInv, TakeCredit;
    var t := match d.payload case None => q case Some(p) => TakePayload(q, p, d.sub);
    if d.payload.Some? {
      TakePayloadKeeps(env, q, d.payload.value, d.sub);
      TakePayloadHolds(env, q, d.payload.value, d.sub);
    }
    if d.credit.Some? {
      TakeCreditKeeps(env, t, d.credit.value, d.repair, d.sub);
    }
  }

  /** The payload on a response is held before its credit is answered. */
  lemma OnResponseHolds(env: Env, q: Req, d: Down)
    requires ReqInv(env, q) && d.Response? && (d.payload.Some? ==> d.payload.value < q.nextSeq)
    ensures var t := OnResponse(q, d);
            && q.held <= t.held && t.nextSeq == q.nextSeq && t.submitted == q.submitted && q.sent <= t.sent
            && (d.payload.Some? ==> d.payload.value in t.held)
            && (forall u :: u in t.sent && u !in q.sent ==>
                  d.credit.Some? && (u == NormalRequest(d.credit.value) || u == RepairRequest(d.credit.value)))
  {
    hide ReqInv, TakeCredit, TakePayload;
    var t := match d.payload case None => q case Some(p) => TakePayload(q, p, d.sub);
    if d.payload.Some? {
      TakePayloadHolds(env, q, d.payload.value, d.sub);
    }
    if d.credit.Some? {
      TakeCreditFrame(t, d.credit.value, d.repair, d.sub);
    }
  }

  lemma SendRegisterKeeps(env: Env, q: Req, st: nat, sub: nat)
    requires ReqInv(env, q)
    ensures ReqInv(env, SendRegister(q, st, sub))
  {
    if st in q.messages && !q.messages[st].complete && sub !in q.messages[st].ackedSubs {
      assert OwnMessage(env, q.submitted, st, q.messages[st].id);
    }
  }

  lemma OnRegisterAckKeeps(env: Env, q: Req, st: nat, sub: nat)
    requires ReqInv(env, q)
    ensures ReqInv(env, OnRegisterAck(q, st, sub))
  {
    hide ReqInv;
    if st in q.messages { AckSubKeeps(env, q, st, sub); }
  }

  // ------------------------------------------------------ reclaiming a message

  lemma ReclaimKeepsDelivered(env: Env, q: Req, st: nat)
    requires ReqInv(env, q) && st in q.messages
    ensures DeliveredInv(q.messages - {st}, q.offsets - Range(st, q.messages[st].total), q.held)
  {
    hide ReclaimedInv, UpInv;
    var offsets' := q.offsets - Range(st, q.messages[st].total);
    forall x | x in q.messages && x != st
      ensures q.messages[x].delivered == |DeliveredIn(offsets', x, q.messages[x].total)|
    {
      forall o | o in DeliveredIn(q.offsets, x, q.messages[x].total) ensures o in offsets' {
        if Covers(st, q.messages[st].total, o) { OwnerUnique(env, q.messages, q.submitted, q.nextSeq, x, st, o); }
      }
      assert DeliveredIn(offsets', x, q.messages[x].total) == DeliveredIn(q.offsets, x, q.messages[x].total);
    }
  }

  lemma ReclaimKeepsReclaimed(env: Env, q: Req, st: nat)
    requires ReqInv(env, q) && st in q.messages && q.messages[st].complete
    ensures ReclaimedInv(env, q.messages - {st}, q.submitted, q.held)
  {
    hide UpInv;
    var m := q.messages[st];
    CompleteHeld(q.messages, q.offsets, q.held, st);
    forall i: nat | Reclaimed(env, q.messages - {st}, q.submitted, i)
      ensures HeldRange(q.held, Start(env.plan, i), env.plan[i].total)
    {
      if Start(env.plan, i) == st {
        PlanStartsDistinct(env, i, m.id);
      } else {
        assert Reclaimed(env, q.messages, q.submitted, i);
      }
    }
  }

  lemma ReclaimKeepsUp(env: Env, q: Req, st: nat, id: nat)
    requires ReqInv(env, q) && st in q.messages && q.messages[st].complete
    ensures UpInv(env, q.sent + multiset{EndAck(st)}, q.submitted, q.held, q.tombstones[id := st])
  {
    hide ReclaimedInv;
    CompleteHeld(q.messages, q.offsets, q.held, st);
    var sent' := q.sent + multiset{EndAck(st)};
    forall x: nat | EndAck(x) in sent' ensures exists i: nat :: AckedMessage(env, q.submitted, q.held, x, i) {
      if x == st {
        assert AckedMessage(env, q.submitted, q.held, st, q.messages[st].id);
      }
    }
  }

  lemma OnEndKeeps(env: Env, q: Req, st: nat, id: nat)
    requires ReqInv(env, q)
    ensures ReqInv(env, OnEnd(q, st, id))
  {
    hide LayoutInv, DeliveredInv, ReclaimedInv;
    if st in q.messages {
      if q.messages[st].complete {
        ReclaimKeepsDelivered(env, q, st);
        ReclaimKeepsReclaimed(env, q, st);
        ReclaimKeepsUp(env, q, st, TombstoneSlot(q.messages[st].id));
        LayoutForgotten(env, q.messages, q.submitted, q.nextSeq, st);
      }
    } else {
      LayoutBounds(env, q);
    }
  }

  lemma LayoutForgotten(env: Env, messages: map<nat, ReqMessage>, submitted: nat, nextSeq: nat, st: nat)
    requires LayoutInv(env, messages, submitted, nextSeq)
    ensures LayoutInv(env, messages - {st}, submitted, nextSeq)
  {
  }
}
