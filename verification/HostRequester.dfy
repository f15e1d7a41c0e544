/** The requester's end of a channel as an object (reference/arbor-host.cc). */
module HostRequester {
  import opened Prelude
  import opened HostModel
  import opened HostRequesterInvariant

  /** Dropping the key at position `i`. */
  lemma IndexShrunk(starts: seq<nat>, messages: map<nat, ReqMessage>, i: nat)
    requires Index(starts, messages) && i < |starts|
    ensures Index(starts[..i] + starts[i + 1..], messages - {starts[i]})
  {
    var rest := starts[..i] + starts[i + 1..];
    forall x ensures x in rest <==> x in messages - {starts[i]} {
      if x in messages && x != starts[i] {
        var j :| 0 <= j < |starts| && starts[j] == x;
        assert rest[if j < i then j else j - 1] == x;
      }
    }
  }

  lemma LastBeforeCovers(env: Env, q: Req, starts: seq<nat>, i: nat, x: nat, o: nat)
    requires ReqInv(env, q) && Index(starts, q.messages) && x in q.messages
    requires i <= |starts| && (forall j :: 0 <= j < i ==> starts[j] <= o) && (i < |starts| ==> o < starts[i])
    requires i > 0 ==> !Covers(starts[i - 1], q.messages[starts[i - 1]].total, o)
    ensures !Covers(x, q.messages[x].total, o)
  {
    hide DeliveredInv, ReclaimedInv, UpInv;
    if Covers(x, q.messages[x].total, o) {
      var j :| 0 <= j < |starts| && starts[j] == x;
      var y := starts[i - 1];
      assert ReqMessageInv(env, q.messages[y], y, q.submitted);
      OwnerUnique(env, q.messages, q.submitted, q.nextSeq, x, y, y);
    }
  }

  lemma FoundIs(env: Env, q: Req, st: nat, o: nat)
    requires ReqInv(env, q) && st in q.messages && Covers(st, q.messages[st].total, o)
    ensures FindReqMessage(q.messages, o) == Some(st)
  {
    hide DeliveredInv, ReclaimedInv, UpInv, OffsetsBelow;
    OwnerUnique(env, q.messages, q.submitted, q.nextSeq, st, FindReqMessage(q.messages, o).value, o);
  }

  lemma StartsBelow(env: Env, q: Req)
    requires ReqInv(env, q)
    ensures forall x :: x in q.messages ==> x < q.nextSeq
  {
    hide DeliveredInv, ReclaimedInv, UpInv, OffsetsBelow;
    forall x | x in q.messages ensures x < q.nextSeq {
      assert ReqMessageInv(env, q.messages[x], x, q.submitted);
      MessageEnd(env, q.messages, q.submitted, q.nextSeq, x);
    }
  }

  class RequesterChannel {
    ghost const env: Env
    const endAckedValid: array<bool>
    const endAckedStarts: array<nat>

    var messages: map<nat, ReqMessage>
    var starts: seq<nat>
    var offsets: map<nat, OffsetState>
    var submitted: nat
    var nextSeq: nat
    var violations: nat
    var registerPending: seq<(nat, nat)>
    ghost var sent: multiset<Up>
    ghost var held: set<nat>

    ghost predicate Tables()
      reads this
    {
      endAckedValid.Length == endAckedStarts.Length == 256
    }

    ghost function State(): Req
      requires Tables()
      reads this, endAckedValid, endAckedStarts
    {
      Req(messages, offsets, submitted, nextSeq, Tombstones(endAckedValid[..], endAckedStarts[..]), violations, sent,
          held)
    }

    ghost predicate Valid()
      reads this, endAckedValid, endAckedStarts
    {
      Tables() && ReqInv(env, State()) && Index(starts, messages)
    }

    constructor (ghost env: Env)
      requires EnvOk(env)
      ensures Valid() && this.env == env && State() == INITIAL_REQ
      ensures fresh(endAckedValid) && fresh(endAckedStarts)
    {
      this.env := env;
      endAckedValid := new bool[256](_ => false);
      endAckedStarts := new nat[256](_ => 0);
      messages, starts, offsets, submitted, nextSeq := map[], [], map[], 0, 0;
      violations, registerPending := 0, [];
      sent, held := multiset{}, {};
      new;
      assert Tombstones(endAckedValid[..], endAckedStarts[..]) == map[];
    }

    method FindReqMessage(o: nat) returns (r: Option<nat>)
      requires Valid()
      ensures r == HostModel.FindReqMessage(messages, o)
    {
      hide DeliveredInv, ReclaimedInv, UpInv, OffsetsBelow;
      var i := 0;
      while i < |starts| && starts[i] <= o
        invariant 0 <= i <= |starts|
        invariant forall j :: 0 <= j < i ==> starts[j] <= o
      {
        i := i + 1;
      }
      if i > 0 {
        var st := starts[i - 1];
        if o - st < messages[st].total {
          FoundIs(env, State(), st, o);
          return Some(st);
        }
      }
      forall x | x in messages ensures !Covers(x, messages[x].total, o) {
        LastBeforeCovers(env, State(), starts, i, x, o);
      }
      return None;
    }

    /** Submit on the requester side: the message is registered on every subchannel. */
    method Submit(d: Desc, nsub: nat)
      requires Valid() && submitted < |env.plan| && d == env.plan[submitted]
      modifies this
      ensures Valid() && State() == SubmitReq(env, old(State()))
      ensures registerPending == old(registerPending) + seq(nsub, (s: nat) => (old(nextSeq), s))
    {
      hide ReqInv, Index;
      SubmitKeeps(env, State());
      StartsBelow(env, State());
      IndexGrown(starts, messages, nextSeq, ReqMessage(submitted, nextSeq, d.total, d.pull, 0, false, {}));
      messages := messages[nextSeq := ReqMessage(submitted, nextSeq, d.total, d.pull, 0, false, {})];
      starts := starts + [nextSeq];
      var start := nextSeq;
      registerPending := registerPending + seq(nsub, (s: nat) => (start, s));
      submitted := submitted + 1;
      nextSeq := nextSeq + d.total;
    }

    /** The payload half of OnResponse: deliver once. */
    method DeliverPayload(p: nat, sub: nat)
      requires Valid() && p < nextSeq
      modifies this
      ensures Valid() && State() == TakePayload(old(State()), p, sub)
      ensures registerPending == old(registerPending)
    {
      hide ReqInv, Index;
      TakePayloadKeeps(env, State(), p, sub);
      var owner := FindReqMessage(p);
      if owner.None? {
        return;
      }
      var m := messages[owner.value].(ackedSubs := messages[owner.value].ackedSubs + {sub});
      if !m.complete {
        var os := if p in offsets then offsets[p] else OffsetState(false, false);
        if !os.delivered {
          offsets := offsets[p := os.(delivered := true)];
          m := m.(delivered := m.delivered + 1);
          if m.delivered == m.total {
            m := m.(complete := true);
          }
          held := held + {p};
        }
      }
      IndexKept(starts, messages, owner.value, m);
      messages := messages[owner.value := m];
    }

    /** The credit half of OnResponse: answer it, a normal credit only once. */
    method ConsumeCredit(k: nat, repair: bool, sub: nat)
      requires Valid() && k < nextSeq
      modifies this
      ensures Valid() && State() == TakeCredit(old(State()), k, repair, sub)
      ensures registerPending == old(registerPending)
    {
      hide ReqInv, Index;
      TakeCreditKeeps(env, State(), k, repair, sub);
      var owner := FindReqMessage(k);
      if owner.None? {
        return;
      }
      var m := messages[owner.value].(ackedSubs := messages[owner.value].ackedSubs + {sub});
      IndexKept(starts, messages, owner.value, m);
      messages := messages[owner.value := m];
      if m.complete && m.pull {
        return;
      }
      if repair {
        sent := sent + multiset{RepairRequest(k)};
      } else {
        var os := if k in offsets then offsets[k] else OffsetState(false, false);
        if !os.sent {
          offsets := offsets[k := os.(sent := true)];
          sent := sent + multiset{NormalRequest(k)};
        }
      }
    }

    /** OnResponse: the payload first, then the credit. */
    method OnResponse(d: Down)
      requires Valid() && d.Response?
      requires (d.payload.Some? ==> d.payload.value < nextSeq) && (d.credit.Some? ==> d.credit.value < nextSeq)
      modifies this
      ensures Valid() && State() == HostModel.OnResponse(old(State()), d)
    {
      hide ReqInv, Index, TakePayload, TakeCredit;
      if d.payload.Some? {
        TakePayloadHolds(env, State(), d.payload.value, d.sub);
        DeliverPayload(d.payload.value, d.sub);
      }
      if d.credit.Some? {
        ConsumeCredit(d.credit.value, d.repair, d.sub);
      }
    }

    method OnRegisterAck(st: nat, sub: nat)
      requires Valid()
      modifies this
      ensures Valid() && State() == HostModel.OnRegisterAck(old(State()), st, sub)
    {
      hide ReqInv, Index;
      OnRegisterAckKeeps(env, State(), st, sub);
      if st in messages {
        var m := messages[st].(ackedSubs := messages[st].ackedSubs + {sub});
        IndexKept(starts, messages, st, m);
        messages := messages[st := m];
      }
    }

    /** Does this beacon item still await confirmation? */
    predicate Awaiting(item: (nat, nat))
      reads this
    {
      item.0 in messages && !messages[item.0].complete && item.1 !in messages[item.0].ackedSubs
    }

    /** RegisterBeaconTick: drop confirmed items from the front of the queue; register
        the first one still awaited and put it at the back. */
    method RegisterBeaconTick() returns (sentItem: Option<(nat, nat)>)
      requires Valid()
      modifies this
      ensures Valid()
      ensures sentItem.None? ==> registerPending == [] && State() == old(State())
                                 && forall i :: 0 <= i < |old(registerPending)| ==> !Awaiting(old(registerPending)[i])
      ensures sentItem.Some? ==>
                exists n :: 0 <= n < |old(registerPending)| && old(registerPending)[n] == sentItem.value
                  && Awaiting(sentItem.value) && (forall i :: 0 <= i < n ==> !Awaiting(old(registerPending)[i]))
                  && registerPending == old(registerPending)[n + 1..] + [sentItem.value]
                  && State() == SendRegister(old(State()), sentItem.value.0, sentItem.value.1)
    {
      hide ReqInv, Index;
      ghost var n := 0;
      while registerPending != []
        invariant 0 <= n <= |old(registerPending)| && registerPending == old(registerPending)[n..]
        invariant Valid() && State() == old(State()) && messages == old(messages)
        invariant forall i :: 0 <= i < n ==> !Awaiting(old(registerPending)[i])
        decreases |registerPending|
      {
        var item := registerPending[0];
        registerPending := registerPending[1..];
        if Awaiting(item) {
          SendRegisterKeeps(env, State(), item.0, item.1);
          registerPending := registerPending + [item];
          sent := sent + multiset{Register(item.0, item.1)};
          assert old(registerPending)[n] == item;
          return Some(item);
        }
        n := n + 1;
      }
      return None;
    }

    /** OnEnd: acknowledge a message received in full and reclaim it, or repeat the
        acknowledgement of one reclaimed before. */
    method OnEnd(st: nat, id: nat)
      requires Valid()
      modifies this, endAckedValid, endAckedStarts
      ensures Valid() && State() == HostModel.OnEnd(old(State()), st, id)
    {
      hide ReqInv, Index;
      OnEndKeeps(env, State(), st, id);
      if st !in messages {
        if endAckedValid[TombstoneSlot(id)] && endAckedStarts[TombstoneSlot(id)] == st {
          sent := sent + multiset{EndAck(st)};
        }
        return;
      }
      var m := messages[st];
      if !m.complete {
        return;
      }
      sent := sent + multiset{EndAck(st)};
      Reclaim(st);
    }

    /** Leave a tombstone and release the message and its offsets. */
    method Reclaim(st: nat)
      requires Tables() && Index(starts, messages) && st in messages
      modifies this`messages, this`starts, this`offsets, endAckedValid, endAckedStarts
      ensures Tables() && Index(starts, messages)
      ensures messages == old(messages) - {st} && offsets == old(offsets) - Range(st, old(messages)[st].total)
      ensures Tombstones(endAckedValid[..], endAckedStarts[..])
              == old(Tombstones(endAckedValid[..], endAckedStarts[..]))[TombstoneSlot(old(messages)[st].id) := st]
    {
      var m := messages[st];
      var i := 0;
      while i < m.total
        invariant 0 <= i <= m.total
        invariant offsets == old(offsets) - Range(st, i)
        modifies this`offsets
      {
        offsets := offsets - {st + i};
        i := i + 1;
      }
      endAckedStarts[TombstoneSlot(m.id)] := st;
      endAckedValid[TombstoneSlot(m.id)] := true;
      i := 0;
      while starts[i] != st
        invariant 0 <= i < |starts|
        invariant exists j :: i <= j < |starts| && starts[j] == st
        modifies {}
        decreases |starts| - i
      {
        i := i + 1;
      }
      IndexShrunk(starts, messages, i);
      starts := starts[..i] + starts[i + 1..];
      messages := messages - {st};
    }
  }
}
