/** One request() call on a requester host (protocol/requester.c): its completion
    flags, its ring of offset states, and its round-robin credit queues. */
module Requester {
  import opened Prelude

  datatype Credit = Credit(offset: nat, repair: bool)

  // What the ring remembers about one offset.
  datatype OffsetState = OffsetState(occupied: bool, pending: bool, sent: bool, offset: nat)

  const MESSAGE_IDS: nat := 256

  const VACANT: OffsetState := OffsetState(false, false, false, 0)

  // Credits arrive; normal credits are later taken from the queue and answered.
  datatype RingEvent = Arrives(credit: Credit) | Answered(offset: nat)

  predicate Remembers(st: OffsetState, k: nat) {
    st.occupied && st.offset == k
  }

  /** A further normal credit for `k` would be dropped. */
  predicate Suppresses(st: OffsetState, k: nat) {
    Remembers(st, k) && (st.pending || st.sent)
  }

  function After(st: OffsetState, e: RingEvent): OffsetState {
    match e
    case Arrives(c) =>
      if !c.repair && Suppresses(st, c.offset) then st else OffsetState(true, !c.repair, false, c.offset)
    case Answered(k) =>
      if Remembers(st, k) then st.(pending := false, sent := true) else st
  }

  function OffsetOf(e: RingEvent): nat {
    match e case Arrives(c) => c.offset case Answered(k) => k
  }

  /** A credit queue takes a credit if it has room. */
  function Enqueued(queue: seq<Credit>, c: Credit, limit: nat): seq<Credit> {
    if |queue| < limit then queue + [c] else queue
  }

  // ---------------------------------------------------------- steps of a call

  // What a call knows of its credits, with `limit` places on each subchannel's queue.
  datatype CallState = CallState(
    pull: bool, limit: nat, completed: seq<bool>, ring: seq<OffsetState>, queues: seq<seq<Credit>>, cursor: nat)

  datatype CallEvent = Pays(offset: nat) | Credits(credit: Credit, sub: nat) | Answers(out: Option<Credit>)

  /** A credit that goes unnoticed: its payload has already completed a pull. */
  predicate Ignored(s: CallState, c: Credit) {
    s.pull && c.offset < |s.completed| && s.completed[c.offset]
  }

  /** A call as it starts. */
  ghost predicate Fresh(s: CallState) {
    && |s.ring| > 0 && |s.queues| > 0
    && (forall i :: 0 <= i < |s.completed| ==> !s.completed[i])
    && (forall i :: 0 <= i < |s.ring| ==> s.ring[i] == VACANT)
    && forall j :: 0 <= j < |s.queues| ==> s.queues[j] == []
  }

  /** The ring keeps what it knows of an offset at the offset modulo its size. */
  function Noted(ring: seq<OffsetState>, e: RingEvent): seq<OffsetState>
    requires |ring| > 0
  {
    var i := OffsetOf(e) % |ring|;
    ring[i := After(ring[i], e)]
  }

  /** A credit of this message on a subchannel: dropped if its payload completed a pull,
      or if the ring suppresses it; otherwise the ring remembers it, and it is queued
      if the subchannel's queue has room. */
  function CreditTaken(s: CallState, c: Credit, sub: nat): CallState
    requires |s.ring| > 0 && sub < |s.queues|
  {
    if Ignored(s, c) then s
    else
      s.(ring := Noted(s.ring, Arrives(c)),
         queues := if !c.repair && Suppresses(s.ring[c.offset % |s.ring|], c.offset) then s.queues
                   else s.queues[sub := Enqueued(s.queues[sub], c, s.limit)])
  }

  /** One step: a payload completes an offset, a credit arrives, or the next credit is
      taken from the queues and, if it is normal, the ring notes the answer. */
  ghost predicate Leads(s: CallState, ev: CallEvent, t: CallState) {
    && |s.ring| > 0 && |s.queues| > 0
    && match ev
       case Pays(o) => o < |s.completed| && t == s.(completed := s.completed[o := true])
       case Credits(c, sub) => c.offset < |s.completed| && sub < |s.queues| && t == CreditTaken(s, c, sub)
       case Answers(out) =>
         && Dequeued(s.queues, s.cursor, out, t.queues, t.cursor)
         && t == s.(queues := t.queues, cursor := t.cursor,
                    ring := if out.None? || out.value.repair then s.ring
                            else Noted(s.ring, Answered(out.value.offset)))
  }

  // ------------------------------------------------------------- completion

  ghost function Done(flags: seq<bool>): set<nat> {
    set i: nat | i < |flags| && flags[i]
  }

  lemma FlagSet(flags: seq<bool>, i: nat)
    requires i < |flags|
    ensures Done(flags[i := true]) == Done(flags) + {i}
  {
  }

  lemma AllDone(flags: seq<bool>)
    ensures |Done(flags)| >= |flags| <==> forall i :: 0 <= i < |flags| ==> flags[i]
  {
    RangeSize(0, |flags|);
    assert Done(flags) <= Range(0, |flags|);
    SubsetSize(Done(flags), Range(0, |flags|));
    assert (forall i :: 0 <= i < |flags| ==> flags[i]) ==> Done(flags) == Range(0, |flags|);
    if |Done(flags)| >= |flags| {
      SubsetOfEqualSize(Done(flags), Range(0, |flags|));
      forall i: nat | i < |flags| ensures flags[i] { assert i in Done(flags); }
    }
  }

  /** The END tombstones of a channel: for each message id, the start of the last message
      that was received in full under it. */
  class EndTombstones {
    const epoch: array<nat>
    const valid: array<bool>

    ghost predicate Valid()
      reads this
    {
      epoch.Length == valid.Length == MESSAGE_IDS
    }

    ghost function Table(): map<nat, nat>
      requires Valid()
      reads this, epoch, valid
    {
      Tombstones(valid[..], epoch[..])
    }

    constructor ()
      ensures Valid() && fresh(epoch) && fresh(valid) && Table() == map[]
    {
      epoch := new nat[MESSAGE_IDS](_ => 0);
      valid := new bool[MESSAGE_IDS](_ => false);
    }

    /** record_request_end_tombstone. */
    method Record(id: nat, start: nat)
      requires Valid() && id < MESSAGE_IDS
      modifies epoch, valid
      ensures Table() == old(Table())[id := start]
    {
      epoch[id] := start;
      valid[id] := true;
    }

    /** The test of host_ack_tombstoned_end. */
    predicate Matches(id: nat, start: nat): (yes: bool)
      requires Valid() && id < MESSAGE_IDS
      reads this, epoch, valid
      ensures yes <==> id in Table() && Table()[id] == start
    {
      valid[id] && epoch[id] == start
    }
  }

  class RequestCall {
    const pull: bool
    const id: nat
    const start: nat
    const limit: nat
    const ring: array<OffsetState>
    const completed: array<bool>
    const tombstones: EndTombstones
    var completedCount: nat
    var queues: seq<seq<Credit>>
    var cursor: nat
    var endSubs: set<nat>
    var endAckPending: bool
    var endAckSent: bool
    ghost var requests: seq<Credit>

    ghost function State(): CallState
      reads this, ring, completed
    {
      CallState(pull, limit, completed[..], ring[..], queues, cursor)
    }

    ghost predicate Valid()
      reads this, ring, completed, tombstones
    {
      && ring.Length > 0 && completedCount == |Done(completed[..])| && |queues| > 0 && id < MESSAGE_IDS
         && tombstones.Valid()
      && completed != tombstones.valid && (forall j :: 0 <= j < |queues| ==> |queues[j]| <= limit)
      && (endAckPending <==> endSubs != {})
      && (endAckSent ==> forall i :: 0 <= i < completed.Length ==> completed[i])
    }

    /** A call with `limit` places for credits on each of `nsub` subchannels. */
    constructor (id: nat, start: nat, total: nat, ringSize: nat, nsub: nat, limit: nat, pull: bool,
                 tombstones: EndTombstones)
      requires ringSize > 0 && nsub > 0 && id < MESSAGE_IDS && tombstones.Valid()
      ensures Valid() && fresh(ring) && fresh(completed) && this.pull == pull && this.tombstones == tombstones
      ensures this.id == id && this.start == start && this.limit == limit
      ensures ring.Length == ringSize && completed.Length == total && |queues| == nsub
      ensures requests == [] && !endAckSent && endSubs == {} && Fresh(State())
    {
      this.pull, this.id, this.start, this.limit, this.tombstones := pull, id, start, limit, tombstones;
      ring := new OffsetState[ringSize](_ => VACANT);
      completed := new bool[total](_ => false);
      completedCount, queues, cursor := 0, seq(nsub, _ => []), 0;
      endSubs, endAckPending, endAckSent, requests := {}, false, false, [];
      new;
      assert Done(completed[..]) == {};
    }

    /** A payload of this message: counted once. */
    method OnPayload(offset: nat)
      requires Valid() && offset < completed.Length
      modifies this`completedCount, completed
      ensures Valid() && Leads(old(State()), Pays(offset), State())
    {
      FlagSet(completed[..], offset);
      if !completed[offset] {
        completed[offset] := true;
        completedCount := completedCount + 1;
      } else {
        assert completed[..] == completed[..][offset := true];
      }
    }

    /** A credit of this message arrives on a subchannel. */
    method OnCredit(c: Credit, sub: nat)
      requires Valid() && c.offset < completed.Length && sub < |queues|
      modifies this`queues, ring
      ensures Valid() && |queues| == old(|queues|)
      ensures Leads(old(State()), Credits(c, sub), State())
    {
      if completed[c.offset] && pull {
        return;
      }
      var i := c.offset % ring.Length;
      var st := ring[i];
      if !c.repair && st.occupied && st.offset == c.offset && (st.pending || st.sent) {
        assert ring[..] == ring[..][i := st];
        return;
      }
      ring[i] := OffsetState(true, false, false, c.offset);
      if |queues[sub]| < limit {
        queues := queues[sub := queues[sub] + [c]];
      } else {
        assert queues == queues[sub := queues[sub]];
      }
      ring[i] := ring[i].(pending := !c.repair);
    }

    /** Answer the oldest credit of the first subchannel in rotation that has one. */
    method AnswerNext() returns (out: Option<Credit>)
      requires Valid()
      modifies this`queues, this`cursor, this`requests, ring
      ensures Valid() && |queues| == old(|queues|)
      ensures Leads(old(State()), Answers(out), State())
      ensures requests == old(requests) + if out.Some? then [out.value] else []
    {
      hide Dequeued, After;
      var rest, next;
      out, rest, next := DequeueCredit(queues, cursor);
      DequeuedFits(queues, cursor, out, rest, next);
      queues, cursor := rest, next;
      if out.Some? {
        requests := requests + [out.value];
        if !out.value.repair {
          MarkAnswered(out.value.offset);
        }
      }
    }

    /** The ring notes that the request for an offset went out. */
    method MarkAnswered(offset: nat)
      requires ring.Length > 0
      modifies ring
      ensures ring[..] == Noted(old(ring[..]), Answered(offset))
    {
      var i := offset % ring.Length;
      var st := ring[i];
      if st.occupied && st.offset == offset {
        ring[i] := st.(sent := true, pending := false);
      } else {
        assert ring[..] == ring[..][i := st];
      }
    }

    /** END for a message on a subchannel: noted if it is this one, acknowledged at once if
        it is one received in full before. */
    method OnEnd(sub: nat, messageId: nat, messageStart: nat) returns (ackNow: bool)
      requires Valid() && messageId < MESSAGE_IDS
      modifies this`endSubs, this`endAckPending
      ensures Valid()
      ensures var own := messageId == id && messageStart == start;
              && endSubs == (if own then old(endSubs) + {sub} else old(endSubs))
              && (ackNow <==> !own && tombstones.Matches(messageId, messageStart))
    {
      if messageId == id && messageStart == start {
        endAckPending := true;
        endSubs := endSubs + {sub};
        return false;
      }
      return tombstones.valid[messageId] && tombstones.epoch[messageId] == messageStart;
    }

    /** END is acknowledged, on the subchannels it came on, and the call returns, leaving a
        tombstone, only with every payload received. */
    method TryFinish() returns (finished: bool, acked: set<nat>)
      requires Valid() && !endAckSent
      modifies this`endAckPending, this`endAckSent, this`endSubs, tombstones.epoch, tombstones.valid
      ensures Valid() && finished == endAckSent
      ensures finished <==> old(endSubs) != {} && forall i :: 0 <= i < completed.Length ==> completed[i]
      ensures acked == if finished then old(endSubs) else {}
      ensures finished ==> endSubs == {}
      ensures tombstones.Table() == if finished then old(tombstones.Table())[id := start] else old(tombstones.Table())
    {
      AllDone(completed[..]);
      finished, acked := false, {};
      if completedCount >= completed.Length {
        if endAckPending {
          acked := endSubs;
          endAckPending := false;
          endSubs := {};
          endAckSent := true;
          tombstones.Record(id, start);
          finished := true;
        }
      }
    }
  }

  // ----------------------------------------------------- round-robin credits

  /** Going round visits every subchannel. */
  lemma EveryTurn(queues: seq<seq<Credit>>, cursor: nat, j: nat)
    requires j < |queues| && forall i :: 0 <= i < |queues| ==> queues[Turn(cursor, i, |queues|)] == []
    ensures queues[j] == []
  {
    RotationCovers(cursor, |queues|, j);
  }

  /** The credit taken is the head of the first subchannel from the cursor on that has
      one; nothing is taken exactly when none has. */
  ghost predicate Dequeued(queues: seq<seq<Credit>>, cursor: nat, out: Option<Credit>, queues': seq<seq<Credit>>,
                           cursor': nat)
    requires |queues| > 0
  {
    match out
    case None => queues' == queues && cursor' == cursor && forall j :: 0 <= j < |queues| ==> queues[j] == []
    case Some(c) => exists i: nat :: i < |queues| && Served(queues, cursor, i, c, queues', cursor')
  }

  lemma DequeuedFits(queues: seq<seq<Credit>>, cursor: nat, out: Option<Credit>, queues': seq<seq<Credit>>,
                     cursor': nat)
    requires |queues| > 0 && Dequeued(queues, cursor, out, queues', cursor')
    ensures |queues'| == |queues| && forall j :: 0 <= j < |queues| ==> |queues'[j]| <= |queues[j]|
  {
  }

  /** Take the oldest credit of the first non-empty subchannel, starting at the cursor. */
  method DequeueCredit(queues: seq<seq<Credit>>, cursor: nat)
      returns (out: Option<Credit>, queues': seq<seq<Credit>>, cursor': nat)
    requires |queues| > 0
    ensures Dequeued(queues, cursor, out, queues', cursor')
  {
    var i := 0;
    while i < |queues|
      invariant 0 <= i <= |queues|
      invariant forall j :: 0 <= j < i ==> queues[Turn(cursor, j, |queues|)] == []
    {
      var s := Turn(cursor, i, |queues|);
      if queues[s] != [] {
        queues' := queues[s := queues[s][1..]];
        cursor' := (s + 1) % |queues|;
        assert Served(queues, cursor, i, queues[s][0], queues', cursor');
        return Some(queues[s][0]), queues', cursor';
      }
      i := i + 1;
    }
    forall j | 0 <= j < |queues| ensures queues[j] == [] { EveryTurn(queues, cursor, j); }
    return None, queues, cursor;
  }

  ghost predicate Served(queues: seq<seq<Credit>>, cursor: nat, i: nat, c: Credit, queues': seq<seq<Credit>>,
                         cursor': nat)
    requires i < |queues|
  {
    var s := Turn(cursor, i, |queues|);
    && (forall j :: 0 <= j < i ==> queues[Turn(cursor, j, |queues|)] == [])
    && queues[s] != [] && c == queues[s][0] && queues' == queues[s := queues[s][1..]] && cursor' == (s + 1) % |queues|
  }
}
