/** The two in-place ring buffers: the responder's send queue (protocol/responder.c)
    and the receive queue of a connection (protocol/host.c). */
module Rings {
  import opened Prelude

  /** The slot `k` places after `from`, going round a ring of `n` slots. */
  function Place(from: nat, k: nat, n: nat): (i: nat)
    requires from < n && k < n
    ensures i < n
  {
    if from + k < n then from + k else from + k - n
  }

  lemma PlaceIsModulo(from: nat, k: nat, n: nat)
    requires from < n && k < n
    ensures Place(from, k, n) == (from + k) % n
  {
    WrapOnce(from + k, n);
  }

  lemma WrapOnce(x: nat, n: nat)
    requires x < 2 * n
    ensures x % n == if x < n then x else x - n
  {
  }

  /** How many places lie from `tail` up to `head`. */
  function Count(tail: nat, head: nat, n: nat): (c: nat)
    requires tail < n && head < n
    ensures c < n && Place(tail, c, n) == head
  {
    if tail <= head then head - tail else head + n - tail
  }

  function Next(i: nat, n: nat): (j: nat)
    requires i < n
    ensures j < n
  {
    (i + 1) % n
  }

  lemma NextPlace(from: nat, k: nat, n: nat)
    requires from < n && k + 1 < n
    ensures Next(Place(from, k, n), n) == Place(from, k + 1, n)
  {
    WrapOnce(Place(from, k, n) + 1, n);
  }

  /** The slots from `tail` on hold `view`, oldest first. */
  ghost predicate Holds<T>(ring: seq<T>, tail: nat, view: seq<T>) {
    tail < |ring| && |view| < |ring|
    && forall k: nat :: k < |view| ==> view[k] == ring[Place(tail, k, |ring|)]
  }

  /** Dropping the oldest element moves the tail. */
  lemma HoldsRest<T>(ring: seq<T>, tail: nat, view: seq<T>)
    requires Holds(ring, tail, view) && view != []
    ensures Holds(ring, Next(tail, |ring|), view[1..])
    ensures Place(Next(tail, |ring|), |view| - 1, |ring|) == Place(tail, |view|, |ring|)
  {
    var n := |ring|;
    WrapOnce(tail + 1, n);
  }

  // ---------------------------------------------------------- the send queue

  datatype Frame = Frame(sub: nat, due: nat, bytes: seq<bv8>)

  /** The frames due by `now`, in queue order. */
  ghost function Due(q: seq<Frame>, now: nat): (r: seq<Frame>)
    ensures |r| <= |q|
  {
    if q == [] then [] else Due(q[..|q| - 1], now) + if q[|q| - 1].due <= now then [q[|q| - 1]] else []
  }

  /** The frames not yet due, in queue order. */
  ghost function Later(q: seq<Frame>, now: nat): (r: seq<Frame>)
    ensures |r| <= |q|
  {
    if q == [] then [] else Later(q[..|q| - 1], now) + if q[|q| - 1].due <= now then [] else [q[|q| - 1]]
  }

  lemma {:induction false} LaterMembers(q: seq<Frame>, now: nat)
    ensures forall f :: f in Later(q, now) <==> f in q && now < f.due
  {
    if q != [] {
      LaterMembers(q[..|q| - 1], now);
      assert q == q[..|q| - 1] + [q[|q| - 1]];
    }
  }

  lemma {:induction false} DuePlusLater(q: seq<Frame>, now: nat)
    ensures multiset(q) == multiset(Due(q, now)) + multiset(Later(q, now))
    ensures |q| == |Due(q, now)| + |Later(q, now)|
  {
    if q != [] {
      var init, last := q[..|q| - 1], q[|q| - 1];
      var due, later := Due(init, now), Later(init, now);
      DuePlusLater(init, now);
      assert q == init + [last];
      if last.due <= now {
        assert Due(q, now) == due + [last] && Later(q, now) == later;
      } else {
        assert Due(q, now) == due && Later(q, now) == later + [last];
      }
      hide Due, Later;
    }
  }

  lemma {:induction false} NothingDue(q: seq<Frame>, now: nat)
    requires Due(q, now) == []
    ensures Later(q, now) == q
  {
    if q != [] {
      NothingDue(q[..|q| - 1], now);
    }
  }

  /** A whole flush: passes repeat, reading the clock again, as long as the last one sent something. */
  ghost function Flush(q: seq<Frame>, clock: nat -> nat, pass: nat): (r: (seq<Frame>, seq<Frame>))
    decreases |q|
  {
    var due := Due(q, clock(pass));
    if due == [] then ([], q)
    else
      DuePlusLater(q, clock(pass));
      var (sent, left) := Flush(Later(q, clock(pass)), clock, pass + 1);
      (due + sent, left)
  }

  /** Nothing is lost, duplicated or left behind: what a flush sends and what it
      leaves make up the queue, and what it leaves was not due at its last look. */
  lemma {:induction false} FlushPartitions(q: seq<Frame>, clock: nat -> nat, pass: nat)
    ensures var (sent, left) := Flush(q, clock, pass);
            multiset(q) == multiset(sent) + multiset(left)
            && exists last: nat :: pass <= last && FlushEndsAt(clock, last, left)
    decreases |q|
  {
    if Due(q, clock(pass)) == [] {
      DuePlusLater(q, clock(pass));
      LaterMembers(q, clock(pass));
      NothingDue(q, clock(pass));
      assert FlushEndsAt(clock, pass, q);
    } else {
      DuePlusLater(q, clock(pass));
      FlushPartitions(Later(q, clock(pass)), clock, pass + 1);
    }
  }

  ghost predicate FlushEndsAt(clock: nat -> nat, last: nat, left: seq<Frame>) {
    forall f :: f in left ==> clock(last) < f.due
  }

  /** A second look at the same instant finds nothing due. */
  lemma LaterIsNotDue(q: seq<Frame>, now: nat)
    ensures Due(Later(q, now), now) == []
  {
    LaterMembers(q, now);
    NoneIsDue(Later(q, now), now);
  }

  lemma {:induction false} NoneIsDue(q: seq<Frame>, now: nat)
    requires forall f :: f in q ==> now < f.due
    ensures Due(q, now) == []
  {
    if q != [] {
      NoneIsDue(q[..|q| - 1], now);
    }
  }

  /** With a clock that stands still, a flush sends exactly the due frames, in
      order, and leaves the others, in order. */
  lemma FlushAtOneInstant(q: seq<Frame>, now: nat, clock: nat -> nat, pass: nat)
    requires forall i: nat :: clock(i) == now
    ensures Flush(q, clock, pass) == (Due(q, now), Later(q, now))
  {
    if Due(q, now) == [] {
      NothingDue(q, now);
    } else {
      LaterIsNotDue(q, now);
      assert clock(pass) == now && clock(pass + 1) == now;
      assert Flush(Later(q, now), clock, pass + 1) == ([], Later(q, now));
      assert Due(q, now) + [] == Due(q, now);
    }
  }

  // A ring slot keeps its frame only while it is valid.
  datatype SendSlot = SendSlot(valid: bool, frame: Frame)

  ghost function Filled(q: seq<Frame>): (s: seq<SendSlot>)
    ensures |s| == |q| && forall k :: 0 <= k < |s| ==> s[k] == SendSlot(true, q[k])
  {
    seq(|q|, k requires 0 <= k < |q| => SendSlot(true, q[k]))
  }

  /** What a scan at `now` makes of the first `k` slots. */
  ghost function Scanned(q: seq<Frame>, k: nat, now: nat): (s: seq<SendSlot>)
    ensures |s| == |q| && forall j :: 0 <= j < |q| ==> s[j] == SendSlot(j >= k || now < q[j].due, q[j])
  {
    seq(|q|, j requires 0 <= j < |q| => SendSlot(j >= k || now < q[j].due, q[j]))
  }

  ghost function IfDue(f: Frame, now: nat): seq<Frame> {
    if f.due <= now then [f] else []
  }

  lemma Regroup<T>(a: seq<T>, b: seq<T>, c: seq<T>)
    ensures (a + b) + c == a + (b + c)
  {
  }

  lemma DueAppended(sent: seq<Frame>, f: Frame, now: nat)
    ensures sent + IfDue(f, now) != [] <==> sent != [] || f.due <= now
  {
  }

  lemma PrefixStep(q: seq<Frame>, k: nat, now: nat)
    requires k < |q|
    ensures Due(q[..k + 1], now) == Due(q[..k], now) + IfDue(q[k], now)
    ensures Later(q[..k + 1], now) == Later(q[..k], now) + if q[k].due <= now then [] else [q[k]]
  {
    assert q[..k + 1][..k] == q[..k];
  }

  class SendQueue {
    const ring: array<SendSlot>
    const subchannels: nat
    const maxFrame: nat
    var head: nat
    var tail: nat
    ghost var frames: seq<Frame>
    ghost var wire: seq<Frame>

    /** The slots from tail to head hold `view`. */
    ghost predicate Shows(view: seq<SendSlot>)
      reads this, ring
    {
      Holds(ring[..], tail, view) && head == Place(tail, |view|, ring.Length)
    }

    /** Frames the queue accepts. */
    predicate Acceptable(f: Frame) {
      f.sub < subchannels && 0 < |f.bytes| <= maxFrame
    }

    /** The ring holds exactly the waiting frames, without a hole. */
    ghost predicate Valid()
      reads this, ring
    {
      Shows(Filled(frames)) && forall f :: f in frames ==> Acceptable(f)
    }

    constructor (size: nat, subchannels: nat, maxFrame: nat)
      requires size > 1
      ensures this.subchannels == subchannels && this.maxFrame == maxFrame
      ensures Valid() && fresh(ring) && ring.Length == size && frames == [] && wire == []
    {
      ring := new SendSlot[size](_ => SendSlot(false, Frame(0, 0, [])));
      head, tail, frames, wire := 0, 0, [], [];
      this.subchannels, this.maxFrame := subchannels, maxFrame;
    }

    /** enqueue_send_frame: refused exactly when the frame is malformed or the ring is full. */
    method Enqueue(f: Frame) returns (ok: bool)
      requires Valid()
      modifies this`head, this`frames, ring
      ensures Valid()
      ensures ok <==> Acceptable(f) && |old(frames)| + 1 < ring.Length
      ensures frames == if ok then old(frames) + [f] else old(frames)
    {
      if f.sub >= subchannels || |f.bytes| == 0 || |f.bytes| > maxFrame {
        return false;
      }
      var n := ring.Length;
      var next := Next(head, n);
      WrapOnce(head + 1, n);
      if next == tail {
        return false;
      }
      NextPlace(tail, |frames|, n);
      assert ring[..][head := SendSlot(true, f)] == ring[..][..head] + [SendSlot(true, f)] + ring[..][head + 1..];
      ghost var stored := ring[..][head := SendSlot(true, f)];
      ring[head] := SendSlot(true, f);
      assert ring[..] == stored;
      head := next;
      frames := frames + [f];
      assert Filled(frames) == Filled(old(frames)) + [SendSlot(true, f)];
      return true;
    }

    /** Store into the slot showing element `k`. */
    method Put(idx: nat, v: SendSlot, ghost k: nat, ghost view: seq<SendSlot>)
      requires Shows(view) && k < |view| && idx == Place(tail, k, ring.Length)
      modifies ring
      ensures Shows(view[k := v])
    {
      ghost var stored := ring[..][idx := v];
      ring[idx] := v;
      assert ring[..] == stored;
    }

    /** Transmit one slot's frame if it is due, and blank the slot. */
    method Visit(idx: nat, now: nat, ghost k: nat) returns (due: bool)
      requires k < |frames| && Shows(Scanned(frames, k, now)) && idx == Place(tail, k, ring.Length)
               && Acceptable(frames[k])
      modifies this`wire, ring
      ensures Shows(Scanned(frames, k + 1, now)) && (due <==> frames[k].due <= now)
      ensures wire == old(wire) + IfDue(frames[k], now)
    {
      var e := ring[idx];
      due := e.valid && e.frame.due <= now;
      if due {
        if e.frame.sub < subchannels && |e.frame.bytes| > 0 {
          wire := wire + [e.frame];
        }
        Put(idx, e.(valid := false), k, Scanned(frames, k, now));
      }
    }

    /** One scan: transmit what is due and blank its slots; report whether anything was sent. */
    method Scan(now: nat) returns (sentDue: bool)
      requires Valid()
      modifies this`wire, ring
      ensures wire == old(wire) + Due(frames, now) && (sentDue <==> Due(frames, now) != [])
      ensures Shows(Scanned(frames, |frames|, now))
    {
      var n, from := ring.Length, tail;
      ghost var q, before, sent, k := frames, wire, [], 0;
      assert from < n && |q| < n && head == Place(from, |q|, n) && Place(from, 0, n) == from;
      assert Scanned(q, 0, now) == Filled(q) && before + [] == before;
      assert Due(q[..0], now) == [];
      hide Shows, Due, IfDue, Next, Place, Scanned, Acceptable;
      sentDue := false;
      var idx := from;
      while idx != head
        invariant 0 <= k <= |q| && idx == Place(from, k, n) && frames == q && tail == from
        invariant wire == before + sent && sent == Due(q[..k], now) && (sentDue <==> sent != [])
        invariant Shows(Scanned(q, k, now))
        modifies this`wire, ring
        decreases |q| - k
      {
        PrefixStep(q, k, now);
        Regroup(before, sent, IfDue(q[k], now));
        DueAppended(sent, q[k], now);
        var due := Visit(idx, now, k);
        sentDue := sentDue || due;
        sent := sent + IfDue(q[k], now);
        NextPlace(from, k, n);
        idx := Next(idx, n);
        k := k + 1;
      }
      assert q[..k] == q;
    }

    /** Move one slot's frame up to the write position, if it is still waiting. */
    method MoveUp(write: nat, idx: nat, ghost now: nat, ghost w: nat, ghost k: nat, ghost view: seq<SendSlot>)
      returns (write': nat, ghost w': nat, ghost view': seq<SendSlot>)
      requires Shows(view) && k < |frames| && Compacted(frames, view, w, k, now)
      requires write == Place(tail, w, ring.Length) && idx == Place(tail, k, ring.Length)
      modifies ring
      ensures Shows(view') && w' <= k + 1 && Compacted(frames, view', w', k + 1, now)
      ensures write' == Place(tail, w', ring.Length)
    {
      PrefixStep(frames, k, now);
      write', w', view' := write, w, view;
      var src := ring[idx];
      if src.valid {
        if write != idx {
          Put(write, src, w, view');
          view' := view'[w := src];
          Put(idx, src.(valid := false), k, view');
          view' := view'[k := src.(valid := false)];
        }
        NextPlace(tail, w, ring.Length);
        write' := Next(write, ring.Length);
        w' := w + 1;
      }
    }

    /** Move every frame still waiting up to the write position. */
    method MoveAllUp(ghost now: nat) returns (write: nat, ghost w: nat, ghost view: seq<SendSlot>)
      requires Shows(Scanned(frames, |frames|, now))
      modifies ring
      ensures Shows(view) && w <= |frames| < ring.Length && tail < ring.Length && write == Place(tail, w, ring.Length)
      ensures Compacted(frames, view, w, |frames|, now)
    {
      var n := ring.Length;
      assert tail < n && |frames| < n && head == Place(tail, |frames|, n) && Place(tail, 0, n) == tail;
      hide Shows, Compacted, Next, Place, Scanned, Acceptable, Later;
      write, w, view := tail, 0, Scanned(frames, |frames|, now);
      var idx := tail;
      ghost var k := 0;
      while idx != head
        invariant 0 <= w <= k <= |frames| && idx == Place(tail, k, n) && write == Place(tail, w, n)
        invariant Shows(view) && Compacted(frames, view, w, k, now)
        modifies ring
        decreases |frames| - k
      {
        write, w, view := MoveUp(write, idx, now, w, k, view);
        NextPlace(tail, k, n);
        idx := Next(idx, n);
        k := k + 1;
      }
    }

    /** Close the holes a scan left: the frames still waiting move up, in order. */
    method Compact(ghost now: nat)
      requires Shows(Scanned(frames, |frames|, now))
      modifies this`head, ring
      ensures Shows(Filled(Later(frames, now)))
    {
      hide Shows, Compacted, Place, Scanned, Later;
      var write: nat;
      ghost var w: nat, view: seq<SendSlot>;
      write, w, view := MoveAllUp(now);
      CompactedIsFilled(frames, view, w, now);
      Truncate(write, w, view);
    }

    lemma LaterAccepted(q: seq<Frame>, now: nat)
      requires forall f :: f in q ==> Acceptable(f)
      ensures forall f :: f in Later(q, now) ==> Acceptable(f)
    {
      LaterMembers(q, now);
    }

    /** Move the head back so that only the first `w` slots remain. */
    method Truncate(newHead: nat, ghost w: nat, ghost view: seq<SendSlot>)
      requires Shows(view) && w <= |view| && newHead == Place(tail, w, ring.Length)
      modifies this`head
      ensures Shows(view[..w])
    {
      head := newHead;
    }

    /** Advance the tail over blank slots. */
    method SkipBlanks(ghost view: seq<SendSlot>) returns (ghost skipped: nat)
      requires Shows(view)
      modifies this`tail
      ensures skipped <= |view| && Shows(view[skipped..])
      ensures forall i :: 0 <= i < skipped ==> !view[i].valid
      ensures skipped < |view| ==> view[skipped].valid
    {
      var n := ring.Length;
      skipped := 0;
      while tail != head && !ring[tail].valid
        invariant skipped <= |view| && Shows(view[skipped..])
        invariant forall i :: 0 <= i < skipped ==> !view[i].valid
        decreases |view| - skipped
      {
        HoldsRest(ring[..], tail, view[skipped..]);
        assert view[skipped..][0] == view[skipped] && view[skipped..][1..] == view[skipped + 1..];
        tail := Next(tail, n);
        skipped := skipped + 1;
      }
      if skipped < |view| {
        assert view[skipped..][0] == view[skipped];
      }
    }

    /** One pass of flush_send_queue. */
    method Pass(now: nat) returns (sentDue: bool)
      requires Valid()
      modifies this`wire, this`head, this`tail, this`frames, ring
      ensures Valid()
      ensures wire == old(wire) + Due(old(frames), now) && frames == Later(old(frames), now)
      ensures sentDue <==> Due(old(frames), now) != []
    {
      sentDue := Scan(now);
      Compact(now);
      LaterAccepted(frames, now);
      frames := Later(frames, now);
      ghost var skipped := SkipBlanks(Filled(frames));
      assert frames != [] ==> Filled(frames)[0].valid;
      assert skipped == 0;
      assert Filled(frames)[0..] == Filled(frames);
    }

    /** flush_send_queue: passes, each reading the clock, until one sends nothing. */
    method FlushSendQueue(clock: nat -> nat)
      requires Valid()
      modifies this`wire, this`head, this`tail, this`frames, ring
      ensures Valid()
      ensures wire == old(wire) + Flush(old(frames), clock, 0).0 && frames == Flush(old(frames), clock, 0).1
    {
      var pass, again := 0, true;
      ghost var before, sent := frames, [];
      hide Due, Later, Flush;
      assert [] + Flush(frames, clock, 0).0 == Flush(frames, clock, 0).0;
      while again
        invariant Valid() && wire == old(wire) + sent
        invariant FlushedSoFar(before, sent, if again then Flush(frames, clock, pass) else ([], frames), clock)
        decreases again, |frames|
      {
        ghost var queue := frames;
        var now := clock(pass);
        again := Pass(now);
        DuePlusLater(queue, now);
        Regroup(old(wire), sent, Due(queue, now));
        OnePass(before, sent, queue, clock, pass);
        sent := sent + Due(queue, now);
        pass := pass + 1;
      }
    }
  }

  /** What was sent, and what flushing the rest would give, make up the whole flush. */
  ghost predicate FlushedSoFar(before: seq<Frame>, sent: seq<Frame>, rest: (seq<Frame>, seq<Frame>),
                               clock: nat -> nat) {
    Flush(before, clock, 0).0 == sent + rest.0 && Flush(before, clock, 0).1 == rest.1
  }

  lemma OnePass(before: seq<Frame>, sent: seq<Frame>, queue: seq<Frame>, clock: nat -> nat, pass: nat)
    requires FlushedSoFar(before, sent, Flush(queue, clock, pass), clock)
    ensures var due, later := Due(queue, clock(pass)), Later(queue, clock(pass));
            FlushedSoFar(before, sent + due, if due != [] then Flush(later, clock, pass + 1) else ([], later), clock)
  {
    var due, later := Due(queue, clock(pass)), Later(queue, clock(pass));
    if due == [] {
      NothingDue(queue, clock(pass));
      assert (sent + due) + [] == sent + [];
    } else {
      Regroup(sent, due, Flush(later, clock, pass + 1).0);
    }
  }

  /** After `k` slots, the first `w` slots hold what is still waiting among them. */
  ghost predicate Compacted(q: seq<Frame>, view: seq<SendSlot>, w: nat, k: nat, now: nat)
    requires k <= |q|
  {
    && w == |Later(q[..k], now)| <= k && |view| == |q|
    && (forall i :: 0 <= i < w ==> view[i] == SendSlot(true, Later(q[..k], now)[i]))
    && forall i :: k <= i < |q| ==> view[i] == SendSlot(now < q[i].due, q[i])
  }

  lemma CompactedIsFilled(q: seq<Frame>, view: seq<SendSlot>, w: nat, now: nat)
    requires Compacted(q, view, w, |q|, now)
    ensures w <= |view| && view[..w] == Filled(Later(q, now))
  {
    assert q[..|q|] == q;
  }

  // ------------------------------------------------------- the receive queue

  datatype Packet = Packet(channel: nat, message: nat, body: seq<bv8>)

  predicate For(p: Packet, channel: nat, message: nat) {
    p.channel == channel && p.message == message
  }

  /** The packets of one message, in arrival order. */
  ghost function Of(q: seq<Packet>, channel: nat, message: nat): seq<Packet> {
    if q == [] then []
    else (if For(q[0], channel, message) then [q[0]] else []) + Of(q[1..], channel, message)
  }

  lemma {:induction false} OfConcat(a: seq<Packet>, b: seq<Packet>, channel: nat, message: nat)
    ensures Of(a + b, channel, message) == Of(a, channel, message) + Of(b, channel, message)
  {
    if a == [] {
      assert a + b == b;
    } else {
      OfConcat(a[1..], b, channel, message);
      assert (a + b)[1..] == a[1..] + b;
      Regroup(if For(a[0], channel, message) then [a[0]]
              else [], Of(a[1..], channel, message), Of(b, channel, message));
    }
  }

  lemma {:induction false} OfNone(q: seq<Packet>, channel: nat, message: nat)
    requires forall k :: 0 <= k < |q| ==> !For(q[k], channel, message)
    ensures Of(q, channel, message) == []
  {
    if q != [] { OfNone(q[1..], channel, message); }
  }

  /** Taking the first packet of a message removes it from that message's stream and
      leaves every other stream as it was. */
  lemma TakeFirst(q: seq<Packet>, i: nat, channel: nat, message: nat, c: nat, m: nat)
    requires i < |q| && For(q[i], channel, message) && forall k :: 0 <= k < i ==> !For(q[k], channel, message)
    ensures Of(q, c, m) == (if c == channel && m == message then [q[i]] else []) + Of(q[..i] + q[i + 1..], c, m)
  {
    var before, after := q[..i], q[i + 1..];
    assert q == before + [q[i]] + after;
    OfAround(before, q[i], after, c, m);
    OfConcat(before, after, c, m);
    hide Of;
    if c == channel && m == message {
      OfNone(before, channel, message);
      assert Of(before, c, m) + [q[i]] == [q[i]];
      assert Of(before, c, m) + Of(after, c, m) == Of(after, c, m);
    } else {
      assert Of(before, c, m) + [] == Of(before, c, m);
    }
  }

  lemma OfAround(before: seq<Packet>, p: Packet, after: seq<Packet>, c: nat, m: nat)
    ensures Of(before + [p] + after, c, m) == Of(before, c, m) + (if For(p, c, m) then [p] else []) + Of(after, c, m)
  {
    OfConcat(before + [p], after, c, m);
    OfConcat(before, [p], c, m);
  }

  class Connection {
    const ring: array<Packet>
    var head: nat
    var tail: nat
    ghost var packets: seq<Packet>

    ghost predicate Shows(view: seq<Packet>)
      reads this, ring
    {
      Holds(ring[..], tail, view) && head == Place(tail, |view|, ring.Length)
    }

    ghost predicate Valid()
      reads this, ring
    {
      Shows(packets)
    }

    constructor (size: nat)
      requires size > 1
      ensures Valid() && fresh(ring) && ring.Length == size && packets == []
    {
      ring := new Packet[size](_ => Packet(0, 0, []));
      head, tail, packets := 0, 0, [];
    }

    /** The receive thread's enqueue: a full ring drops the packet. */
    method Push(p: Packet) returns (ok: bool)
      requires Valid()
      modifies this`head, this`packets, ring
      ensures Valid() && (ok <==> |old(packets)| + 1 < ring.Length)
      ensures packets == if ok then old(packets) + [p] else old(packets)
    {
      var n := ring.Length;
      var next := Next(head, n);
      WrapOnce(head + 1, n);
      if next == tail {
        return false;
      }
      NextPlace(tail, |packets|, n);
      ghost var stored := ring[..][head := p];
      ring[head] := p;
      assert ring[..] == stored;
      head := next;
      packets := packets + [p];
      return true;
    }

    /** conn_pop: the oldest packet. */
    method Pop() returns (out: Option<Packet>)
      requires Valid()
      modifies this`tail, this`packets
      ensures Valid()
      ensures out == if old(packets) == [] then None else Some(old(packets)[0])
      ensures packets == if old(packets) == [] then [] else old(packets)[1..]
    {
      if tail == head {
        return None;
      }
      HoldsRest(ring[..], tail, packets);
      out := Some(ring[tail]);
      tail := Next(tail, ring.Length);
      packets := packets[1..];
    }

    /** The slot of the first packet of a message; the head if there is none. */
    method FindFirst(channel: nat, message: nat) returns (idx: nat, ghost i: nat)
      requires Valid()
      ensures i <= |packets| && idx == Place(tail, i, ring.Length) && (idx == head <==> i == |packets|)
      ensures idx == head <==> forall k: nat :: k < |packets| ==> !For(packets[k], channel, message)
      ensures (forall k: nat :: k < i ==> !For(packets[k], channel, message))
      ensures i < |packets| ==> ring[idx] == packets[i] && For(packets[i], channel, message)
    {
      var n := ring.Length;
      idx := tail;
      i := 0;
      while idx != head
        invariant 0 <= i <= |packets| && idx == Place(tail, i, n)
        invariant forall k: nat :: k < i ==> !For(packets[k], channel, message)
        modifies {}
        decreases |packets| - i
      {
        var candidate := ring[idx];
        if candidate.channel == channel && candidate.message == message {
          break;
        }
        NextPlace(tail, i, n);
        idx := Next(idx, n);
        i := i + 1;
      }
    }

    /** conn_pop_matching: remove exactly the first packet of the asked message,
        and keep every other packet in order. */
    method PopMatching(channel: nat, message: nat) returns (out: Option<Packet>)
      requires Valid()
      modifies this`head, this`packets, ring
      ensures Valid()
      ensures packets == After(old(packets), Takes(channel, message))
      ensures out == match FirstOf(old(packets), channel, message)
                     case None => None
                     case Some(i) => Some(old(packets)[i])
    {
      hide Shows, FirstOf, For;
      var idx: nat;
      ghost var i: nat;
      idx, i := FindFirst(channel, message);
      if idx == head {
        return None;
      }
      out := Some(ring[idx]);
      CloseGap(idx, i);
    }

    /** Copy slot `k` into the slot before it. */
    method ShiftOne(next: nat, ghost i: nat, ghost k: nat, ghost view: seq<Packet>) returns (ghost view': seq<Packet>)
      requires Shows(view) && Shifted(packets, view, i, k) && k < |packets| && next == Place(tail, k, ring.Length)
      modifies ring
      ensures Shows(view') && Shifted(packets, view', i, k + 1)
    {
      var n := ring.Length;
      var prev := Previous(next, n);
      PreviousPlace(tail, k, n);
      ghost var stored := ring[..][prev := ring[next]];
      ring[prev] := ring[next];
      assert ring[..] == stored;
      view' := view[k - 1 := view[k]];
    }

    /** Shift the packets behind slot `i` forward by one and pull the head back. */
    method CloseGap(idx: nat, ghost i: nat)
      requires Valid() && i < |packets| && idx == Place(tail, i, ring.Length)
      modifies this`head, this`packets, ring
      ensures Valid() && packets == old(packets)[..i] + old(packets)[i + 1..]
    {
      var n := ring.Length;
      ghost var view, k := packets, i + 1;
      NextPlace(tail, i, n);
      var next := Next(idx, n);
      assert tail < n && |packets| < n && head == Place(tail, |packets|, n);
      hide Shows, Next, Place, Shifted;
      assert Shifted(packets, view, i, k) by { ShiftedStart(packets, i); }
      while next != head
        invariant i + 1 <= k <= |packets| && next == Place(tail, k, n)
        invariant Shows(view) && Shifted(packets, view, i, k)
        modifies ring
        decreases |packets| - k
      {
        view := ShiftOne(next, i, k, view);
        NextPlace(tail, k, n);
        next := Next(next, n);
        k := k + 1;
      }
      ShiftedEnd(packets, view, i);
      DropLast(view);
      packets := packets[..i] + packets[i + 1..];
    }

    method DropLast(ghost view: seq<Packet>)
      requires Shows(view) && view != []
      modifies this`head
      ensures Shows(view[..|view| - 1])
    {
      PreviousPlace(tail, |view|, ring.Length);
      head := Previous(head, ring.Length);
    }
  }

  /** Slots i..k-2 already hold what was one slot further. */
  ghost predicate Shifted(q: seq<Packet>, view: seq<Packet>, i: nat, k: nat) {
    && i < k <= |q| == |view|
    && (forall j: nat :: j < i ==> view[j] == q[j])
    && (forall j: nat :: i <= j < k - 1 ==> view[j] == q[j + 1])
    && (forall j: nat :: k <= j < |view| ==> view[j] == q[j])
  }

  lemma ShiftedStart(q: seq<Packet>, i: nat)
    requires i < |q|
    ensures Shifted(q, q, i, i + 1)
  {
  }

  lemma ShiftedEnd(q: seq<Packet>, view: seq<Packet>, i: nat)
    requires Shifted(q, view, i, |q|)
    ensures |view| == |q| > 0 && view[..|view| - 1] == q[..i] + q[i + 1..]
  {
  }

  function Previous(i: nat, n: nat): (j: nat)
    requires i < n
    ensures j < n
  {
    (i + n - 1) % n
  }

  lemma PreviousPlace(from: nat, k: nat, n: nat)
    requires from < n && 0 < k < n
    ensures Previous(Place(from, k, n), n) == Place(from, k - 1, n)
  {
    WrapOnce(Place(from, k, n) + n - 1, n);
  }

  // ------------------------------------------------------ concurrent consumers

  // One locked region: a packet arrives, or a consumer takes its next packet.
  datatype Access = Arrives(packet: Packet) | Takes(channel: nat, message: nat)

  /** The index of the first packet of a message, if there is one. */
  ghost function FirstOf(q: seq<Packet>, channel: nat, message: nat): (i: Option<nat>)
    ensures i.Some? ==> i.value < |q| && For(q[i.value], channel, message)
    ensures i.Some? ==> forall k :: 0 <= k < i.value ==> !For(q[k], channel, message)
    ensures i.None? ==> forall k :: 0 <= k < |q| ==> !For(q[k], channel, message)
  {
    if q == [] then None
    else if For(q[0], channel, message) then Some(0)
    else
      match FirstOf(q[1..], channel, message)
      case None => None
      case Some(i) => assert forall k :: 0 < k < i + 1 ==> q[k] == q[1..][k - 1]; Some(i + 1)
  }

  ghost function After(q: seq<Packet>, a: Access): seq<Packet> {
    match a
    case Arrives(p) => q + [p]
    case Takes(c, m) =>
      match FirstOf(q, c, m)
      case None => q
      case Some(i) => q[..i] + q[i + 1..]
  }

  ghost function Arrived(a: Access): seq<Packet> {
    match a case Arrives(p) => [p] case Takes(_, _) => []
  }

  ghost function Arrivals(run: seq<Access>): seq<Packet> {
    if run == [] then [] else Arrived(run[0]) + Arrivals(run[1..])
  }

  /** What one access hands to the consumer of a message. */
  ghost function Taken(q: seq<Packet>, a: Access, channel: nat, message: nat): seq<Packet> {
    if a == Takes(channel, message) && FirstOf(q, channel, message).Some?
    then [q[FirstOf(q, channel, message).value]] else []
  }

  lemma AccessKeepsStream(q: seq<Packet>, a: Access, channel: nat, message: nat)
    ensures Of(q, channel, message) + Of(Arrived(a), channel, message)
            == Taken(q, a, channel, message) + Of(After(q, a), channel, message)
  {
    match a {
      case Arrives(p) =>
        OfConcat(q, [p], channel, message);
      case Takes(c, m) =>
        if FirstOf(q, c, m).Some? {
          TakeFirst(q, FirstOf(q, c, m).value, c, m, channel, message);
        }
    }
  }

  /** What the consumer of one message has received after a run of accesses, and the queue then. */
  ghost function Received(q: seq<Packet>, run: seq<Access>, channel: nat, message: nat): (seq<Packet>, seq<Packet>)
    decreases |run|
  {
    if run == [] then ([], q)
    else
      var (got, left) := Received(After(q, run[0]), run[1..], channel, message);
      (Taken(q, run[0], channel, message) + got, left)
  }

  /** Whatever other consumers do in between, each message's consumer receives its
      own packets in arrival order, without loss or duplication. */
  lemma {:induction false} OwnPacketsInOrder(q: seq<Packet>, run: seq<Access>, channel: nat, message: nat)
    ensures var (got, left) := Received(q, run, channel, message);
            got + Of(left, channel, message) == Of(q, channel, message) + Of(Arrivals(run), channel, message)
    decreases |run|
  {
    if run == [] {
      assert Of(q, channel, message) + [] == [] + Of(q, channel, message);
    } else {
      hide Of, After, Taken, Arrived;
      var a, rest := run[0], Arrivals(run[1..]);
      var q' := After(q, a);
      var (got, left) := Received(q', run[1..], channel, message);
      OwnPacketsInOrder(q', run[1..], channel, message);
      AccessKeepsStream(q, a, channel, message);
      OfConcat(Arrived(a), rest, channel, message);
      Regroup(Taken(q, a, channel, message), got, Of(left, channel, message));
      Regroup(Taken(q, a, channel, message), Of(q', channel, message), Of(rest, channel, message));
      Regroup(Of(q, channel, message), Of(Arrived(a), channel, message), Of(rest, channel, message));
    }
  }
}
