/** A run without loss: every requester's input climbs the aggregation tree, and
    exactly one master comes out, whatever the order and whatever other credits do. */
module Lossless {
  import opened Prelude
  import R = RouterModel
  import opened Reduction

  /** The LEVEL routers above each rank, root first, and the slot each has bound to the
      credit, for those the credit has reached. */
  datatype Tree = Tree(ranks: set<nat>, path: map<nat, seq<nat>>, slot: map<nat, nat>)

  ghost predicate OnPath(t: Tree, r: nat, i: nat, v: nat) {
    r in t.ranks && r in t.path && i < |t.path[r]| && t.path[r][i] == v
  }

  ghost predicate TreeOk(t: Tree) {
    && t.ranks != {} && |t.ranks| < 0x100
    && (forall r :: r in t.ranks ==> r in t.path && 0 < |t.path[r]| <= R.MAX_STACK_DEPTH)
    && (forall r, s, i: nat, j: nat, v :: OnPath(t, r, i, v) && OnPath(t, s, j, v) ==>
        i == j && t.path[r][..i] == t.path[s][..i])
    && (forall r, s :: r in t.ranks && s in t.ranks ==> t.path[r][0] == t.path[s][0])
  }

  /** The ranks below a router. */
  ghost function Below(t: Tree, v: nat): set<nat> {
    set r | r in t.ranks && r in t.path && v in t.path[r]
  }

  /** One credit's requests: all of the same shape. */
  datatype Flow = Flow(port: nat, offset: nat, op: Op, dtype: nat, words: nat, width: nat)

  // Where a rank's input is.
  datatype Place = Unsent | Flying(id: nat) | Resting(node: nat)

  datatype State = State(routers: map<nat, R.RouterState>, net: map<nat, R.Request>, at: map<nat, Place>, misses: nat)

  ghost function Carried(at: map<nat, Place>, id: nat): set<nat> {
    set r | r in at && at[r] == Flying(id)
  }

  ghost function Rest(at: map<nat, Place>, v: nat): set<nat> {
    set r | r in at && at[r] == Resting(v)
  }

  // ------------------------------------------------------------------- steps

  /** What a requester answers a credit with: the stack that came with the credit,
      and the number of ranks below each router as fan-in. */
  ghost predicate Stacked(t: Tree, q: R.Request, r: nat)
    requires r in t.path
  {
    && |q.locs| == |q.fanins| == R.MAX_STACK_DEPTH
    && q.depth <= R.MAX_STACK_DEPTH && q.depth <= |t.path[r]|
    && forall i :: 0 <= i < q.depth ==>
         t.path[r][i] in t.slot && q.locs[i] == t.slot[t.path[r][i]] && q.fanins[i] == |Below(t, t.path[r][i])|
  }

  ghost predicate OfFlow(f: Flow, q: R.Request) {
    && q.port == f.port && q.offset == f.offset && q.op == f.op && q.dtype == f.dtype
    && |q.payload| == f.words && R.NormalKind(q)
  }

  datatype Event =
    | Sends(rank: nat, id: nat, request: R.Request)
    | Delivered(id: nat, node: nat, out: nat)
    | OtherTraffic(node: nat, router: R.RouterState)

  /** Every input below a router has climbed past it. */
  ghost predicate Passed(t: Tree, s: State, v: nat) {
    forall r, i: nat :: OnPath(t, r, i, v) && r in s.at ==> Depth(t, s.at, s.net, r) <= i
  }

  /** Other traffic changes a router, but not the slot an input still has to pass.
      LosslessRun.dfy derives this from what credits and requests do. */
  ghost predicate Enabled(t: Tree, f: Flow, s: State, ev: Event) {
    match ev
    case Sends(r, id, q) =>
      && r in t.ranks && r in t.path && r in s.at && s.at[r] == Unsent && id !in s.net
      && OfFlow(f, q) && Stacked(t, q, r) && q.depth == |t.path[r]| && !q.aggregated && R.WellFormed(q, f.width)
    case Delivered(id, v, out) =>
      && id in s.net && out !in s.net && v in s.routers && s.net[id].depth > 0
      && (exists r :: r in Carried(s.at, id) && OnPath(t, r, s.net[id].depth - 1, v))
      && R.Valid(s.routers[v], f.width) && R.WellFormed(s.net[id], f.width)
    case OtherTraffic(v, router) =>
      && v in s.routers && R.Valid(router, f.width) && |router.slots| == |s.routers[v].slots|
      && (v in t.slot && t.slot[v] < |router.slots| && !Passed(t, s, v) ==>
            router.slots[t.slot[v]] == s.routers[v].slots[t.slot[v]])
  }

  ghost function Move(at: map<nat, Place>, moved: set<nat>, place: Place): map<nat, Place> {
    map r | r in at :: if r in moved then place else at[r]
  }

  ghost function Step(t: Tree, f: Flow, s: State, ev: Event): State
    requires Enabled(t, f, s, ev)
  {
    match ev
    case Sends(r, id, q) => s.(net := s.net[id := q], at := s.at[r := Flying(id)])
    case Delivered(id, v, out) =>
      var (router, output) := R.HandleRequest(s.routers[v], false, s.net[id], f.width);
      var u := s.(routers := s.routers[v := router]);
      (match output
       case Forward(q) => u.(net := s.net[id := q])
       case Absorbed => u.(net := s.net - {id}, at := Move(s.at, Carried(s.at, id), Resting(v)))
       case Master(q) =>
         u.(net := (s.net - {id})[out := q], at := Move(s.at, Carried(s.at, id) + Rest(s.at, v), Flying(out)))
       case Miss(_, _) => u.(net := s.net - {id}, misses := s.misses + 1))
    case OtherTraffic(v, router) => s.(routers := s.routers[v := router])
  }

  // --------------------------------------------------------------- invariant

  /** The ranks that travel with `r` once it has `d` levels to go. */
  ghost function Group(t: Tree, r: nat, d: nat): set<nat>
    requires r in t.path
  {
    if d < |t.path[r]| then Below(t, t.path[r][d]) else {r}
  }

  ghost predicate PacketOk(t: Tree, f: Flow, q: R.Request, ranks: set<nat>) {
    && ranks != {} && ranks <= t.ranks && OfFlow(f, q) && R.Contribution(q) == |ranks| && R.WellFormed(q, f.width)
    && forall r :: r in ranks ==> r in t.path && Stacked(t, q, r) && ranks == Group(t, r, q.depth)
  }

  /** How many levels a rank's input still has to climb. */
  ghost function Depth(t: Tree, at: map<nat, Place>, net: map<nat, R.Request>, r: nat): nat
    requires r in at && r in t.path
  {
    match at[r]
    case Unsent => |t.path[r]|
    case Flying(id) => if id in net then net[id].depth else 0
    case Resting(v) => if exists i: nat :: OnPath(t, r, i, v) then var i: nat :| OnPath(t, r, i, v); i + 1 else 0
  }

  ghost predicate Untouched(f: Flow, slot: R.Slot) {
    slot.ownerValid && slot.port == f.port && slot.offset == f.offset
  }

  /** A slot that counted something: its shape, and a stored header that fits every rank below. */
  ghost predicate HoldsMaster(t: Tree, f: Flow, slot: R.Slot, v: nat, level: nat) {
    && slot.fanin == |Below(t, v)| && slot.op == f.op && slot.dtype == f.dtype && slot.words == f.words
    && slot.master.Some? && slot.master.value.depth == level && OfFlow(f, slot.master.value)
    && FitsAll(t, slot.master.value, v)
  }

  ghost predicate FitsAll(t: Tree, q: R.Request, v: nat) {
    forall r :: r in Below(t, v) ==> r in t.path && Stacked(t, q, r)
  }

  /** An open slot has counted exactly the ranks resting in it. */
  ghost predicate OpenSlot(t: Tree, f: Flow, slot: R.Slot, v: nat, level: nat, rest: set<nat>) {
    && !slot.forwarded && slot.count == |rest| < |Below(t, v)| && rest <= Below(t, v)
    && (slot.count > 0 ==> HoldsMaster(t, f, slot, v, level))
  }

  ghost predicate AllAbove(t: Tree, s: State, v: nat, level: nat) {
    forall r :: r in Below(t, v) && r in s.at && r in t.path ==> level <= Depth(t, s.at, s.net, r)
  }

  ghost predicate AllPast(t: Tree, s: State, v: nat, level: nat) {
    forall r :: r in Below(t, v) && r in s.at && r in t.path ==> Depth(t, s.at, s.net, r) < level
  }

  /** The slot a router bound to the credit: open while inputs are still to come.
      Once all of them have passed, nothing depends on it any more. */
  ghost predicate SlotOk(t: Tree, f: Flow, slot: R.Slot, s: State, v: nat, level: nat) {
    if AllPast(t, s, v, level) then Rest(s.at, v) == {}
    else Untouched(f, slot) && OpenSlot(t, f, slot, v, level, Rest(s.at, v)) && AllAbove(t, s, v, level)
  }

  ghost predicate NobodySent(t: Tree, at: map<nat, Place>, v: nat) {
    forall r :: r in Below(t, v) && r in at ==> at[r] == Unsent
  }

  /** A router the credit has reached keeps the slot it bound in order; below one it has
      not reached nobody has sent. */
  ghost predicate NodeOk(t: Tree, f: Flow, s: State, v: nat, level: nat) {
    && v in s.routers && R.Valid(s.routers[v], f.width)
    && if v in t.slot
       then t.slot[v] < |s.routers[v].slots| && SlotOk(t, f, s.routers[v].slots[t.slot[v]], s, v, level)
       else NobodySent(t, s.at, v)
  }

  ghost predicate PacketsOk(t: Tree, f: Flow, net: map<nat, R.Request>, at: map<nat, Place>) {
    forall id :: id in net ==> PacketOk(t, f, net[id], Carried(at, id))
  }

  ghost predicate PlacesOk(t: Tree, net: map<nat, R.Request>, at: map<nat, Place>) {
    && at.Keys == t.ranks
    && (forall r :: r in at && at[r].Flying? ==> at[r].id in net)
    && (forall r :: r in at && at[r].Resting? ==> exists i: nat :: OnPath(t, r, i, at[r].node))
  }

  ghost predicate NodesOk(t: Tree, f: Flow, s: State) {
    forall r, i: nat, v :: OnPath(t, r, i, v) ==> NodeOk(t, f, s, v, i + 1)
  }

  ghost predicate Inv(t: Tree, f: Flow, s: State) {
    TreeOk(t) && f.words <= f.width && s.misses == 0 && PacketsOk(t, f, s.net, s.at) && PlacesOk(t, s.net, s.at)
        && NodesOk(t, f, s)
  }

  // -------------------------------------------------------------- the layout

  /** Ranks that travel together share the routers still ahead of them. */
  lemma GroupShares(t: Tree, r: nat, s: nat, d: nat)
    requires TreeOk(t) && r in t.ranks && d <= |t.path[r]| && s in Group(t, r, d)
    ensures s in t.ranks && d <= |t.path[s]| && t.path[s][..d] == t.path[r][..d]
  {
    if d < |t.path[r]| {
      var v := t.path[r][d];
      var j :| 0 <= j < |t.path[s]| && t.path[s][j] == v;
      assert OnPath(t, r, d, v) && OnPath(t, s, j, v);
    }
  }

  lemma BelowMember(t: Tree, r: nat, i: nat, v: nat)
    requires OnPath(t, r, i, v)
    ensures r in Below(t, v)
  {
  }

  lemma BelowIsOnPath(t: Tree, r: nat, i: nat, v: nat, s: nat)
    requires TreeOk(t) && OnPath(t, r, i, v) && s in Below(t, v)
    ensures OnPath(t, s, i, v)
  {
    var j :| 0 <= j < |t.path[s]| && t.path[s][j] == v;
    assert OnPath(t, s, j, v);
  }

  /** Every rank of a packet is below the router it reaches next. */
  lemma PacketNode(t: Tree, f: Flow, q: R.Request, ranks: set<nat>, r: nat, v: nat)
    requires TreeOk(t) && PacketOk(t, f, q, ranks) && r in ranks && q.depth > 0 && OnPath(t, r, q.depth - 1, v)
    ensures forall s :: s in ranks ==> OnPath(t, s, q.depth - 1, v)
    ensures v in t.slot && q.locs[q.depth - 1] == t.slot[v] && q.fanins[q.depth - 1] == |Below(t, v)|
    ensures ranks <= Below(t, v)
  {
    forall s | s in ranks ensures OnPath(t, s, q.depth - 1, v) {
      GroupShares(t, r, s, q.depth);
      assert t.path[s][..q.depth][q.depth - 1] == t.path[r][..q.depth][q.depth - 1];
    }
  }

  // ----------------------------------------------- what the next router does

  /** The slot of a packet's next router is open, and has room for all its ranks. */
  lemma SlotIsOpen(t: Tree, f: Flow, s: State, id: nat, r: nat, v: nat)
    requires Inv(t, f, s) && id in s.net && r in Carried(s.at, id) && s.net[id].depth > 0
    requires OnPath(t, r, s.net[id].depth - 1, v)
    ensures NodeOk(t, f, s, v, s.net[id].depth)
    ensures v in s.routers && v in t.slot && t.slot[v] < |s.routers[v].slots|
    ensures var slot := s.routers[v].slots[t.slot[v]];
            Untouched(f, slot) && OpenSlot(t, f, slot, v, s.net[id].depth, Rest(s.at, v))
    ensures AllAbove(t, s, v, s.net[id].depth)
  {
    PacketParts(t, f, s, id);
    PacketNode(t, f, s.net[id], Carried(s.at, id), r, v);
    BelowMember(t, r, s.net[id].depth - 1, v);
    assert NodeOk(t, f, s, v, s.net[id].depth);
    hide PacketsOk, PlacesOk, NodesOk, TreeOk, Below;
    assert Depth(t, s.at, s.net, r) == s.net[id].depth;
  }

  lemma DisjointSizes<T>(a: set<T>, b: set<T>, c: set<T>)
    requires a * b == {} && a <= c && b <= c
    ensures |a + b| == |a| + |b| <= |c|
    ensures |a| + |b| == |c| <==> a + b == c
  {
    SubsetSize(a + b, c);
    if |a| + |b| == |c| { SubsetOfEqualSize(a + b, c); }
  }

  /** SlotAccept takes every packet of the credit: none of its checks can fail. */
  lemma AcceptsAll(t: Tree, f: Flow, slot: R.Slot, v: nat, q: R.Request, ranks: set<nat>, rest: set<nat>)
    requires |Below(t, v)| > 1 && Untouched(f, slot) && OpenSlot(t, f, slot, v, q.depth, rest)
    requires OfFlow(f, q) && R.Contribution(q) == |ranks| && ranks != {} && ranks <= Below(t, v) && ranks * rest == {}
    ensures var verdict := R.SlotAccept(slot, q, |Below(t, v)|);
            && verdict.Accept? && (verdict.complete <==> rest + ranks == Below(t, v))
            && verdict.slot.count == |rest + ranks| && verdict.slot.fanin == |Below(t, v)|
            && verdict.slot.op == f.op && verdict.slot.dtype == f.dtype && verdict.slot.words == f.words
            && !verdict.slot.forwarded && Untouched(f, verdict.slot)
            && verdict.slot.master == if slot.count == 0 then Some(q) else slot.master
  {
    DisjointSizes(rest, ranks, Below(t, v));
  }

  /** A master has its slot's header, one level up, and its count. */
  ghost predicate FromSlot(q: R.Request, slot: R.Slot) {
    && slot.master.Some? && slot.master.value.depth > 0
    && |q.payload| == slot.words && q == slot.master.value.(payload := q.payload, aggregated := true,
                                                            depth := slot.master.value.depth - 1, merged := slot.count)
  }

  /** The router accepted a packet into slot `loc`. */
  ghost predicate Accepted(before: R.RouterState, after: R.RouterState, output: R.Output, q: R.Request, loc: nat,
                           n: nat)
    requires loc < |before.slots| == |after.slots|
  {
    var verdict := R.SlotAccept(before.slots[loc], q, n);
    && verdict.Accept?
    && var merged := R.MergeEcn(verdict.slot, q.ecn);
       if verdict.complete
       then after.slots[loc] == merged.(forwarded := true) && output.Master? && FromSlot(output.request, merged)
       else after.slots[loc] == merged && output == R.Absorbed
  }

  /** What the next router computes for a packet of the credit. */
  ghost predicate Outcome(before: R.RouterState, q: R.Request, loc: nat, n: nat, width: nat) {
    && R.Valid(before, width) && R.WellFormed(q, width) && q.depth > 0 && loc < |before.slots|
    && var (after, output) := R.HandleRequest(before, false, q, width);
       && R.Valid(after, width) && |after.slots| == |before.slots|
       && if n == 1 then after == before && output == R.Forward(q.(depth := q.depth - 1))
          else Accepted(before, after, output, q, loc, n)
  }

  lemma RouterComputes(before: R.RouterState, q: R.Request, loc: nat, n: nat, width: nat)
    requires R.Valid(before, width) && R.WellFormed(q, width) && q.depth > 0 && n > 0
    requires q.locs[q.depth - 1] == loc < |before.slots| && q.fanins[q.depth - 1] == n && R.NormalKind(q)
    requires n > 1 ==> R.SlotAccept(before.slots[loc], q, n).Accept?
    ensures Outcome(before, q, loc, n, width)
  {
  }

  lemma HandlesPacket(t: Tree, f: Flow, s: State, id: nat, r: nat, v: nat)
    requires Inv(t, f, s) && id in s.net && r in Carried(s.at, id) && s.net[id].depth > 0
    requires OnPath(t, r, s.net[id].depth - 1, v)
    ensures v in s.routers && v in t.slot && Outcome(s.routers[v], s.net[id], t.slot[v], |Below(t, v)|, f.width)
    ensures Carried(s.at, id) <= Below(t, v) && |Below(t, v)| > 0
  {
    var q := s.net[id];
    PacketParts(t, f, s, id);
    PacketNode(t, f, q, Carried(s.at, id), r, v);
    assert NodeOk(t, f, s, v, q.depth);
    BelowMember(t, r, q.depth - 1, v);
    SizeIsPositive(Below(t, v), r);
    hide Inv, TreeOk, PacketOk, R.Valid, R.SlotAccept, Outcome, Stacked;
    if |Below(t, v)| > 1 {
      SlotIsOpen(t, f, s, id, r, v);
      assert Carried(s.at, id) * Rest(s.at, v) == {};
      AcceptsAll(t, f, s.routers[v].slots[t.slot[v]], v, q, Carried(s.at, id), Rest(s.at, v));
    }
    RouterComputes(s.routers[v], q, t.slot[v], |Below(t, v)|, f.width);
  }

  lemma SizeIsPositive<T>(a: set<T>, x: T)
    requires x in a
    ensures |a| > 0
  {
  }

  lemma PacketParts(t: Tree, f: Flow, s: State, id: nat)
    requires Inv(t, f, s) && id in s.net
    ensures PacketOk(t, f, s.net[id], Carried(s.at, id)) && TreeOk(t)
    ensures OfFlow(f, s.net[id]) && R.Contribution(s.net[id]) == |Carried(s.at, id)| && Carried(s.at, id) != {}
    ensures R.WellFormed(s.net[id], f.width) && R.NormalKind(s.net[id])
  {
    assert PacketOk(t, f, s.net[id], Carried(s.at, id));
  }

  // ---------------------------------------------------- what a step preserves

  /** Nothing flies under an unused id. */
  lemma NobodyAboard(t: Tree, s: State, id: nat)
    requires PlacesOk(t, s.net, s.at) && id !in s.net
    ensures Carried(s.at, id) == {}
  {
  }

  /** Depths, resting ranks and bound slots did not change. */
  ghost predicate SameTree(t: Tree, f: Flow, s: State, s': State) {
    && s'.at.Keys == s.at.Keys
    && (forall q :: q in s.at && q in t.path ==> Depth(t, s'.at, s'.net, q) == Depth(t, s.at, s.net, q))
    && (forall w :: w in s.routers ==> Rest(s'.at, w) == Rest(s.at, w))
    && (forall w :: w in s.routers && R.Valid(s.routers[w], f.width) ==> SameSlot(t, f, s, s', w))
  }

  ghost predicate SameSlot(t: Tree, f: Flow, s: State, s': State, w: nat) {
    && w in s.routers && w in s'.routers && R.Valid(s'.routers[w], f.width)
    && |s'.routers[w].slots| == |s.routers[w].slots|
    && (w in t.slot && t.slot[w] < |s.routers[w].slots| && !Passed(t, s, w) ==>
          s'.routers[w].slots[t.slot[w]] == s.routers[w].slots[t.slot[w]])
    && (w !in t.slot && NobodySent(t, s.at, w) ==> NobodySent(t, s'.at, w))
  }

  lemma PassedIs(t: Tree, s: State, w: nat, i: nat, x: nat)
    requires TreeOk(t) && OnPath(t, x, i, w)
    ensures Passed(t, s, w) <==> AllPast(t, s, w, i + 1)
  {
    hide Depth;
    forall r | r in Below(t, w) ensures OnPath(t, r, i, w) { BelowIsOnPath(t, x, i, w, r); }
    forall r, j: nat | OnPath(t, r, j, w) ensures r in Below(t, w) && j == i { BelowMember(t, r, j, w); }
  }

  lemma SameTreeKeeps(t: Tree, f: Flow, s: State, s': State)
    requires TreeOk(t) && NodesOk(t, f, s) && SameTree(t, f, s, s')
    ensures NodesOk(t, f, s')
  {
    hide TreeOk, Depth, Rest, OpenSlot, Passed;
    forall q, i: nat, v | OnPath(t, q, i, v) ensures NodeOk(t, f, s', v, i + 1) {
      assert NodeOk(t, f, s, v, i + 1);
      assert SameSlot(t, f, s, s', v);
      PassedIs(t, s, v, i, q);
    }
  }

  // ---- a requester sends

  lemma Boards(at: map<nat, Place>, r: nat, id: nat)
    requires r in at && at[r] == Unsent && Carried(at, id) == {}
    ensures var at' := at[r := Flying(id)];
            Carried(at', id) == {r} && (forall x :: x != id ==> Carried(at', x) == Carried(at, x))
                && forall w :: Rest(at', w) == Rest(at, w)
  {
    var at' := at[r := Flying(id)];
    assert Carried(at', id) == {r};
    forall x | x != id ensures Carried(at', x) == Carried(at, x) {}
    forall w ensures Rest(at', w) == Rest(at, w) {}
  }

  lemma SendKeepsDepths(t: Tree, at: map<nat, Place>, net: map<nat, R.Request>, r: nat, id: nat, q: R.Request)
    requires r in at && r in t.path && at[r] == Unsent && id !in net && q.depth == |t.path[r]|
    requires forall x :: x in at && at[x].Flying? ==> at[x].id in net
    ensures forall x :: x in at && x in t.path ==>
            Depth(t, at[r := Flying(id)], net[id := q], x) == Depth(t, at, net, x)
  {
  }

  lemma SendsKeepsPackets(t: Tree, f: Flow, s: State, ev: Event)
    requires Inv(t, f, s) && ev.Sends? && Enabled(t, f, s, ev)
    ensures var s' := Step(t, f, s, ev); PacketsOk(t, f, s'.net, s'.at) && PlacesOk(t, s'.net, s'.at)
  {
    hide NodesOk, TreeOk, Carried, Rest, Depth;
    NobodyAboard(t, s, ev.id);
    Boards(s.at, ev.rank, ev.id);
    assert |{ev.rank}| == 1;
  }

  lemma SendsKeeps(t: Tree, f: Flow, s: State, ev: Event)
    requires Inv(t, f, s) && ev.Sends? && Enabled(t, f, s, ev)
    ensures Inv(t, f, Step(t, f, s, ev))
  {
    SendsKeepsPackets(t, f, s, ev);
    NobodyAboard(t, s, ev.id);
    Boards(s.at, ev.rank, ev.id);
    SendKeepsDepths(t, s.at, s.net, ev.rank, ev.id, ev.request);
    hide NodesOk, TreeOk, PacketsOk, PlacesOk, R.Valid, Carried, Rest, Depth;
    SameTreeKeeps(t, f, s, Step(t, f, s, ev));
  }

  // ---- other credits change the routers

  lemma OtherTrafficKeeps(t: Tree, f: Flow, s: State, ev: Event)
    requires Inv(t, f, s) && ev.OtherTraffic? && Enabled(t, f, s, ev)
    ensures Inv(t, f, Step(t, f, s, ev))
  {
    hide NodesOk, TreeOk, R.Valid, Carried, Rest, Depth;
    SameTreeKeeps(t, f, s, Step(t, f, s, ev));
  }

  // ---- the credit reaches a router

  ghost function WithSlot(t: Tree, v: nat, loc: nat): Tree {
    t.(slot := t.slot[v := loc])
  }

  lemma SameBelow(t: Tree, v: nat, loc: nat, w: nat)
    ensures Below(WithSlot(t, v, loc), w) == Below(t, w)
  {
  }

  lemma SameDepth(t: Tree, v: nat, loc: nat, at: map<nat, Place>, net: map<nat, R.Request>, r: nat)
    requires TreeOk(t) && r in at && r in t.path
    ensures Depth(WithSlot(t, v, loc), at, net, r) == Depth(t, at, net, r)
  {
    var u := WithSlot(t, v, loc);
    if at[r].Resting? {
      var w := at[r].node;
      assert forall i: nat :: OnPath(u, r, i, w) <==> OnPath(t, r, i, w);
    }
  }

  lemma StillStacked(t: Tree, v: nat, loc: nat, q: R.Request, r: nat)
    requires v !in t.slot && r in t.path && Stacked(t, q, r)
    ensures Stacked(WithSlot(t, v, loc), q, r)
  {
    forall i | 0 <= i < q.depth ensures q.fanins[i] == |Below(WithSlot(t, v, loc), t.path[r][i])| {
      SameBelow(t, v, loc, t.path[r][i]);
    }
  }

  lemma BindKeepsPackets(t: Tree, f: Flow, s: State, v: nat, loc: nat)
    requires v !in t.slot && PacketsOk(t, f, s.net, s.at)
    ensures PacketsOk(WithSlot(t, v, loc), f, s.net, s.at)
  {
    var u := WithSlot(t, v, loc);
    forall id | id in s.net ensures PacketOk(u, f, s.net[id], Carried(s.at, id)) {
      var q, ranks := s.net[id], Carried(s.at, id);
      assert PacketOk(t, f, q, ranks);
      hide Stacked, OfFlow, Carried, Below;
      forall r | r in ranks ensures Stacked(u, q, r) && ranks == Group(u, r, q.depth) {
        StillStacked(t, v, loc, q, r);
        if q.depth < |t.path[r]| { SameBelow(t, v, loc, t.path[r][q.depth]); }
      }
    }
  }

  lemma BindKeepsSlot(t: Tree, f: Flow, slot: R.Slot, s: State, v: nat, loc: nat, w: nat, level: nat)
    requires TreeOk(t) && v !in t.slot && SlotOk(t, f, slot, s, w, level)
    ensures SlotOk(WithSlot(t, v, loc), f, slot, s, w, level)
  {
    var u := WithSlot(t, v, loc);
    SameBelow(t, v, loc, w);
    forall r | r in s.at && r in t.path ensures Depth(u, s.at, s.net, r) == Depth(t, s.at, s.net, r) {
      SameDepth(t, v, loc, s.at, s.net, r);
    }
    hide Depth, Rest, OfFlow, Below, TreeOk, Stacked;
    if slot.master.Some? {
      forall r | r in Below(t, w) && r in t.path && Stacked(t, slot.master.value, r)
        ensures Stacked(u, slot.master.value, r) {
        StillStacked(t, v, loc, slot.master.value, r);
      }
    }
  }

  lemma FreshSlotOk(t: Tree, f: Flow, s: State, v: nat, loc: nat, responder: nat, i: nat, x: nat)
    requires TreeOk(t) && v !in t.slot && OnPath(t, x, i, v) && s.at.Keys == t.ranks && NobodySent(t, s.at, v)
    requires Rest(s.at, v) == {}
    ensures SlotOk(WithSlot(t, v, loc), f, R.BoundSlot(f.port, f.offset, loc, responder), s, v, i + 1)
  {
    var u := WithSlot(t, v, loc);
    SameBelow(t, v, loc, v);
    BelowMember(t, x, i, v);
    forall r | r in Below(t, v) ensures i + 1 <= Depth(u, s.at, s.net, r) { BelowIsOnPath(t, x, i, v, r); }
    SizeIsPositive(Below(t, v), x);
    hide Depth, Below, TreeOk;
  }

  lemma NobodyRests(t: Tree, s: State, v: nat)
    requires PlacesOk(t, s.net, s.at) && NobodySent(t, s.at, v)
    ensures Rest(s.at, v) == {}
  {
    forall r, j: nat | r in s.at && OnPath(t, r, j, v) ensures s.at[r] == Unsent {
      BelowMember(t, r, j, v);
    }
  }

  lemma BindKeepsPlaces(t: Tree, v: nat, loc: nat, net: map<nat, R.Request>, at: map<nat, Place>)
    requires PlacesOk(t, net, at)
    ensures PlacesOk(WithSlot(t, v, loc), net, at)
  {
    var u := WithSlot(t, v, loc);
    forall r | r in at && at[r].Resting? ensures exists i: nat :: OnPath(u, r, i, at[r].node) {
      var i: nat :| OnPath(t, r, i, at[r].node);
      assert OnPath(u, r, i, at[r].node);
    }
  }

  lemma BindKeepsTree(t: Tree, v: nat, loc: nat)
    requires TreeOk(t)
    ensures TreeOk(WithSlot(t, v, loc))
  {
    var u := WithSlot(t, v, loc);
    forall r, s, i: nat, j: nat, w | OnPath(u, r, i, w) && OnPath(u, s, j, w)
      ensures i == j && u.path[r][..i] == u.path[s][..i] {
      assert OnPath(t, r, i, w) && OnPath(t, s, j, w);
    }
  }

  /** A router that binds a fresh slot to the credit joins the routers in order. */
  lemma BindKeeps(t: Tree, f: Flow, s: State, v: nat, router: R.RouterState, loc: nat, responder: nat, i: nat, x: nat)
    requires Inv(t, f, s) && v in s.routers && v !in t.slot && OnPath(t, x, i, v)
    requires R.Valid(router, f.width) && loc < |router.slots|
    requires router.slots[loc] == R.BoundSlot(f.port, f.offset, loc, responder)
    ensures Inv(WithSlot(t, v, loc), f, s.(routers := s.routers[v := router]))
  {
    hide PacketsOk, SlotOk, TreeOk, Rest, Depth, R.Valid, OnPath;
    var u, s' := WithSlot(t, v, loc), s.(routers := s.routers[v := router]);
    BindKeepsTree(t, v, loc);
    BindKeepsPackets(t, f, s, v, loc);
    BindKeepsPlaces(t, v, loc, s.net, s.at);
    assert NodeOk(t, f, s, v, i + 1);
    NobodyRests(t, s, v);
    hide PlacesOk;
    forall y, j: nat, w | OnPath(u, y, j, w) ensures NodeOk(u, f, s', w, j + 1) {
      OnPathKept(t, v, loc, y, j, w);
      assert NodeOk(t, f, s, w, j + 1);
      SameBelow(t, v, loc, w);
      if w == v {
        FreshSlotOk(t, f, s, v, loc, responder, j, y);
        SlotOkAt(u, f, router.slots[loc], s, s', v, j + 1);
      } else if w in t.slot {
        BindKeepsSlot(t, f, s.routers[w].slots[t.slot[w]], s, v, loc, w, j + 1);
        SlotOkAt(u, f, s.routers[w].slots[t.slot[w]], s, s', w, j + 1);
      }
    }
  }

  lemma OnPathKept(t: Tree, v: nat, loc: nat, r: nat, i: nat, w: nat)
    ensures OnPath(WithSlot(t, v, loc), r, i, w) <==> OnPath(t, r, i, w)
  {
  }

  lemma SlotOkAt(t: Tree, f: Flow, slot: R.Slot, s: State, s': State, v: nat, level: nat)
    requires SlotOk(t, f, slot, s, v, level) && s'.at == s.at && s'.net == s.net
    ensures SlotOk(t, f, slot, s', v, level)
  {
  }

  // ---- a packet passes a router with a single rank below

  /** The packet handed to the next router up. */
  lemma PoppedOk(t: Tree, f: Flow, q: R.Request, ranks: set<nat>, r: nat, v: nat)
    requires TreeOk(t) && PacketOk(t, f, q, ranks) && r in ranks && q.depth > 0 && OnPath(t, r, q.depth - 1, v)
    requires ranks == Below(t, v)
    ensures PacketOk(t, f, q.(depth := q.depth - 1), ranks)
  {
    PacketNode(t, f, q, ranks, r, v);
    hide TreeOk, Below;
  }

  lemma WholeBelow(t: Tree, ranks: set<nat>, v: nat)
    requires ranks != {} && ranks <= Below(t, v) && |Below(t, v)| == 1
    ensures ranks == Below(t, v)
  {
    var x :| x in ranks;
    SubsetSize({x}, ranks);
    SubsetSize(ranks, Below(t, v));
    SubsetOfEqualSize(ranks, Below(t, v));
  }

  /** Inputs below `v` climbed from level `d` to the one above; nothing else moved. */
  ghost predicate Climbed(t: Tree, s: State, s': State, v: nat, d: nat) {
    && d > 0 && s'.at.Keys == s.at.Keys == t.ranks
    && forall r :: r in t.ranks && r in t.path ==>
         Depth(t, s'.at, s'.net, r) == Depth(t, s.at, s.net, r)
         || (OnPath(t, r, d - 1, v) && Depth(t, s.at, s.net, r) == d && Depth(t, s'.at, s'.net, r) == d - 1)
  }

  lemma ClimbKeepsDepth(t: Tree, s: State, s': State, v: nat, d: nat, w: nat, i: nat, x: nat, r: nat)
    requires TreeOk(t) && OnPath(t, x, i, w) && (w != v || |Below(t, v)| == 1) && Climbed(t, s, s', v, d)
    requires r in Below(t, w)
    ensures Depth(t, s'.at, s'.net, r) <= Depth(t, s.at, s.net, r)
    ensures |Below(t, w)| > 1 && i + 1 <= Depth(t, s.at, s.net, r) ==> i + 1 <= Depth(t, s'.at, s'.net, r)
  {
    hide TreeOk, Depth, Below;
    BelowIsOnPath(t, x, i, w, r);
  }

  ghost predicate KeepsUnsent(at: map<nat, Place>, at': map<nat, Place>) {
    forall x :: x in at && x in at' && at[x] == Unsent ==> at'[x] == Unsent
  }

  lemma UnsentStays(t: Tree, at: map<nat, Place>, at': map<nat, Place>, w: nat)
    requires KeepsUnsent(at, at') && at'.Keys == at.Keys && NobodySent(t, at, w)
    ensures NobodySent(t, at', w)
  {
  }

  /** An open slot stays open until the inputs below its router have passed it. */
  lemma OpenStays(t: Tree, f: Flow, slot: R.Slot, s: State, s': State, w: nat, level: nat)
    requires s'.at.Keys == s.at.Keys == t.ranks && Rest(s'.at, w) == Rest(s.at, w)
    requires OpenSlot(t, f, slot, w, level, Rest(s.at, w)) && Untouched(f, slot) && AllAbove(t, s, w, level)
    requires forall r :: r in Below(t, w) && |Below(t, w)| > 1 && level <= Depth(t, s.at, s.net, r) ==>
               level <= Depth(t, s'.at, s'.net, r)
    ensures SlotOk(t, f, slot, s', w, level)
  {
    hide Depth, HoldsMaster, Rest;
    if |Below(t, w)| == 1 {
      assert Rest(s.at, w) == {} by { SizeIsZero(Rest(s.at, w)); }
      var x :| x in Below(t, w);
      OnlyOne(Below(t, w), x);
    } else {
      assert Below(t, w) != {};
    }
  }

  lemma SizeIsZero<T>(a: set<T>)
    ensures |a| == 0 ==> a == {}
  {
  }

  lemma OnlyOne<T>(a: set<T>, x: T)
    requires |a| == 1 && x in a
    ensures forall y :: y in a ==> y == x
  {
    assert |a - {x}| == 0;
  }

  /** Inputs below `v` that climb one level leave every other router in order. */
  lemma ClimbKeepsNode(t: Tree, f: Flow, s: State, s': State, v: nat, d: nat, w: nat, i: nat, x: nat)
    requires TreeOk(t) && OnPath(t, x, i, w) && (w != v || |Below(t, v)| == 1) && Climbed(t, s, s', v, d)
    requires NodeOk(t, f, s, w, i + 1) && SameSlot(t, f, s, s', w) && Rest(s'.at, w) == Rest(s.at, w)
    requires KeepsUnsent(s.at, s'.at)
    ensures NodeOk(t, f, s', w, i + 1)
  {
    forall r | r in Below(t, w)
      ensures r in s.at && r in t.path && Depth(t, s'.at, s'.net, r) <= Depth(t, s.at, s.net, r)
      ensures |Below(t, w)| > 1 && i + 1 <= Depth(t, s.at, s.net, r) ==> i + 1 <= Depth(t, s'.at, s'.net, r)
    {
      ClimbKeepsDepth(t, s, s', v, d, w, i, x, r);
    }
    PassedIs(t, s, w, i, x);
    hide Depth, Rest, TreeOk, Climbed, KeepsUnsent, OpenSlot, Below, Passed;
    if w !in t.slot {
      UnsentStays(t, s.at, s'.at, w);
    } else if !AllPast(t, s, w, i + 1) {
      OpenStays(t, f, s.routers[w].slots[t.slot[w]], s, s', w, i + 1);
    }
  }

  lemma PopClimbs(t: Tree, s: State, id: nat, v: nat)
    requires s.at.Keys == t.ranks && id in s.net && s.net[id].depth > 0
    requires forall x :: x in Carried(s.at, id) ==> OnPath(t, x, s.net[id].depth - 1, v)
    ensures Climbed(t, s, s.(net := s.net[id := s.net[id].(depth := s.net[id].depth - 1)]), v, s.net[id].depth)
  {
    var d := s.net[id].depth;
    var s' := s.(net := s.net[id := s.net[id].(depth := d - 1)]);
    forall x | x in t.ranks && x in t.path
      ensures Depth(t, s'.at, s'.net, x) == Depth(t, s.at, s.net, x)
              || (OnPath(t, x, d - 1, v) && Depth(t, s.at, s.net, x) == d && Depth(t, s'.at, s'.net, x) == d - 1)
    {
      if s.at[x] == Flying(id) { assert x in Carried(s.at, id); }
    }
  }

  lemma PopKeepsPackets(t: Tree, f: Flow, s: State, id: nat, r: nat, v: nat)
    requires Inv(t, f, s) && id in s.net && r in Carried(s.at, id) && s.net[id].depth > 0
    requires OnPath(t, r, s.net[id].depth - 1, v) && |Below(t, v)| == 1
    ensures var s' := s.(net := s.net[id := s.net[id].(depth := s.net[id].depth - 1)]);
            PacketsOk(t, f, s'.net, s'.at) && PlacesOk(t, s'.net, s'.at)
  {
    PacketParts(t, f, s, id);
    hide NodesOk, TreeOk, PacketOk, Carried;
    PacketNode(t, f, s.net[id], Carried(s.at, id), r, v);
    WholeBelow(t, Carried(s.at, id), v);
    PoppedOk(t, f, s.net[id], Carried(s.at, id), r, v);
  }

  lemma PopKeeps(t: Tree, f: Flow, s: State, id: nat, r: nat, v: nat)
    requires Inv(t, f, s) && id in s.net && r in Carried(s.at, id) && s.net[id].depth > 0
    requires OnPath(t, r, s.net[id].depth - 1, v) && |Below(t, v)| == 1
    ensures Inv(t, f, s.(net := s.net[id := s.net[id].(depth := s.net[id].depth - 1)]))
  {
    hide PacketsOk, Depth, Rest, TreeOk, Climbed, PacketOk, SlotOk, R.Valid, Stacked;
    var d := s.net[id].depth;
    var s' := s.(net := s.net[id := s.net[id].(depth := d - 1)]);
    PopKeepsPackets(t, f, s, id, r, v);
    PacketParts(t, f, s, id);
    hide Carried;
    PacketNode(t, f, s.net[id], Carried(s.at, id), r, v);
    PopClimbs(t, s, id, v);
    hide OnPath, PlacesOk, Below;
    forall x, i: nat, w | OnPath(t, x, i, w) ensures NodeOk(t, f, s', w, i + 1) {
      assert NodeOk(t, f, s, w, i + 1);
      hide NodeOk;
      ClimbKeepsNode(t, f, s, s', v, d, w, i, x);
    }
  }

  // ---- a packet is counted into a slot

  /** A stack that fits one rank below a router fits all of them, up to that router. */
  lemma StackFitsAll(t: Tree, q: R.Request, r: nat, v: nat)
    requires TreeOk(t) && q.depth > 0 && OnPath(t, r, q.depth - 1, v) && Stacked(t, q, r)
    ensures FitsAll(t, q, v)
  {
    forall x | x in Below(t, v) ensures x in t.path && Stacked(t, q, x) {
      BelowIsOnPath(t, r, q.depth - 1, v, x);
      PrefixShared(t, r, x, q.depth - 1, v);
    }
  }

  lemma PrefixShared(t: Tree, r: nat, x: nat, i: nat, v: nat)
    requires TreeOk(t) && OnPath(t, r, i, v) && OnPath(t, x, i, v)
    ensures forall j :: 0 <= j <= i ==> t.path[x][j] == t.path[r][j]
  {
    forall j | 0 <= j <= i ensures t.path[x][j] == t.path[r][j] {
      if j < i { assert t.path[x][..i][j] == t.path[r][..i][j]; }
    }
  }

  /** The slot after one more contribution. */
  ghost function CountedSlot(t: Tree, slot: R.Slot, v: nat, q: R.Request): R.Slot {
    match R.SlotAccept(slot, q, |Below(t, v)|)
    case Accept(counted, _) => R.MergeEcn(counted, q.ecn)
    case Reject(_) => slot
  }

  /** What it takes for a packet to be counted into a slot. */
  ghost predicate Fits(t: Tree, f: Flow, slot: R.Slot, v: nat, q: R.Request, ranks: set<nat>, rest: set<nat>) {
    && |Below(t, v)| > 1 && Untouched(f, slot) && OpenSlot(t, f, slot, v, q.depth, rest)
    && OfFlow(f, q) && R.Contribution(q) == |ranks| && ranks != {} && ranks <= Below(t, v) && ranks * rest == {}
    && FitsAll(t, q, v)
  }

  lemma CountingKeepsMaster(t: Tree, f: Flow, slot: R.Slot, v: nat, q: R.Request, ranks: set<nat>, rest: set<nat>)
    requires Fits(t, f, slot, v, q, ranks, rest)
    ensures var c := CountedSlot(t, slot, v, q);
            HoldsMaster(t, f, c, v, q.depth) && Untouched(f, c) && !c.forwarded && c.count == |rest + ranks|
  {
    AcceptsAll(t, f, slot, v, q, ranks, rest);
    hide Stacked, Below;
  }

  /** The slot stays open unless every rank below has been counted. */
  lemma StaysOpen(t: Tree, f: Flow, slot: R.Slot, v: nat, q: R.Request, ranks: set<nat>, rest: set<nat>)
    requires Fits(t, f, slot, v, q, ranks, rest) && rest + ranks != Below(t, v)
    ensures Untouched(f, CountedSlot(t, slot, v, q))
            && OpenSlot(t, f, CountedSlot(t, slot, v, q), v, q.depth, rest + ranks)
  {
    CountingKeepsMaster(t, f, slot, v, q, ranks, rest);
    DisjointSizes(rest, ranks, Below(t, v));
    hide HoldsMaster, CountedSlot, Below;
  }

  /** The master that leaves a slot its last contribution completed. */
  lemma MasterIsOk(t: Tree, f: Flow, c: R.Slot, v: nat, d: nat, out: R.Request)
    requires HoldsMaster(t, f, c, v, d) && c.count == |Below(t, v)| > 1 && FromSlot(out, c)
             && R.WellFormed(out, f.width)
    requires d > 0 && forall r :: r in Below(t, v) ==> OnPath(t, r, d - 1, v)
    ensures PacketOk(t, f, out, Below(t, v)) && out.depth == d - 1 && out.aggregated
  {
    assert Below(t, v) <= t.ranks;
    assert OfFlow(f, out) && R.Contribution(out) == |Below(t, v)|;
    forall r | r in Below(t, v) ensures r in t.path && Stacked(t, out, r) && Below(t, v) == Group(t, r, out.depth) {
      assert Stacked(t, c.master.value, r);
      hide Below;
    }
  }

  lemma Lands(at: map<nat, Place>, id: nat, v: nat)
    ensures var at' := Move(at, Carried(at, id), Resting(v));
            && at'.Keys == at.Keys
            && Rest(at', v) == Rest(at, v) + Carried(at, id) && (forall w :: w != v ==> Rest(at', w) == Rest(at, w))
            && (forall x :: x != id ==> Carried(at', x) == Carried(at, x))
  {
    var at' := Move(at, Carried(at, id), Resting(v));
    assert Rest(at', v) == Rest(at, v) + Carried(at, id);
    forall w | w != v ensures Rest(at', w) == Rest(at, w) {}
    forall x | x != id ensures Carried(at', x) == Carried(at, x) {}
  }

  lemma LandKeepsDepths(t: Tree, at: map<nat, Place>, net: map<nat, R.Request>, id: nat, v: nat)
    requires TreeOk(t) && at.Keys == t.ranks && id in net && net[id].depth > 0
    requires forall x :: x in Carried(at, id) ==> OnPath(t, x, net[id].depth - 1, v)
    ensures var at', net' := Move(at, Carried(at, id), Resting(v)), net - {id};
            forall x :: x in at && x in t.path ==> Depth(t, at', net', x) == Depth(t, at, net, x)
  {
    var at', net' := Move(at, Carried(at, id), Resting(v)), net - {id};
    forall x | x in at && x in t.path ensures Depth(t, at', net', x) == Depth(t, at, net, x) {
      if x in Carried(at, id) {
        assert at'[x] == Resting(v) && OnPath(t, x, net[id].depth - 1, v);
        RestingDepth(t, at', net', x, net[id].depth - 1, v);
      } else if at[x].Resting? {
        assert at'[x] == at[x];
      }
    }
  }

  lemma RestingDepth(t: Tree, at: map<nat, Place>, net: map<nat, R.Request>, r: nat, i: nat, v: nat)
    requires TreeOk(t) && r in at && at[r] == Resting(v) && OnPath(t, r, i, v)
    ensures Depth(t, at, net, r) == i + 1
  {
  }

  /** A delivery at a router with several ranks below it. */
  ghost predicate Delivery(t: Tree, f: Flow, s: State, id: nat, v: nat) {
    && id in s.net && s.net[id].depth > 0
    && v in s.routers && v in t.slot && t.slot[v] < |s.routers[v].slots|
    && Fits(t, f, s.routers[v].slots[t.slot[v]], v, s.net[id], Carried(s.at, id), Rest(s.at, v))
    && (forall r :: r in Below(t, v) ==> OnPath(t, r, s.net[id].depth - 1, v))
    && Outcome(s.routers[v], s.net[id], t.slot[v], |Below(t, v)|, f.width)
  }

  lemma DeliveryFits(t: Tree, f: Flow, s: State, id: nat, r: nat, v: nat)
    requires Inv(t, f, s) && id in s.net && r in Carried(s.at, id) && s.net[id].depth > 0
    requires OnPath(t, r, s.net[id].depth - 1, v) && |Below(t, v)| > 1 && Carried(s.at, id) <= Below(t, v)
    ensures v in s.routers && v in t.slot && t.slot[v] < |s.routers[v].slots|
    ensures Fits(t, f, s.routers[v].slots[t.slot[v]], v, s.net[id], Carried(s.at, id), Rest(s.at, v))
  {
    hide PacketsOk, PlacesOk, NodesOk, NodeOk, TreeOk, OpenSlot, Stacked, Below, Carried, Rest, Depth, FitsAll,
         AllAbove;
    SlotIsOpen(t, f, s, id, r, v);
    PacketParts(t, f, s, id);
    FlyingNotResting(s.at, id, v);
    StackFitsAll(t, s.net[id], r, v);
  }

  lemma FlyingNotResting(at: map<nat, Place>, id: nat, v: nat)
    ensures Carried(at, id) * Rest(at, v) == {}
  {
  }

  lemma DeliveryParts(t: Tree, f: Flow, s: State, id: nat, r: nat, v: nat)
    requires Inv(t, f, s) && id in s.net && r in Carried(s.at, id) && s.net[id].depth > 0
    requires OnPath(t, r, s.net[id].depth - 1, v) && |Below(t, v)| > 1
    ensures Delivery(t, f, s, id, v)
  {
    hide PacketsOk, PlacesOk, NodesOk, TreeOk, Outcome, Fits, Carried, Rest, Depth, OnPath;
    HandlesPacket(t, f, s, id, r, v);
    DeliveryFits(t, f, s, id, r, v);
    forall x | x in Below(t, v) ensures OnPath(t, x, s.net[id].depth - 1, v) {
      BelowIsOnPath(t, r, s.net[id].depth - 1, v, x);
    }
  }

  /** What the router's slot becomes, and what leaves the router. */
  lemma DeliveredSlot(t: Tree, f: Flow, s: State, id: nat, v: nat)
    requires Delivery(t, f, s, id, v)
    ensures var (after, output) := R.HandleRequest(s.routers[v], false, s.net[id], f.width);
            var c := CountedSlot(t, s.routers[v].slots[t.slot[v]], v, s.net[id]);
            && R.Valid(after, f.width) && |after.slots| == |s.routers[v].slots|
            && if Rest(s.at, v) + Carried(s.at, id) == Below(t, v)
               then after.slots[t.slot[v]] == c.(forwarded := true) && output.Master?
                    && FromSlot(output.request, c) && R.WellFormed(output.request, f.width)
               else after.slots[t.slot[v]] == c && output.Absorbed?
  {
    var slot, q := s.routers[v].slots[t.slot[v]], s.net[id];
    hide Stacked, Below, Carried, Rest, Depth, OfFlow, R.HandleRequest, R.SlotAccept, R.MergeEcn, R.Valid, HoldsMaster,
         FitsAll, OnPath, FromSlot;
    AcceptsAll(t, f, slot, v, q, Carried(s.at, id), Rest(s.at, v));
  }

  ghost predicate SameDepths(t: Tree, s: State, s': State) {
    s'.at.Keys == s.at.Keys && forall x :: x in s.at && x in t.path ==>
        Depth(t, s'.at, s'.net, x) == Depth(t, s.at, s.net, x)
  }

  lemma SameDepthsKeepSlot(t: Tree, f: Flow, slot: R.Slot, s: State, s': State, v: nat, level: nat)
    requires SlotOk(t, f, slot, s, v, level) && SameDepths(t, s, s') && Rest(s'.at, v) == Rest(s.at, v)
    ensures SlotOk(t, f, slot, s', v, level)
  {
    hide OpenSlot, Depth, Rest;
  }

  /** Counting a packet keeps its router's slot in order. */
  lemma AbsorbKeepsSlot(t: Tree, f: Flow, s: State, s': State, id: nat, v: nat)
    requires Delivery(t, f, s, id, v) && NodeOk(t, f, s, v, s.net[id].depth)
    requires Rest(s.at, v) + Carried(s.at, id) != Below(t, v)
    requires Rest(s'.at, v) == Rest(s.at, v) + Carried(s.at, id) && SameDepths(t, s, s')
    ensures SlotOk(t, f, CountedSlot(t, s.routers[v].slots[t.slot[v]], v, s.net[id]), s', v, s.net[id].depth)
  {
    var slot, q := s.routers[v].slots[t.slot[v]], s.net[id];
    hide Stacked, Below, Carried, Rest, Depth, OfFlow, R.HandleRequest, R.Valid, HoldsMaster, FitsAll, Outcome;
    StaysOpen(t, f, slot, v, q, Carried(s.at, id), Rest(s.at, v));
  }

  lemma AbsorbKeepsOthers(t: Tree, f: Flow, s: State, s': State, v: nat, d: nat)
    requires NodesOk(t, f, s) && SameDepths(t, s, s') && NodeOk(t, f, s', v, d)
    requires forall r :: r in Below(t, v) ==> d > 0 && OnPath(t, r, d - 1, v)
    requires TreeOk(t) && KeepsUnsent(s.at, s'.at)
    requires forall w :: w != v ==> Rest(s'.at, w) == Rest(s.at, w)
    requires forall w :: w in s.routers && w != v ==> w in s'.routers && s'.routers[w] == s.routers[w]
    ensures NodesOk(t, f, s')
  {
    hide TreeOk, SameDepths, SlotOk, Rest, R.Valid, KeepsUnsent, NobodySent;
    forall x, i: nat, w | OnPath(t, x, i, w) ensures NodeOk(t, f, s', w, i + 1) {
      assert NodeOk(t, f, s, w, i + 1);
      if w == v {
        LevelIs(t, x, i, w, d);
      } else if w !in t.slot {
        assert s'.at.Keys == s.at.Keys by { SameKeys(t, s, s'); }
        UnsentStays(t, s.at, s'.at, w);
      } else {
        SameDepthsKeepSlot(t, f, s.routers[w].slots[t.slot[w]], s, s', w, i + 1);
      }
    }
  }

  lemma SameKeys(t: Tree, s: State, s': State)
    requires SameDepths(t, s, s')
    ensures s'.at.Keys == s.at.Keys
  {
  }

  lemma LevelIs(t: Tree, x: nat, i: nat, v: nat, d: nat)
    requires TreeOk(t) && OnPath(t, x, i, v) && forall r :: r in Below(t, v) ==> d > 0 && OnPath(t, r, d - 1, v)
    ensures d == i + 1
  {
    BelowMember(t, x, i, v);
    assert OnPath(t, x, d - 1, v);
  }

  lemma AbsorbKeepsPlaces(t: Tree, f: Flow, s: State, id: nat, v: nat)
    requires Inv(t, f, s) && id in s.net && s.net[id].depth > 0
    requires forall x :: x in Carried(s.at, id) ==> OnPath(t, x, s.net[id].depth - 1, v)
    ensures var s' := s.(net := s.net - {id}, at := Move(s.at, Carried(s.at, id), Resting(v)));
            PacketsOk(t, f, s'.net, s'.at) && PlacesOk(t, s'.net, s'.at)
  {
    Lands(s.at, id, v);
    hide TreeOk, NodesOk, PacketOk, Rest;
    var s' := s.(net := s.net - {id}, at := Move(s.at, Carried(s.at, id), Resting(v)));
    forall r | r in s'.at && s'.at[r].Resting? ensures exists i: nat :: OnPath(t, r, i, s'.at[r].node) {
      if r in Carried(s.at, id) { assert OnPath(t, r, s.net[id].depth - 1, v); }
    }
  }

  lemma DeliveryAllBelow(t: Tree, f: Flow, s: State, id: nat, v: nat)
    requires Delivery(t, f, s, id, v)
    ensures forall r :: r in Below(t, v) ==> s.net[id].depth > 0 && OnPath(t, r, s.net[id].depth - 1, v)
    ensures forall x :: x in Carried(s.at, id) ==> x in Below(t, v) && OnPath(t, x, s.net[id].depth - 1, v)
    ensures |Below(t, v)| > 1
  {
  }

  lemma RanksHavePlaces(t: Tree, s: State)
    requires PlacesOk(t, s.net, s.at)
    ensures s.at.Keys == t.ranks
  {
  }

  ghost function AbsorbStep(f: Flow, s: State, id: nat, v: nat): State
    requires id in s.net && v in s.routers && R.Valid(s.routers[v], f.width) && R.WellFormed(s.net[id], f.width)
  {
    s.(routers := s.routers[v := R.HandleRequest(s.routers[v], false, s.net[id], f.width).0],
       net := s.net - {id}, at := Move(s.at, Carried(s.at, id), Resting(v)))
  }

  lemma AbsorbMoves(t: Tree, f: Flow, s: State, id: nat, v: nat)
    requires Inv(t, f, s) && Delivery(t, f, s, id, v)
    ensures v in s.routers && R.Valid(s.routers[v], f.width) && R.WellFormed(s.net[id], f.width)
    ensures var s' := AbsorbStep(f, s, id, v);
            && SameDepths(t, s, s') && PacketsOk(t, f, s'.net, s'.at) && PlacesOk(t, s'.net, s'.at)
            && Rest(s'.at, v) == Rest(s.at, v) + Carried(s.at, id) && forall w :: w != v ==>
               Rest(s'.at, w) == Rest(s.at, w)
  {
    hide TreeOk, PacketsOk, PlacesOk, NodesOk, Carried, Rest, Depth, Fits, R.HandleRequest, R.Valid, OnPath, Below,
         Move;
    RanksHavePlaces(t, s);
    DeliveryAllBelow(t, f, s, id, v);
    AbsorbKeepsPlaces(t, f, s, id, v);
    Lands(s.at, id, v);
    LandKeepsDepths(t, s.at, s.net, id, v);
  }

  lemma AbsorbKeeps(t: Tree, f: Flow, s: State, id: nat, v: nat)
    requires Inv(t, f, s) && Delivery(t, f, s, id, v) && NodeOk(t, f, s, v, s.net[id].depth)
    requires Rest(s.at, v) + Carried(s.at, id) != Below(t, v) && R.WellFormed(s.net[id], f.width)
    ensures Inv(t, f, AbsorbStep(f, s, id, v))
  {
    hide TreeOk, PacketsOk, PlacesOk, NodesOk, SlotOk, Carried, Rest, SameDepths, Fits, CountedSlot, R.HandleRequest,
         R.Valid, OnPath, Below, Move;
    var s' := AbsorbStep(f, s, id, v);
    AbsorbMoves(t, f, s, id, v);
    MoveKeepsUnsent(s.at, id, v, Resting(v));
    DeliveredSlot(t, f, s, id, v);
    AbsorbKeepsSlot(t, f, s, s', id, v);
    DeliveryAllBelow(t, f, s, id, v);
    AbsorbKeepsOthers(t, f, s, s', v, s.net[id].depth);
  }

  // ---- a slot completes

  lemma Departs(at: map<nat, Place>, id: nat, v: nat, out: nat)
    requires Carried(at, out) == {} && out != id
    ensures var at' := Move(at, Carried(at, id) + Rest(at, v), Flying(out));
            && at'.Keys == at.Keys && Carried(at', out) == Carried(at, id) + Rest(at, v) && Rest(at', v) == {}
            && (forall w :: w != v ==> Rest(at', w) == Rest(at, w))
            && (forall x :: x != id && x != out ==> Carried(at', x) == Carried(at, x))
  {
    var at' := Move(at, Carried(at, id) + Rest(at, v), Flying(out));
    assert forall r :: r in Carried(at, out) <==> r in at && at[r] == Flying(out);
    assert Carried(at', out) == Carried(at, id) + Rest(at, v);
    assert Rest(at', v) == {};
    forall w | w != v ensures Rest(at', w) == Rest(at, w) {}
    forall x | x != id && x != out ensures Carried(at', x) == Carried(at, x) {}
  }

  ghost function MasterStep(f: Flow, s: State, id: nat, v: nat, out: nat, q: R.Request): State
    requires id in s.net && v in s.routers && R.Valid(s.routers[v], f.width) && R.WellFormed(s.net[id], f.width)
  {
    s.(routers := s.routers[v := R.HandleRequest(s.routers[v], false, s.net[id], f.width).0],
       net := (s.net - {id})[out := q], at := Move(s.at, Carried(s.at, id) + Rest(s.at, v), Flying(out)))
  }

  lemma DepartClimbs(t: Tree, at: map<nat, Place>, net: map<nat, R.Request>, id: nat, v: nat, out: nat, q: R.Request,
                     x: nat)
    requires TreeOk(t) && PlacesOk(t, net, at) && id in net && out !in net && net[id].depth > 0
             && q.depth == net[id].depth - 1
    requires x in t.ranks && x in t.path && (x in Carried(at, id) + Rest(at, v) ==> OnPath(t, x, net[id].depth - 1, v))
    ensures var d, at', net' := net[id].depth, Move(at, Carried(at, id) + Rest(at, v), Flying(out)),
            (net - {id})[out := q];
            Depth(t, at', net', x) == Depth(t, at, net, x)
            || (OnPath(t, x, d - 1, v) && Depth(t, at, net, x) == d && Depth(t, at', net', x) == d - 1)
  {
    var at', net' := Move(at, Carried(at, id) + Rest(at, v), Flying(out)), (net - {id})[out := q];
    if x in Carried(at, id) + Rest(at, v) {
      if at[x] == Resting(v) { RestingDepth(t, at, net, x, net[id].depth - 1, v); }
      assert at'[x] == Flying(out);
    } else {
      hide TreeOk;
      assert at'[x] == at[x];
    }
  }

  lemma MasterKeepsPlaces(t: Tree, f: Flow, s: State, id: nat, v: nat, out: nat, q: R.Request)
    requires PacketsOk(t, f, s.net, s.at) && PlacesOk(t, s.net, s.at) && id in s.net && out !in s.net
    requires PacketOk(t, f, q, Carried(s.at, id) + Rest(s.at, v))
    ensures var at', net' := Move(s.at, Carried(s.at, id) + Rest(s.at, v), Flying(out)), (s.net - {id})[out := q];
            PacketsOk(t, f, net', at') && PlacesOk(t, net', at')
  {
    hide PacketOk, Rest;
    NobodyAboard(t, s, out);
    Departs(s.at, id, v, out);
  }

  lemma MasterMoves(t: Tree, f: Flow, s: State, id: nat, v: nat, out: nat, q: R.Request)
    requires Inv(t, f, s) && Delivery(t, f, s, id, v) && out !in s.net && q.depth == s.net[id].depth - 1
    requires Rest(s.at, v) + Carried(s.at, id) == Below(t, v) && PacketOk(t, f, q, Below(t, v))
    ensures v in s.routers && R.Valid(s.routers[v], f.width) && R.WellFormed(s.net[id], f.width)
    ensures var s' := MasterStep(f, s, id, v, out, q);
            && Climbed(t, s, s', v, s.net[id].depth) && PacketsOk(t, f, s'.net, s'.at) && PlacesOk(t, s'.net, s'.at)
            && Rest(s'.at, v) == {} && (forall w :: w != v ==> Rest(s'.at, w) == Rest(s.at, w))
  {
    hide TreeOk, PacketsOk, PlacesOk, NodesOk, Carried, Rest, Depth, Fits, R.HandleRequest, R.Valid, OnPath, Below,
         Move, PacketOk;
    RanksHavePlaces(t, s);
    NobodyAboard(t, s, out);
    DeliveryAllBelow(t, f, s, id, v);
    assert Carried(s.at, id) + Rest(s.at, v) == Below(t, v);
    MasterKeepsPlaces(t, f, s, id, v, out, q);
    Departs(s.at, id, v, out);
    var d, s' := s.net[id].depth, MasterStep(f, s, id, v, out, q);
    forall x | x in t.ranks && x in t.path
      ensures Depth(t, s'.at, s'.net, x) == Depth(t, s.at, s.net, x)
              || (OnPath(t, x, d - 1, v) && Depth(t, s.at, s.net, x) == d && Depth(t, s'.at, s'.net, x) == d - 1)
    {
      DepartClimbs(t, s.at, s.net, id, v, out, q, x);
    }
  }

  /** Everything below a completed slot is past it. */
  lemma PastMaster(t: Tree, s: State, s': State, v: nat, d: nat, out: nat)
    requires PlacesOk(t, s'.net, s'.at) && Carried(s'.at, out) == Below(t, v) && out in s'.net && s'.net[out].depth < d
    ensures AllPast(t, s', v, d)
  {
    hide OnPath;
    forall r | r in Below(t, v) && r in s'.at && r in t.path ensures Depth(t, s'.at, s'.net, r) < d {
      assert r in Carried(s'.at, out);
    }
  }

  lemma ClimbUnsent(t: Tree, s: State, s': State, v: nat, d: nat, w: nat)
    requires Climbed(t, s, s', v, d) && KeepsUnsent(s.at, s'.at) && NobodySent(t, s.at, w)
    ensures NobodySent(t, s'.at, w)
  {
    hide Depth;
  }

  /** Inputs that fly or rest have been sent, so moving them unsends nobody else. */
  lemma MoveKeepsUnsent(at: map<nat, Place>, id: nat, v: nat, place: Place)
    ensures KeepsUnsent(at, Move(at, Carried(at, id), place))
    ensures KeepsUnsent(at, Move(at, Carried(at, id) + Rest(at, v), place))
  {
  }

  lemma MasterKeepsOthers(t: Tree, f: Flow, s: State, s': State, v: nat, d: nat)
    requires TreeOk(t) && NodesOk(t, f, s) && Climbed(t, s, s', v, d) && NodeOk(t, f, s', v, d)
    requires KeepsUnsent(s.at, s'.at)
    requires forall r :: r in Below(t, v) ==> d > 0 && OnPath(t, r, d - 1, v)
    requires forall w :: w != v ==> Rest(s'.at, w) == Rest(s.at, w)
    requires forall w :: w in s.routers && w != v ==> w in s'.routers && s'.routers[w] == s.routers[w]
    ensures NodesOk(t, f, s')
  {
    hide TreeOk, Climbed, SlotOk, Rest, R.Valid, KeepsUnsent, Passed;
    forall x, i: nat, w | OnPath(t, x, i, w) ensures NodeOk(t, f, s', w, i + 1) {
      assert NodeOk(t, f, s, w, i + 1);
      if w == v {
        LevelIs(t, x, i, w, d);
      } else {
        if w !in t.slot { assert NobodySent(t, s'.at, w) by { ClimbUnsent(t, s, s', v, d, w); } }
        assert SameSlot(t, f, s, s', w);
        ClimbKeepsNode(t, f, s, s', v, d, w, i, x);
      }
    }
  }

  lemma MasterKeeps(t: Tree, f: Flow, s: State, id: nat, v: nat, out: nat, q: R.Request)
    requires Inv(t, f, s) && Delivery(t, f, s, id, v) && out !in s.net && R.WellFormed(s.net[id], f.width)
    requires Rest(s.at, v) + Carried(s.at, id) == Below(t, v)
    requires R.HandleRequest(s.routers[v], false, s.net[id], f.width).1 == R.Master(q)
    ensures Inv(t, f, MasterStep(f, s, id, v, out, q))
  {
    hide TreeOk, PacketsOk, PlacesOk, NodesOk, OpenSlot, Carried, Rest, Depth, Fits, CountedSlot, Climbed,
         R.HandleRequest, R.Valid, OnPath, Below, Move, PacketOk, HoldsMaster, AllPast, FromSlot;
    var s', d := MasterStep(f, s, id, v, out, q), s.net[id].depth;
    DeliveredSlot(t, f, s, id, v);
    CountedIs(t, f, s, id, v);
    DeliveryAllBelow(t, f, s, id, v);
    MasterIsOk(t, f, CountedSlot(t, s.routers[v].slots[t.slot[v]], v, s.net[id]), v, d, q);
    MasterMoves(t, f, s, id, v, out, q);
    NobodyAboard(t, s, out);
    Departs(s.at, id, v, out);
    assert Carried(s'.at, out) == Below(t, v);
    PastMaster(t, s, s', v, d, out);
    MoveKeepsUnsent(s.at, id, v, Flying(out));
    assert NodeOk(t, f, s', v, d);
    hide NodeOk;
    MasterKeepsOthers(t, f, s, s', v, d);
  }

  lemma CountedIs(t: Tree, f: Flow, s: State, id: nat, v: nat)
    requires Delivery(t, f, s, id, v)
    ensures var c := CountedSlot(t, s.routers[v].slots[t.slot[v]], v, s.net[id]);
            HoldsMaster(t, f, c, v, s.net[id].depth) && Untouched(f, c)
                && c.count == |Rest(s.at, v) + Carried(s.at, id)|
  {
    hide Fits, CountedSlot, Outcome, HoldsMaster;
    CountingKeepsMaster(t, f, s.routers[v].slots[t.slot[v]], v, s.net[id], Carried(s.at, id), Rest(s.at, v));
  }

  // ------------------------------------------------------------------- runs

  lemma DeliveredKeeps(t: Tree, f: Flow, s: State, ev: Event)
    requires Inv(t, f, s) && ev.Delivered? && Enabled(t, f, s, ev)
    ensures Inv(t, f, Step(t, f, s, ev))
  {
    hide TreeOk, PacketsOk, PlacesOk, NodesOk, NodeOk, Carried, Rest, Fits, Outcome, R.Valid, Below, Move, Accepted,
         R.HandleRequest;
    var id, v := ev.id, ev.node;
    var r :| r in Carried(s.at, id) && OnPath(t, r, s.net[id].depth - 1, v);
    NodeThere(t, f, s, r, s.net[id].depth - 1, v);
    if |Below(t, v)| > 1 {
      DeliveryParts(t, f, s, id, r, v);
      DeliveredSlot(t, f, s, id, v);
      if Rest(s.at, v) + Carried(s.at, id) == Below(t, v) {
        MasterKeeps(t, f, s, id, v, ev.out, R.HandleRequest(s.routers[v], false, s.net[id], f.width).1.request);
      } else {
        AbsorbKeeps(t, f, s, id, v);
      }
    } else {
      PassesOn(t, f, s, id, r, v);
      assert s.routers[v := s.routers[v]] == s.routers;
      PopKeeps(t, f, s, id, r, v);
    }
  }

  lemma NodeThere(t: Tree, f: Flow, s: State, r: nat, i: nat, v: nat)
    requires NodesOk(t, f, s) && OnPath(t, r, i, v)
    ensures NodeOk(t, f, s, v, i + 1)
  {
  }

  /** A router with one rank below it hands the packet on. */
  lemma PassesOn(t: Tree, f: Flow, s: State, id: nat, r: nat, v: nat)
    requires Inv(t, f, s) && id in s.net && r in Carried(s.at, id) && s.net[id].depth > 0
    requires OnPath(t, r, s.net[id].depth - 1, v) && |Below(t, v)| <= 1
    ensures v in s.routers && R.Valid(s.routers[v], f.width) && R.WellFormed(s.net[id], f.width) && |Below(t, v)| == 1
    ensures R.HandleRequest(s.routers[v], false, s.net[id], f.width)
            == (s.routers[v], R.Forward(s.net[id].(depth := s.net[id].depth - 1)))
  {
    hide TreeOk, PacketsOk, PlacesOk, NodesOk, Carried, Rest, R.Valid, Below, Accepted, R.HandleRequest;
    HandlesPacket(t, f, s, id, r, v);
  }

  lemma StepKeeps(t: Tree, f: Flow, s: State, ev: Event)
    requires Inv(t, f, s) && Enabled(t, f, s, ev)
    ensures Inv(t, f, Step(t, f, s, ev))
  {
    hide Inv, Enabled, Step;
    match ev {
      case Sends(_, _, _) => SendsKeeps(t, f, s, ev);
      case Delivered(_, _, _) => DeliveredKeeps(t, f, s, ev);
      case OtherTraffic(_, _) => OtherTrafficKeeps(t, f, s, ev);
    }
  }

  /** No step sends an input back down. */
  lemma DepthsFall(t: Tree, f: Flow, s: State, ev: Event)
    requires Inv(t, f, s) && Enabled(t, f, s, ev)
    ensures var s' := Step(t, f, s, ev);
            s'.at.Keys == s.at.Keys
            && forall x :: x in s.at && x in t.path ==> Depth(t, s'.at, s'.net, x) <= Depth(t, s.at, s.net, x)
  {
    hide TreeOk, PacketsOk, PlacesOk, NodesOk, Depth, Carried, OnPath, R.Valid, R.HandleRequest, Passed, Move;
    RanksHavePlaces(t, s);
    match ev {
      case Sends(r, id, q) => assert PlacesOk(t, s.net, s.at); SendDepths(t, s, r, id, q);
      case Delivered(id, v, out) => DeliveredDepths(t, f, s, ev);
      case OtherTraffic(_, _) =>
    }
  }

  lemma SendDepths(t: Tree, s: State, r: nat, id: nat, q: R.Request)
    requires PlacesOk(t, s.net, s.at) && r in s.at && r in t.path && s.at[r] == Unsent && id !in s.net
             && q.depth == |t.path[r]|
    ensures forall x :: x in s.at && x in t.path ==>
              Depth(t, s.at[r := Flying(id)], s.net[id := q], x) == Depth(t, s.at, s.net, x)
  {
    SendKeepsDepths(t, s.at, s.net, r, id, q);
  }

  lemma DeliveredDepths(t: Tree, f: Flow, s: State, ev: Event)
    requires Inv(t, f, s) && ev.Delivered? && Enabled(t, f, s, ev)
    ensures var s' := Step(t, f, s, ev);
            s'.at.Keys == s.at.Keys
            && forall x :: x in s.at && x in t.path ==> Depth(t, s'.at, s'.net, x) <= Depth(t, s.at, s.net, x)
  {
    hide TreeOk, PacketsOk, PlacesOk, NodesOk, NodeOk, Carried, Rest, Fits, Outcome, R.Valid, Below, Move, Accepted,
         R.HandleRequest, PacketOk, CountedSlot, Depth, HoldsMaster, FromSlot;
    RanksHavePlaces(t, s);
    var id, v := ev.id, ev.node;
    var r :| r in Carried(s.at, id) && OnPath(t, r, s.net[id].depth - 1, v);
    NodeThere(t, f, s, r, s.net[id].depth - 1, v);
    if |Below(t, v)| > 1 {
      DeliveryParts(t, f, s, id, r, v);
      DeliveredSlot(t, f, s, id, v);
      if Rest(s.at, v) + Carried(s.at, id) == Below(t, v) {
        var q := R.HandleRequest(s.routers[v], false, s.net[id], f.width).1.request;
        CountedIs(t, f, s, id, v);
        DeliveryAllBelow(t, f, s, id, v);
        MasterIsOk(t, f, CountedSlot(t, s.routers[v].slots[t.slot[v]], v, s.net[id]), v, s.net[id].depth, q);
        MasterMoves(t, f, s, id, v, ev.out, q);
      } else {
        AbsorbMoves(t, f, s, id, v);
      }
    } else {
      PassesOn(t, f, s, id, r, v);
      assert s.routers[v := s.routers[v]] == s.routers;
      CarriedBelow(t, f, s, id, r, v);
      PopClimbs(t, s, id, v);
    }
  }

  lemma CarriedBelow(t: Tree, f: Flow, s: State, id: nat, r: nat, v: nat)
    requires Inv(t, f, s) && id in s.net && r in Carried(s.at, id) && s.net[id].depth > 0
             && OnPath(t, r, s.net[id].depth - 1, v)
    ensures forall x :: x in Carried(s.at, id) ==> OnPath(t, x, s.net[id].depth - 1, v)
  {
    hide TreeOk, PacketsOk, PlacesOk, NodesOk, Carried, OnPath, PacketOk;
    PacketParts(t, f, s, id);
    PacketNode(t, f, s.net[id], Carried(s.at, id), r, v);
  }

  // ----------------------------------------------------------- completeness

  /** Every requester has answered and no packet has a level left to climb. */
  ghost predicate Quiet(s: State) {
    && (forall r :: r in s.at ==> s.at[r] != Unsent)
    && forall id :: id in s.net ==> s.net[id].depth == 0
  }

  /** An open slot that holds something waits for one of the ranks below it. */
  lemma WaitsForSomeone(t: Tree, f: Flow, s: State, v: nat, level: nat) returns (x: nat)
    requires NodeOk(t, f, s, v, level) && v in t.slot && Rest(s.at, v) != {} && s.at.Keys == t.ranks
    ensures x in Below(t, v) && x !in Rest(s.at, v) && x in s.at && x in t.path && level <= Depth(t, s.at, s.net, x)
  {
    hide R.Valid, HoldsMaster, Depth, Rest;
    StrictSubset(Rest(s.at, v), Below(t, v));
    x :| x in Below(t, v) && x !in Rest(s.at, v);
  }

  /** In a quiet state a rank that still has levels to climb rests in a slot. */
  lemma StillResting(t: Tree, s: State, x: nat)
    requires PlacesOk(t, s.net, s.at) && Quiet(s) && x in s.at && x in t.path && Depth(t, s.at, s.net, x) > 0
    ensures s.at[x].Resting? && x in Rest(s.at, s.at[x].node) && exists j: nat :: OnPath(t, x, j, s.at[x].node)
  {
  }

  /** Where everyone has answered, the credit has reached every router. */
  lemma QuietIsBound(t: Tree, f: Flow, s: State, r: nat, i: nat, v: nat)
    requires NodeOk(t, f, s, v, i + 1) && Quiet(s) && OnPath(t, r, i, v) && s.at.Keys == t.ranks
    ensures v in t.slot
  {
    BelowMember(t, r, i, v);
  }

  /** ... and that rank rests further down. */
  lemma WaitsForDeeper(t: Tree, f: Flow, s: State, r: nat, i: nat, v: nat)
    requires Inv(t, f, s) && Quiet(s) && OnPath(t, r, i, v) && Rest(s.at, v) != {}
    ensures exists x: nat, j: nat, w: nat :: OnPath(t, x, j, w) && j > i && Rest(s.at, w) != {}
  {
    hide PacketsOk, PlacesOk, NodesOk, NodeOk, TreeOk, Quiet, Depth, Rest;
    NodeThere(t, f, s, r, i, v);
    RanksHavePlaces(t, s);
    QuietIsBound(t, f, s, r, i, v);
    var x := WaitsForSomeone(t, f, s, v, i + 1);
    BelowIsOnPath(t, r, i, v, x);
    StillResting(t, s, x);
    var w := s.at[x].node;
    var j: nat :| OnPath(t, x, j, w);
    RestingDepth(t, s.at, s.net, x, j, w);
    assert OnPath(t, x, j, w) && j > i && Rest(s.at, w) != {};
  }

  lemma StrictSubset<T>(a: set<T>, b: set<T>)
    requires a <= b
    ensures |a| < |b| ==> exists x :: x in b && x !in a
  {
    if forall x :: x in b ==> x in a { assert a == b; }
  }

  /** In a quiet state nothing rests: the deepest slot would have nothing to wait for. */
  lemma {:induction false} NothingRests(t: Tree, f: Flow, s: State, i: nat)
    requires Inv(t, f, s) && Quiet(s) && i <= R.MAX_STACK_DEPTH
    ensures forall r, j: nat, v :: OnPath(t, r, j, v) && j >= i ==> Rest(s.at, v) == {}
    decreases R.MAX_STACK_DEPTH - i
  {
    hide PacketsOk, PlacesOk, NodesOk, Rest;
    if i < R.MAX_STACK_DEPTH {
      NothingRests(t, f, s, i + 1);
      forall r, j: nat, v | OnPath(t, r, j, v) && j >= i ensures Rest(s.at, v) == {} {
        if Rest(s.at, v) != {} {
          hide TreeOk;
          WaitsForDeeper(t, f, s, r, j, v);
        }
      }
    }
  }

  lemma RootIsAboveAll(t: Tree, r: nat)
    requires TreeOk(t) && r in t.ranks
    ensures Below(t, t.path[r][0]) == t.ranks
  {
    var v := t.path[r][0];
    forall x | x in t.ranks ensures v in t.path[x] {
      assert t.path[x][0] == v;
    }
  }

  /** In a quiet state each packet left carries every rank. */
  lemma ArrivedCarriesAll(t: Tree, f: Flow, s: State, id: nat)
    requires Inv(t, f, s) && Quiet(s) && id in s.net
    ensures Carried(s.at, id) == t.ranks && R.Contribution(s.net[id]) == |t.ranks|
  {
    hide NodesOk, TreeOk, Below;
    PacketParts(t, f, s, id);
    var r :| r in Carried(s.at, id);
    RootIsAboveAll(t, r);
  }

  lemma EveryoneFlies(t: Tree, f: Flow, s: State, r: nat)
    requires Inv(t, f, s) && Quiet(s) && r in t.ranks
    ensures s.at[r].Flying? && s.at[r].id in s.net
  {
    hide PacketsOk, NodesOk, TreeOk;
    NothingRests(t, f, s, 0);
    assert s.at[r].Resting? ==> r in Rest(s.at, s.at[r].node);
  }

  /** Exactly one packet has come out of the tree, and it merges every requester. */
  ghost predicate OneMaster(t: Tree, s: State) {
    exists id :: s.net.Keys == {id} && s.net[id].depth == 0 && R.Contribution(s.net[id]) == |t.ranks|
      && (|t.ranks| > 1 ==> s.net[id].aggregated && s.net[id].merged == |t.ranks|)
  }

  lemma QuietMeansOneMaster(t: Tree, f: Flow, s: State)
    requires Inv(t, f, s) && Quiet(s)
    ensures OneMaster(t, s)
  {
    hide PacketsOk, PlacesOk, NodesOk, Below, Rest;
    RanksHavePlaces(t, s);
    var r :| r in t.ranks;
    EveryoneFlies(t, f, s, r);
    var id := s.at[r].id;
    forall x | x in s.net ensures x == id {
      ArrivedCarriesAll(t, f, s, x);
      assert r in Carried(s.at, x);
    }
    ArrivedCarriesAll(t, f, s, id);
    assert s.net.Keys == {id};
  }

  // --------------------------------------------------------------- progress

  /** How much climbing a rank's input still has before it. */
  ghost function Effort(t: Tree, s: State, r: nat): nat
    requires r in s.at && r in t.path
  {
    var d := Depth(t, s.at, s.net, r);
    match s.at[r]
    case Unsent => 2 * d + 1
    case Flying(_) => 2 * d
    case Resting(_) => if d == 0 then 0 else 2 * d - 1
  }

  /** The climbing left for the ranks below `bound`. */
  ghost function Work(t: Tree, s: State, bound: nat): nat {
    if bound == 0 then 0
    else Work(t, s, bound - 1) + if bound - 1 in s.at && bound - 1 in t.path then Effort(t, s, bound - 1) else 0
  }

  ghost predicate NoMoreEffort(t: Tree, s: State, s': State) {
    s'.at.Keys == s.at.Keys && forall x :: x in s.at && x in t.path ==> Effort(t, s', x) <= Effort(t, s, x)
  }

  lemma {:induction false} LessWork(t: Tree, s: State, s': State, bound: nat, r: nat)
    requires NoMoreEffort(t, s, s') && r in s.at && r in t.path && Effort(t, s', r) < Effort(t, s, r)
    ensures Work(t, s', bound) <= Work(t, s, bound) && (r < bound ==> Work(t, s', bound) < Work(t, s, bound))
  {
    hide Effort;
    if bound > 0 { LessWork(t, s, s', bound - 1, r); }
  }

  lemma SendLightens(t: Tree, f: Flow, s: State, ev: Event)
    requires Inv(t, f, s) && ev.Sends? && Enabled(t, f, s, ev)
    ensures var s' := Step(t, f, s, ev); NoMoreEffort(t, s, s') && Effort(t, s', ev.rank) < Effort(t, s, ev.rank)
  {
    hide PacketsOk, NodesOk, TreeOk, Depth;
    SendKeepsDepths(t, s.at, s.net, ev.rank, ev.id, ev.request);
  }

  lemma PopLightens(t: Tree, f: Flow, s: State, id: nat, r: nat, v: nat)
    requires Inv(t, f, s) && id in s.net && r in Carried(s.at, id) && s.net[id].depth > 0 && r in t.path
    requires OnPath(t, r, s.net[id].depth - 1, v)
    ensures var s' := s.(net := s.net[id := s.net[id].(depth := s.net[id].depth - 1)]);
            NoMoreEffort(t, s, s') && Effort(t, s', r) < Effort(t, s, r)
  {
    hide PacketsOk, NodesOk, TreeOk;
  }

  lemma AbsorbLightens(t: Tree, f: Flow, s: State, id: nat, r: nat, v: nat)
    requires Inv(t, f, s) && Delivery(t, f, s, id, v) && R.WellFormed(s.net[id], f.width)
             && R.Valid(s.routers[v], f.width)
    requires r in Carried(s.at, id) && r in t.path
    ensures var s' := AbsorbStep(f, s, id, v); NoMoreEffort(t, s, s') && Effort(t, s', r) < Effort(t, s, r)
  {
    hide PacketsOk, PlacesOk, NodesOk, TreeOk, Depth, Fits, Outcome, R.HandleRequest, R.Valid, Below, Rest,
         R.WellFormed, OnPath;
    AbsorbMoves(t, f, s, id, v);
    FlyingDepth(t, s, r, id);
    DeliveryAllBelow(t, f, s, id, v);
  }

  lemma FlyingDepth(t: Tree, s: State, r: nat, id: nat)
    requires r in Carried(s.at, id) && r in t.path && id in s.net
    ensures r in s.at && Depth(t, s.at, s.net, r) == s.net[id].depth && s.at[r] == Flying(id)
  {
  }

  lemma MasterLightens(t: Tree, f: Flow, s: State, id: nat, r: nat, v: nat, out: nat, q: R.Request)
    requires Inv(t, f, s) && Delivery(t, f, s, id, v) && out !in s.net && q.depth == s.net[id].depth - 1
    requires R.WellFormed(s.net[id], f.width) && R.Valid(s.routers[v], f.width)
    requires Rest(s.at, v) + Carried(s.at, id) == Below(t, v) && PacketOk(t, f, q, Below(t, v))
    requires r in Carried(s.at, id) && r in t.path
    ensures var s' := MasterStep(f, s, id, v, out, q); NoMoreEffort(t, s, s') && Effort(t, s', r) < Effort(t, s, r)
  {
    hide PacketsOk, PlacesOk, NodesOk, TreeOk, Depth, Fits, Outcome, R.HandleRequest, R.Valid, Below, R.WellFormed,
         OnPath, PacketOk;
    var s' := MasterStep(f, s, id, v, out, q);
    MasterMoves(t, f, s, id, v, out, q);
    RanksHavePlaces(t, s);
    FlyingDepth(t, s, r, id);
    DeliveryAllBelow(t, f, s, id, v);
    NobodyAboard(t, s, out);
    Departs(s.at, id, v, out);
    forall x | x in s.at && x in t.path
      ensures Effort(t, s', x) <= Effort(t, s, x) && (x == r ==> Effort(t, s', x) < Effort(t, s, x)) {
      DepartLightens(t, s, id, v, out, q, s', x);
    }
  }

  lemma DepartLightens(t: Tree, s: State, id: nat, v: nat, out: nat, q: R.Request, s': State, x: nat)
    requires TreeOk(t) && PlacesOk(t, s.net, s.at) && id in s.net && out !in s.net && s.net[id].depth > 0
             && q.depth == s.net[id].depth - 1
    requires s'.at == Move(s.at, Carried(s.at, id) + Rest(s.at, v), Flying(out)) && s'.net == (s.net - {id})[out := q]
    requires x in s.at && x in t.path && (x in Carried(s.at, id) + Rest(s.at, v) ==>
                                          OnPath(t, x, s.net[id].depth - 1, v))
    ensures Effort(t, s', x) <= Effort(t, s, x) && (x in Carried(s.at, id) ==> Effort(t, s', x) < Effort(t, s, x))
  {
    if x in Carried(s.at, id) + Rest(s.at, v) {
      if s.at[x] == Resting(v) { RestingDepth(t, s.at, s.net, x, s.net[id].depth - 1, v); }
      assert s'.at[x] == Flying(out);
    } else {
      hide TreeOk;
      assert s'.at[x] == s.at[x];
    }
  }

  // ---- every run of sends and deliveries is short, and none gets stuck

  lemma DeliveryLightens(t: Tree, f: Flow, s: State, ev: Event)
    requires Inv(t, f, s) && ev.Delivered? && Enabled(t, f, s, ev)
    ensures exists r ::
              && r in s.at && r in t.path && NoMoreEffort(t, s, Step(t, f, s, ev))
              && Effort(t, Step(t, f, s, ev), r) < Effort(t, s, r)
  {
    hide TreeOk, PacketsOk, PlacesOk, NodesOk, NodeOk, Rest, Fits, Outcome, R.Valid, Below, Move, Accepted,
         R.HandleRequest,
         NoMoreEffort, Effort, PacketOk, CountedSlot;
    var id, v := ev.id, ev.node;
    var r :| r in Carried(s.at, id) && OnPath(t, r, s.net[id].depth - 1, v);
    NodeThere(t, f, s, r, s.net[id].depth - 1, v);
    if |Below(t, v)| > 1 {
      DeliveryParts(t, f, s, id, r, v);
      DeliveredSlot(t, f, s, id, v);
      if Rest(s.at, v) + Carried(s.at, id) == Below(t, v) {
        var q := R.HandleRequest(s.routers[v], false, s.net[id], f.width).1.request;
        CountedIs(t, f, s, id, v);
        DeliveryAllBelow(t, f, s, id, v);
        MasterIsOk(t, f, CountedSlot(t, s.routers[v].slots[t.slot[v]], v, s.net[id]), v, s.net[id].depth, q);
        MasterLightens(t, f, s, id, r, v, ev.out, q);
      } else {
        AbsorbLightens(t, f, s, id, r, v);
      }
    } else {
      PassesOn(t, f, s, id, r, v);
      assert s.routers[v := s.routers[v]] == s.routers;
      PopLightens(t, f, s, id, r, v);
    }
  }

  lemma {:induction false} SameEffortSameWork(t: Tree, s: State, s': State, bound: nat)
    requires s'.at == s.at && s'.net == s.net
    ensures Work(t, s', bound) == Work(t, s, bound)
  {
    if bound > 0 { SameEffortSameWork(t, s, s', bound - 1); }
  }

  lemma NextNode(t: Tree, f: Flow, q: R.Request, ranks: set<nat>, r: nat) returns (v: nat)
    requires PacketOk(t, f, q, ranks) && r in ranks && q.depth > 0
    ensures OnPath(t, r, q.depth - 1, v)
  {
    assert Stacked(t, q, r);
    v := t.path[r][q.depth - 1];
  }

  lemma DeliveryEnabled(t: Tree, f: Flow, s: State, id: nat, out: nat)
    requires Inv(t, f, s) && id in s.net && s.net[id].depth > 0 && out !in s.net
    ensures exists v :: Enabled(t, f, s, Delivered(id, v, out))
  {
    hide TreeOk, NodesOk, PlacesOk, PacketsOk, PacketOk, SlotOk, OnPath, R.Valid, R.WellFormed;
    PacketParts(t, f, s, id);
    var r :| r in Carried(s.at, id);
    var v := NextNode(t, f, s.net[id], Carried(s.at, id), r);
    NodeThere(t, f, s, r, s.net[id].depth - 1, v);
    assert Enabled(t, f, s, Delivered(id, v, out));
  }
}
