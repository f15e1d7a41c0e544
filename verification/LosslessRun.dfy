/** Lossless runs of one credit through the tree, while everything else the routers
    do goes on: the credit binds a slot at each router it reaches, requesters below
    answer as soon as it has reached them, answers climb in any order, and other
    credits and requests use the same slot tables. */
module LosslessRun {
  import opened Prelude
  import R = RouterModel
  import H = RouterHistory
  import opened Lossless

  /** The tree with the slots bound so far, the routers and packets, and for each
      router how many slots it has bound since it bound this credit's. */
  datatype World = World(tree: Tree, state: State, age: map<nat, nat>)

  datatype Move =
    | Reaches(node: nat, responder: nat)
    | Does(event: Event)
    | Traffic(node: nat, other: H.Event)

  ghost predicate OtherOwner(f: Flow, e: H.Event) {
    match e
    case Credit(port, offset, _) => !(port == f.port && offset == f.offset)
    case Data(q, _) => !(q.port == f.port && q.offset == f.offset)
  }

  /** No slot is waiting for requests of this credit. */
  ghost predicate NoneOwned(f: Flow, router: R.RouterState) {
    forall i :: 0 <= i < |router.slots| ==> router.slots[i].forwarded || !Untouched(f, router.slots[i])
  }

  /** The next credit's bindings at a router, as long as an input still has to pass it,
      are fewer than the router has slots. */
  ghost predicate FewBindings(w: World, v: nat)
    requires v in w.state.routers
  {
    v in w.tree.slot && !Passed(w.tree, w.state, v) ==> v in w.age && w.age[v] + 1 < |w.state.routers[v].slots|
  }

  /** The credit reaches a router after those above it. */
  ghost predicate CanReach(w: World, v: nat) {
    v !in w.tree.slot
    && exists r, i: nat :: OnPath(w.tree, r, i, v) && forall j :: 0 <= j < i ==> w.tree.path[r][j] in w.tree.slot
  }

  ghost predicate Can(f: Flow, w: World, m: Move) {
    match m
    case Reaches(v, _) => v in w.state.routers && R.Valid(w.state.routers[v], f.width) && CanReach(w, v)
    case Does(ev) => !ev.OtherTraffic? && Enabled(w.tree, f, w.state, ev)
    case Traffic(v, e) =>
      && v in w.state.routers && R.Valid(w.state.routers[v], f.width)
      && H.EventOk(e, f.width) && OtherOwner(f, e)
      && (H.Binds(w.state.routers[v], e) ==> FewBindings(w, v))
  }

  ghost function Next(f: Flow, w: World, m: Move): World
    requires Can(f, w, m)
  {
    match m
    case Reaches(v, responder) =>
      var (router, loc) := R.BindCredit(w.state.routers[v], f.port, f.offset, responder, f.width);
      World(WithSlot(w.tree, v, loc), w.state.(routers := w.state.routers[v := router]), w.age[v := 0])
    case Does(ev) => w.(state := Step(w.tree, f, w.state, ev))
    case Traffic(v, e) =>
      var router := w.state.routers[v];
      w.(state := w.state.(routers := w.state.routers[v := H.Step(router, e, f.width)]),
         age := if v in w.age && H.Binds(router, e) then w.age[v := w.age[v] + 1] else w.age)
  }

  ghost predicate Runs(f: Flow, w: World, ms: seq<Move>)
    decreases |ms|
  {
    ms == [] || (Can(f, w, ms[0]) && Runs(f, Next(f, w, ms[0]), ms[1..]))
  }

  ghost function RunFrom(f: Flow, w: World, ms: seq<Move>): World
    requires Runs(f, w, ms)
    decreases |ms|
  {
    if ms == [] then w else RunFrom(f, Next(f, w, ms[0]), ms[1..])
  }

  /** Before the credit: nobody has it, nobody has answered, and the routers of the tree
      hold whatever earlier credits left there, but no open slot of this one. */
  ghost predicate Ready(f: Flow, w: World) {
    && TreeOk(w.tree) && w.tree.slot == map[] && w.age == map[] && f.words <= f.width
    && w.state.misses == 0 && w.state.net == map[] && w.state.at == (map r | r in w.tree.ranks :: Unsent)
    && forall r, i: nat, v :: OnPath(w.tree, r, i, v) ==>
         v in w.state.routers && R.Valid(w.state.routers[v], f.width) && NoneOwned(f, w.state.routers[v])
  }

  // --------------------------------------------------------------- invariant

  /** The allocator of a router that bound the credit has not come round to its slot. */
  ghost predicate RouterOk(f: Flow, w: World, v: nat) {
    && v in w.state.routers && R.Valid(w.state.routers[v], f.width)
    && var router := w.state.routers[v];
       if v !in w.tree.slot then NoneOwned(f, router)
       else Passed(w.tree, w.state, v) || AheadOf(router, w.tree.slot[v], if v in w.age then w.age[v] else 0)
  }

  ghost predicate AheadOf(router: R.RouterState, loc: nat, age: nat) {
    router.alloc < |router.slots| && loc < |router.slots|
        && age < |router.slots| <= H.Distance(router.alloc, loc, |router.slots|) + age + 1
  }

  ghost predicate RoutersOk(f: Flow, w: World) {
    forall r, i: nat, v :: OnPath(w.tree, r, i, v) ==> RouterOk(f, w, v)
  }

  ghost predicate SlotsOnPath(t: Tree) {
    forall v :: v in t.slot ==> exists r, i: nat :: OnPath(t, r, i, v)
  }

  ghost predicate Holds(f: Flow, w: World) {
    Inv(w.tree, f, w.state) && w.age.Keys == w.tree.slot.Keys && SlotsOnPath(w.tree) && RoutersOk(f, w)
  }

  lemma ReadyHolds(f: Flow, w: World)
    requires Ready(f, w)
    ensures Holds(f, w)
  {
  }

  // ------------------------------------------- what each move does to a router

  lemma HandleKeepsAllocator(router: R.RouterState, q: R.Request, width: nat)
    requires R.Valid(router, width) && R.WellFormed(q, width)
    ensures var after := R.HandleRequest(router, false, q, width).0;
            after.alloc == router.alloc && |after.slots| == |router.slots|
  {
  }

  lemma PassedStays(t: Tree, s: State, s': State, v: nat)
    requires Passed(t, s, v) && s'.at.Keys == s.at.Keys
    requires forall x :: x in s.at && x in t.path ==> Depth(t, s'.at, s'.net, x) <= Depth(t, s.at, s.net, x)
    ensures Passed(t, s', v)
  {
    hide Depth;
  }

  /** Binding a slot to the credit takes the allocator one place past it. */
  lemma FreshBinding(f: Flow, router: R.RouterState, responder: nat)
    requires R.Valid(router, f.width) && NoneOwned(f, router)
    ensures var (after, loc) := R.BindCredit(router, f.port, f.offset, responder, f.width);
            && loc < |after.slots| == |router.slots| && R.Valid(after, f.width)
            && after.slots[loc] == R.BoundSlot(f.port, f.offset, loc, responder) && AheadOf(after, loc, 0)
  {
    H.ModStep(router.alloc, |router.slots|);
  }

  /** What other credits and requests cannot do: take a slot that is ahead of the
      allocator, or count into a slot of this credit. */
  lemma TrafficKeepsSlot(f: Flow, router: R.RouterState, e: H.Event, loc: nat, age: nat)
    requires R.Valid(router, f.width) && H.EventOk(e, f.width) && OtherOwner(f, e)
    requires AheadOf(router, loc, age) && (H.Binds(router, e) ==> age + 1 < |router.slots|)
    ensures var after := H.Step(router, e, f.width);
            && AheadOf(after, loc, if H.Binds(router, e) then age + 1 else age)
            && (Untouched(f, router.slots[loc]) ==> after.slots[loc] == router.slots[loc])
  {
    hide R.BindCredit, R.HandleRequest;
    H.DistanceStep(router, e, loc, f.width);
    if Untouched(f, router.slots[loc]) { H.OtherEventsKeepSlot(router, e, loc, f.width); }
  }

  lemma TrafficOwnsNothing(f: Flow, router: R.RouterState, e: H.Event)
    requires R.Valid(router, f.width) && H.EventOk(e, f.width) && OtherOwner(f, e) && NoneOwned(f, router)
    ensures NoneOwned(f, H.Step(router, e, f.width))
  {
  }

  // ----------------------------------------------------- each move keeps it

  lemma DoesKeeps(f: Flow, w: World, m: Move)
    requires Holds(f, w) && m.Does? && Can(f, w, m)
    ensures Holds(f, Next(f, w, m))
  {
    hide Inv, Enabled, Step, SlotsOnPath, RouterOk;
    StepKeeps(w.tree, f, w.state, m.event);
    DepthsFall(w.tree, f, w.state, m.event);
    forall r, i: nat, v | OnPath(w.tree, r, i, v) ensures RouterOk(f, Next(f, w, m), v) {
      assert RouterOk(f, w, v);
      DoesKeepsRouter(f, w, m.event, v);
    }
  }

  lemma DoesKeepsRouter(f: Flow, w: World, ev: Event, v: nat)
    requires Inv(w.tree, f, w.state) && !ev.OtherTraffic? && Enabled(w.tree, f, w.state, ev) && RouterOk(f, w, v)
    requires var s' := Step(w.tree, f, w.state, ev);
      s'.at.Keys == w.state.at.Keys
      && forall x :: x in w.state.at && x in w.tree.path ==>
           Depth(w.tree, s'.at, s'.net, x) <= Depth(w.tree, w.state.at, w.state.net, x)
    ensures RouterOk(f, w.(state := Step(w.tree, f, w.state, ev)), v)
  {
    hide TreeOk, PacketsOk, PlacesOk, NodesOk, Depth, Passed, NoneOwned, R.HandleRequest, R.Valid, R.WellFormed;
    if Passed(w.tree, w.state, v) {
      PassedStays(w.tree, w.state, Step(w.tree, f, w.state, ev), v);
    }
    if ev.Delivered? && ev.node == v {
      HandleKeepsAllocator(w.state.routers[v], w.state.net[ev.id], f.width);
      DeliveredIsBound(w.tree, f, w.state, ev);
      assert R.Valid(R.HandleRequest(w.state.routers[v], false, w.state.net[ev.id], f.width).0, f.width);
    }
  }

  lemma DeliveredIsBound(t: Tree, f: Flow, s: State, ev: Event)
    requires Inv(t, f, s) && ev.Delivered? && Enabled(t, f, s, ev)
    ensures ev.node in t.slot
  {
    hide TreeOk, PacketsOk, PlacesOk, NodesOk, NodeOk, Carried, OnPath, PacketOk;
    var r :| r in Carried(s.at, ev.id) && OnPath(t, r, s.net[ev.id].depth - 1, ev.node);
    PacketParts(t, f, s, ev.id);
    PacketNode(t, f, s.net[ev.id], Carried(s.at, ev.id), r, ev.node);
  }

  lemma TrafficKeeps(f: Flow, w: World, m: Move)
    requires Holds(f, w) && m.Traffic? && Can(f, w, m)
    ensures Holds(f, Next(f, w, m))
  {
    hide Inv, RouterOk, SlotsOnPath, Passed, NoneOwned, R.Valid;
    var v, e := m.node, m.other;
    var router := H.Step(w.state.routers[v], e, f.width);
    var w' := Next(f, w, m);
    TrafficIsOther(f, w, v, e);
    StepKeeps(w.tree, f, w.state, OtherTraffic(v, router));
    forall r, i: nat, x | OnPath(w.tree, r, i, x) ensures RouterOk(f, w', x) {
      assert RouterOk(f, w, x);
      TrafficKeepsRouter(f, w, m, x);
    }
  }

  /** What traffic does to a router is other traffic in the sense of Lossless.dfy. */
  lemma TrafficIsOther(f: Flow, w: World, v: nat, e: H.Event)
    requires Holds(f, w) && Can(f, w, Traffic(v, e))
    ensures Enabled(w.tree, f, w.state, OtherTraffic(v, H.Step(w.state.routers[v], e, f.width)))
  {
    hide TreeOk, PacketsOk, PlacesOk, Passed, NoneOwned, R.Valid, H.Step;
    var t, s := w.tree, w.state;
    if v in t.slot && t.slot[v] < |s.routers[v].slots| && !Passed(t, s, v) {
      var r, i: nat :| OnPath(t, r, i, v);
      assert RouterOk(f, w, v);
      OpenIsUntouched(t, f, s, r, i, v);
      TrafficKeepsSlot(f, s.routers[v], e, t.slot[v], w.age[v]);
    }
  }

  lemma OpenIsUntouched(t: Tree, f: Flow, s: State, r: nat, i: nat, v: nat)
    requires TreeOk(t) && NodesOk(t, f, s) && OnPath(t, r, i, v) && v in t.slot && !Passed(t, s, v)
    ensures v in s.routers && t.slot[v] < |s.routers[v].slots| && Untouched(f, s.routers[v].slots[t.slot[v]])
  {
    hide TreeOk, OpenSlot, AllAbove, Passed;
    PassedIs(t, s, v, i, r);
    assert NodeOk(t, f, s, v, i + 1);
  }

  lemma TrafficKeepsRouter(f: Flow, w: World, m: Move, x: nat)
    requires m.Traffic? && Can(f, w, m) && RouterOk(f, w, x) && w.age.Keys == w.tree.slot.Keys
    ensures RouterOk(f, Next(f, w, m), x)
  {
    hide Passed, NoneOwned, H.Step, AheadOf, R.Valid;
    var v, e := m.node, m.other;
    SamePassed(f, w, m, x);
    if x == v {
      if x !in w.tree.slot {
        TrafficOwnsNothing(f, w.state.routers[v], e);
      } else if !Passed(w.tree, w.state, v) {
        TrafficKeepsSlot(f, w.state.routers[v], e, w.tree.slot[v], w.age[v]);
      }
    }
  }

  lemma SamePassed(f: Flow, w: World, m: Move, x: nat)
    requires m.Traffic? && Can(f, w, m)
    ensures Passed(w.tree, Next(f, w, m).state, x) <==> Passed(w.tree, w.state, x)
  {
  }

  lemma ReachesKeeps(f: Flow, w: World, m: Move)
    requires Holds(f, w) && m.Reaches? && Can(f, w, m)
    ensures Holds(f, Next(f, w, m))
  {
    hide TreeOk, PacketsOk, PlacesOk, NodesOk, RouterOk, R.Valid, R.BindCredit, NoneOwned, AheadOf;
    var v := m.node;
    var x, i: nat :| OnPath(w.tree, x, i, v);
    var (router, loc) := R.BindCredit(w.state.routers[v], f.port, f.offset, m.responder, f.width);
    var w' := Next(f, w, m);
    assert NoneOwned(f, w.state.routers[v]) by { assert RouterOk(f, w, v); Unbound(f, w, v); }
    FreshBinding(f, w.state.routers[v], m.responder);
    BindKeeps(w.tree, f, w.state, v, router, loc, m.responder, i, x);
    forall y ensures y in w'.tree.slot ==> exists r, j: nat :: OnPath(w'.tree, r, j, y) {
      if y in w'.tree.slot {
        var r, j: nat :| OnPath(w.tree, r, j, y);
        assert OnPath(w'.tree, r, j, y) by { OnPathKept(w.tree, v, loc, r, j, y); }
      }
    }
    forall r, j: nat, y | OnPath(w'.tree, r, j, y) ensures RouterOk(f, w', y) {
      OnPathKept(w.tree, v, loc, r, j, y);
      assert RouterOk(f, w, y);
      ReachesKeepsRouter(f, w, m, y);
    }
  }

  lemma Unbound(f: Flow, w: World, v: nat)
    requires RouterOk(f, w, v) && v !in w.tree.slot
    ensures NoneOwned(f, w.state.routers[v])
  {
  }

  lemma ReachesKeepsRouter(f: Flow, w: World, m: Move, x: nat)
    requires TreeOk(w.tree) && m.Reaches? && Can(f, w, m) && RouterOk(f, w, x) && RouterOk(f, w, m.node)
    ensures RouterOk(f, Next(f, w, m), x)
  {
    hide TreeOk, R.Valid, R.BindCredit, NoneOwned, AheadOf, Passed;
    var v := m.node;
    FreshBinding(f, w.state.routers[v], m.responder);
    var loc := R.BindCredit(w.state.routers[v], f.port, f.offset, m.responder, f.width).1;
    if x in w.tree.slot && Passed(w.tree, w.state, x) {
      PassedWithSlot(w.tree, w.state, v, loc, x, Next(f, w, m).state);
    }
  }

  lemma PassedWithSlot(t: Tree, s: State, v: nat, loc: nat, x: nat, s': State)
    requires TreeOk(t) && Passed(t, s, x) && s'.at == s.at && s'.net == s.net
    ensures Passed(WithSlot(t, v, loc), s', x)
  {
    hide Depth, TreeOk;
    var u := WithSlot(t, v, loc);
    forall r, i: nat | OnPath(u, r, i, x) && r in s.at ensures Depth(u, s.at, s.net, r) <= i {
      assert OnPath(t, r, i, x);
      SameDepth(t, v, loc, s.at, s.net, r);
    }
  }

  lemma MoveKeeps(f: Flow, w: World, m: Move)
    requires Holds(f, w) && Can(f, w, m)
    ensures Holds(f, Next(f, w, m))
  {
    hide Holds, Can, Next;
    match m {
      case Reaches(_, _) => ReachesKeeps(f, w, m);
      case Does(_) => DoesKeeps(f, w, m);
      case Traffic(_, _) => TrafficKeeps(f, w, m);
    }
  }

  lemma {:induction false} RunKeeps(f: Flow, w: World, ms: seq<Move>)
    requires Holds(f, w) && Runs(f, w, ms)
    ensures Holds(f, RunFrom(f, w, ms))
    decreases |ms|
  {
    hide Holds, Can, Next;
    if ms != [] {
      MoveKeeps(f, w, ms[0]);
      RunKeeps(f, Next(f, w, ms[0]), ms[1..]);
    }
  }

  // ---------------------------------------------------------------- results

  /** No AGG_MISS is ever produced, whatever the interleaving and whatever other
      credits and requests do. */
  lemma NoMisses(f: Flow, w: World, ms: seq<Move>)
    requires Ready(f, w) && Runs(f, w, ms)
    ensures RunFrom(f, w, ms).state.misses == 0
  {
    hide Ready, PacketsOk, PlacesOk, NodesOk, TreeOk, RoutersOk;
    ReadyHolds(f, w);
    RunKeeps(f, w, ms);
  }

  /** Lossless completeness: when everyone has answered and no answer has a level left
      to climb, exactly one master has come out of the tree, it counts every requester,
      and no AGG_MISS was produced on the way. */
  lemma LosslessCompleteness(f: Flow, w: World, ms: seq<Move>)
    requires Ready(f, w) && Runs(f, w, ms) && Quiet(RunFrom(f, w, ms).state)
    ensures var end := RunFrom(f, w, ms); OneMaster(end.tree, end.state) && end.state.misses == 0
    ensures RunFrom(f, w, ms).tree.ranks == w.tree.ranks
  {
    hide Ready, Inv, RoutersOk, OneMaster, Quiet;
    ReadyHolds(f, w);
    RunKeeps(f, w, ms);
    NoMisses(f, w, ms);
    SameRanks(f, w, ms);
    QuietMeansOneMaster(RunFrom(f, w, ms).tree, f, RunFrom(f, w, ms).state);
  }

  lemma {:induction false} SameRanks(f: Flow, w: World, ms: seq<Move>)
    requires Runs(f, w, ms)
    ensures var end := RunFrom(f, w, ms); end.tree.ranks == w.tree.ranks && end.tree.path == w.tree.path
    decreases |ms|
  {
    hide Can;
    if ms != [] { SameRanks(f, Next(f, w, ms[0]), ms[1..]); }
  }

  // --------------------------------------------------------------- progress

  ghost function Own(ms: seq<Move>): nat {
    if ms == [] then 0 else (if ms[0].Traffic? then 0 else 1) + Own(ms[1..])
  }

  /** The climbing left, and the routers the credit has not reached. */
  ghost function ToDo(w: World, bound: nat, levels: set<nat>): nat {
    Work(w.tree, w.state, bound) + |levels - w.tree.slot.Keys|
  }

  ghost predicate AllLevels(t: Tree, levels: set<nat>) {
    forall r, i: nat, v :: OnPath(t, r, i, v) ==> v in levels
  }

  lemma DoesLightens(f: Flow, w: World, m: Move, bound: nat)
    requires Holds(f, w) && m.Does? && Can(f, w, m) && forall r :: r in w.tree.ranks ==> r < bound
    ensures Work(w.tree, Next(f, w, m).state, bound) < Work(w.tree, w.state, bound)
  {
    hide TreeOk, PacketsOk, PlacesOk, NodesOk, RoutersOk, Work, Effort, Step;
    var t, s, ev := w.tree, w.state, m.event;
    var s' := Step(t, f, s, ev);
    RanksHavePlaces(t, s);
    match ev {
      case Sends(r, _, _) =>
        SendLightens(t, f, s, ev);
        LessWork(t, s, s', bound, r);
      case Delivered(_, _, _) =>
        DeliveryLightens(t, f, s, ev);
        var r :| r in s.at && r in t.path && NoMoreEffort(t, s, s') && Effort(t, s', r) < Effort(t, s, r);
        LessWork(t, s, s', bound, r);
    }
  }

  lemma {:induction false} SameWork(t: Tree, v: nat, loc: nat, s: State, s': State, bound: nat)
    requires TreeOk(t) && s'.at == s.at && s'.net == s.net
    ensures Work(WithSlot(t, v, loc), s', bound) == Work(t, s, bound)
  {
    hide TreeOk, Depth;
    if bound > 0 {
      SameWork(t, v, loc, s, s', bound - 1);
      var r := bound - 1;
      if r in s.at && r in t.path { SameDepth(t, v, loc, s.at, s.net, r); }
    }
  }

  lemma MoveLightens(f: Flow, w: World, m: Move, bound: nat, levels: set<nat>)
    requires Holds(f, w) && Can(f, w, m) && AllLevels(w.tree, levels) && forall r :: r in w.tree.ranks ==> r < bound
    ensures ToDo(Next(f, w, m), bound, levels) + (if m.Traffic? then 0 else 1) <= ToDo(w, bound, levels)
    ensures AllLevels(Next(f, w, m).tree, levels)
  {
    hide TreeOk, PacketsOk, PlacesOk, NodesOk, RoutersOk, Work;
    match m {
      case Does(_) => DoesLightens(f, w, m, bound);
      case Traffic(_, _) => SameEffortSameWork(w.tree, w.state, Next(f, w, m).state, bound);
      case Reaches(v, responder) =>
        var w' := Next(f, w, m);
        var loc := w'.tree.slot[v];
        assert w'.tree == WithSlot(w.tree, v, loc);
        SameWork(w.tree, v, loc, w.state, w'.state, bound);
        var r, i: nat :| OnPath(w.tree, r, i, v);
        assert levels - w'.tree.slot.Keys == (levels - w.tree.slot.Keys) - {v};
        forall y, j: nat, x | OnPath(w'.tree, y, j, x) ensures x in levels { OnPathKept(w.tree, v, loc, y, j, x); }
    }
  }

  /** A run makes at most as many moves of its own as there was to do. */
  lemma {:induction false} RunIsShort(f: Flow, w: World, ms: seq<Move>, bound: nat, levels: set<nat>)
    requires Holds(f, w) && Runs(f, w, ms) && AllLevels(w.tree, levels) && forall r :: r in w.tree.ranks ==> r < bound
    ensures Own(ms) + ToDo(RunFrom(f, w, ms), bound, levels) <= ToDo(w, bound, levels)
    decreases |ms|
  {
    hide Holds, Can, ToDo, AllLevels;
    if ms != [] {
      MoveKeeps(f, w, ms[0]);
      MoveLightens(f, w, ms[0], bound, levels);
      assert Next(f, w, ms[0]).tree.ranks == w.tree.ranks;
      RunIsShort(f, Next(f, w, ms[0]), ms[1..], bound, levels);
    }
  }

  // ---- no run gets stuck

  ghost function LocsTo(t: Tree, r: nat, n: nat): (locs: seq<nat>)
    requires r in t.path && n <= |t.path[r]|
    ensures |locs| == R.MAX_STACK_DEPTH || n > R.MAX_STACK_DEPTH
    ensures n <= |locs| && forall i :: 0 <= i < n && t.path[r][i] in t.slot ==> locs[i] == t.slot[t.path[r][i]]
  {
    seq(if n > R.MAX_STACK_DEPTH then n else R.MAX_STACK_DEPTH,
        i requires i >= 0 => if i < n && t.path[r][i] in t.slot then t.slot[t.path[r][i]] else R.AGG_INDEX_UNUSED)
  }

  ghost function FaninsTo(t: Tree, r: nat, n: nat): (fanins: seq<nat>)
    requires r in t.path && n <= |t.path[r]|
    ensures |fanins| == R.MAX_STACK_DEPTH || n > R.MAX_STACK_DEPTH
    ensures n <= |fanins| && forall i :: 0 <= i < n ==> fanins[i] == |Below(t, t.path[r][i])|
    ensures forall i :: n <= i < |fanins| ==> fanins[i] == 0
  {
    seq(if n > R.MAX_STACK_DEPTH then n else R.MAX_STACK_DEPTH,
        i requires i >= 0 => if i < n then |Below(t, t.path[r][i])| else 0)
  }

  /** The answer a requester can give once the credit has reached every router above it. */
  ghost function AnswerOf(t: Tree, f: Flow, r: nat): R.Request
    requires r in t.path
  {
    R.Request(r, f.port, f.offset, 0, false, |t.path[r]|, LocsTo(t, r, |t.path[r]|), FaninsTo(t, r, |t.path[r]|),
              f.op, f.dtype, true, true, R.NotEct, seq(f.words, _ => 0))
  }

  lemma CanAnswer(t: Tree, f: Flow, s: State, r: nat, id: nat)
    requires Inv(t, f, s) && r in t.ranks && r in s.at && s.at[r] == Unsent && id !in s.net
    requires forall i :: 0 <= i < |t.path[r]| ==> t.path[r][i] in t.slot
    ensures Enabled(t, f, s, Sends(r, id, AnswerOf(t, f, r)))
  {
    hide PacketsOk, PlacesOk, NodesOk;
    forall i | 0 <= i < |t.path[r]| ensures |Below(t, t.path[r][i])| < 0x100 {
      SubsetSize(Below(t, t.path[r][i]), t.ranks);
    }
    hide Below;
    assert Stacked(t, AnswerOf(t, f, r), r);
  }

  lemma {:induction false} FirstMissing(path: seq<nat>, slot: map<nat, nat>, n: nat) returns (i: nat)
    requires n < |path| && path[n] !in slot
    ensures i < |path| && path[i] !in slot && forall j :: 0 <= j < i ==> path[j] in slot
    decreases n
  {
    if j :| 0 <= j < n && path[j] !in slot {
      i := FirstMissing(path, slot, j);
    } else {
      i := n;
    }
  }

  lemma FreshId(net: map<nat, R.Request>) returns (id: nat)
    ensures id !in net
  {
    id := AboveAll(net.Keys);
  }

  lemma {:induction false} AboveAll(ids: set<nat>) returns (n: nat)
    ensures forall x :: x in ids ==> x < n
  {
    n := 0;
    if ids != {} {
      var x :| x in ids;
      var m := AboveAll(ids - {x});
      n := if x < m then m else x + 1;
      assert forall y :: y in ids ==> y == x || y in ids - {x};
    }
  }

  lemma UnsentCanProceed(f: Flow, w: World, r: nat)
    requires Holds(f, w) && r in w.state.at && w.state.at[r] == Unsent
    ensures exists m: Move :: !m.Traffic? && Can(f, w, m)
  {
    hide PacketsOk, PlacesOk, RoutersOk, SlotOk;
    var t, s := w.tree, w.state;
    RanksHavePlaces(t, s);
    if n :| 0 <= n < |t.path[r]| && t.path[r][n] !in t.slot {
      var i := FirstMissing(t.path[r], t.slot, n);
      assert OnPath(t, r, i, t.path[r][i]);
      assert NodeOk(t, f, s, t.path[r][i], i + 1);
      assert Can(f, w, Reaches(t.path[r][i], 0));
    } else {
      var id := FreshId(s.net);
      CanAnswer(t, f, s, r, id);
      assert Can(f, w, Does(Sends(r, id, AnswerOf(t, f, r))));
    }
  }

  /** At any point of any run that is not quiet yet, the credit can reach another router,
      a requester can answer, or an answer can climb. */
  lemma NeverStuck(f: Flow, w: World, ms: seq<Move>)
    requires Ready(f, w) && Runs(f, w, ms) && !Quiet(RunFrom(f, w, ms).state)
    ensures exists m: Move :: !m.Traffic? && Can(f, RunFrom(f, w, ms), m)
  {
    hide Ready, PacketsOk, PlacesOk, NodesOk, TreeOk, RoutersOk, Enabled;
    ReadyHolds(f, w);
    RunKeeps(f, w, ms);
    var end := RunFrom(f, w, ms);
    if id :| id in end.state.net && end.state.net[id].depth > 0 {
      var out := FreshId(end.state.net);
      DeliveryEnabled(end.tree, f, end.state, id, out);
      var v :| Enabled(end.tree, f, end.state, Delivered(id, v, out));
      assert Can(f, end, Does(Delivered(id, v, out)));
    } else {
      var r :| r in end.state.at && end.state.at[r] == Unsent;
      UnsentCanProceed(f, end, r);
    }
  }
}
