/** The configured tree, the planned fan-ins and the lossless run put together: where the
    responder's neighbour mask is made of whole blocks, as the default one is, every
    credit comes back as one full master. */
module PlannedRun {
  import opened Prelude
  import R = RouterModel
  import L = Lossless
  import M = Multicast
  import F = FanIn
  import opened LosslessRun

  /** A configured tree for the requesters `ranks` of one responder in a group of `n`, whose
      LEVEL routers serve the blocks the planner assumes; routers are named by the block
      they serve. */
  ghost predicate Planned(ports: M.Ports, n: nat, ranks: set<nat>, responder: nat, root: nat) {
    && responder < n <= 0x100 && ranks != {} && ranks <= F.Requesters(n, responder)
    && M.Distinct(M.Hosts(ports)) && M.Distinct(M.Levels(ports)) && M.Rooted(ports, root)
    && (forall r: nat :: r in M.Hosts(ports) <==> r in ranks)
    && forall r :: r in M.Hosts(ports) ==> M.Path(ports, r) == F.PlannedPath(n, r)
  }

  /** The stack of an answer: the slots the credit brought down the tree, and the fan-ins
      the planner gives the requester. */
  ghost predicate PlannedStack(ports: M.Ports, n: nat, ranks: set<nat>, responder: nat, slot: map<nat, nat>,
                               r: nat, q: R.Request)
    requires r < n
  {
    && |q.locs| == |q.fanins| == R.MAX_STACK_DEPTH && q.depth <= R.MAX_STACK_DEPTH
    && M.Arrival(r, q.locs[..q.depth]) in M.Descend(ports, slot, [])
    && q.fanins[..q.depth] == F.Plan(n, |ranks|, r, responder)
  }

  // ------------------------------------------------------- one planned answer

  lemma SameTreeOf(ports: M.Ports, n: nat, ranks: set<nat>, responder: nat, root: nat, slot: map<nat, nat>)
    requires Planned(ports, n, ranks, responder, root)
    ensures M.TreeOf(ports, slot) == F.PlannedTree(n, ranks, slot)
  {
    hide M.Path, F.PlannedPath, M.Distinct, M.Rooted;
    var t, u := M.TreeOf(ports, slot), F.PlannedTree(n, ranks, slot);
    assert t.ranks == u.ranks;
    assert t.path == u.path;
  }

  lemma {:induction false} SlotsAre(ids: seq<nat>, slot: map<nat, nat>)
    requires forall v :: v in ids ==> v in slot
    ensures |M.SlotsOf(ids, slot)| == |ids| && forall i :: 0 <= i < |ids| ==> M.SlotsOf(ids, slot)[i] == slot[ids[i]]
  {
    if ids != [] { SlotsAre(ids[1..], slot); }
  }

  /** The credit reaches each host once, so what it brought is the slots of its path. */
  lemma ArrivalIs(ports: M.Ports, slot: map<nat, nat>, a: M.Arrival)
    requires M.Distinct(M.Hosts(ports)) && a in M.Descend(ports, slot, []) && M.Reached(ports, slot, a.rank)
    ensures a.rank in M.Hosts(ports) && a.stack == M.SlotsOf(M.Path(ports, a.rank), slot)
  {
    hide M.Path, M.Reached, M.Distinct;
    M.CreditReachesEachOnce(ports, slot, []);
    var i :| 0 <= i < |M.Descend(ports, slot, [])| && M.Descend(ports, slot, [])[i] == a;
    M.StackIsPath(ports, slot, [], i);
    PathSlotsAre(ports, slot, a.rank);
  }

  lemma PathSlotsAre(ports: M.Ports, slot: map<nat, nat>, rank: nat)
    ensures M.PathSlots(ports, slot, rank) == M.SlotsOf(M.Path(ports, rank), slot)
  {
  }

  /** The stack of a planned answer fits the tree: its slots are those its path bound, and
      its fan-ins are the numbers of requesters below each router. */
  lemma PlannedIsStacked(ports: M.Ports, n: nat, mask: nat, responder: nat, root: nat, slot: map<nat, nat>, r: nat,
                         q: R.Request)
    requires Planned(ports, n, F.Bits(mask, 0), responder, root) && F.WholeBlocks(n, F.Bits(mask, 0), responder)
    requires r in M.Hosts(ports) && M.Reached(ports, slot, r) && r < n
    requires PlannedStack(ports, n, F.Bits(mask, 0), responder, slot, r, q)
    ensures var t := M.TreeOf(ports, slot); r in t.path && L.Stacked(t, q, r) && q.depth == |t.path[r]|
  {
    hide F.PlannedPath, F.Plan, L.Below, F.Requesters, F.Bits, F.WholeBlocks;
    var path, t, ranks := M.Path(ports, r), M.TreeOf(ports, slot), F.Bits(mask, 0);
    SameTreeOf(ports, n, ranks, responder, root, slot);
    ArrivalIs(ports, slot, M.Arrival(r, q.locs[..q.depth]));
    SlotsAre(path, slot);
    F.PlanFitsIff(n, mask, responder, slot);
    assert F.PlanFitsRank(n, ranks, responder, slot, r);
    forall i | 0 <= i < q.depth ensures q.locs[i] == slot[path[i]] && q.fanins[i] == |L.Below(t, path[i])| {
      assert q.locs[..q.depth][i] == q.locs[i] && q.fanins[..q.depth][i] == q.fanins[i];
    }
  }

  // -------------------------------------------------------------------- runs

  /** A group: its configured tree, its size, its responder and that one's mask. */
  datatype Group = Group(ports: M.Ports, n: nat, mask: nat, responder: nat, root: nat)

  ghost predicate GroupOk(g: Group) {
    Planned(g.ports, g.n, Ranks(g), g.responder, g.root) && F.WholeBlocks(g.n, Ranks(g), g.responder)
  }

  /** The responder's requesters: those its mask names. */
  ghost function Ranks(g: Group): set<nat> {
    F.Bits(g.mask, 0)
  }

  /** A requester answers once the credit has reached it: with its own data or its
      header-only acknowledgement, and with the stack the credit and the plan give it. */
  ghost predicate Answers(g: Group, f: L.Flow, w: World, r: nat, id: nat, q: R.Request) {
    && r in M.Hosts(g.ports) && r < g.n && r in w.state.at && w.state.at[r] == L.Unsent && id !in w.state.net
    && M.Reached(g.ports, w.tree.slot, r)
    && L.OfFlow(f, q) && !q.aggregated && R.WellFormed(q, f.width)
    && PlannedStack(g.ports, g.n, Ranks(g), g.responder, w.tree.slot, r, q)
  }

  ghost predicate CanDo(g: Group, f: L.Flow, w: World, m: Move) {
    if m.Does? && m.event.Sends? then Answers(g, f, w, m.event.rank, m.event.id, m.event.request) else Can(f, w, m)
  }

  ghost predicate OnTree(g: Group, w: World) {
    w.tree == M.TreeOf(g.ports, w.tree.slot)
  }

  lemma CanDoIsCan(g: Group, f: L.Flow, w: World, m: Move)
    requires GroupOk(g) && OnTree(g, w) && CanDo(g, f, w, m)
    ensures Can(f, w, m) && OnTree(g, Next(f, w, m))
  {
    hide Planned, F.WholeBlocks, M.Path, L.Stacked, L.OfFlow, R.WellFormed;
    if m.Does? && m.event.Sends? {
      PlannedIsStacked(g.ports, g.n, g.mask, g.responder, g.root, w.tree.slot, m.event.rank, m.event.request);
    }
  }

  ghost predicate PlannedRuns(g: Group, f: L.Flow, w: World, ms: seq<Move>)
    requires GroupOk(g) && OnTree(g, w)
    decreases |ms|
  {
    ms == []
    || (CanDo(g, f, w, ms[0]) && (CanDoIsCan(g, f, w, ms[0]); PlannedRuns(g, f, Next(f, w, ms[0]), ms[1..])))
  }

  lemma {:induction false} PlannedRunsAreRuns(g: Group, f: L.Flow, w: World, ms: seq<Move>)
    requires GroupOk(g) && OnTree(g, w) && PlannedRuns(g, f, w, ms)
    ensures Runs(f, w, ms)
    decreases |ms|
  {
    hide GroupOk, OnTree, CanDo, Can;
    if ms != [] {
      CanDoIsCan(g, f, w, ms[0]);
      PlannedRunsAreRuns(g, f, Next(f, w, ms[0]), ms[1..]);
    }
  }

  /** Before the credit, on the group's tree. */
  ghost predicate Idle(g: Group, f: L.Flow, w: World) {
    && w.tree == M.TreeOf(g.ports, map[]) && w.age == map[] && f.words <= f.width
    && w.state.misses == 0 && w.state.net == map[] && w.state.at == (map r | r in w.tree.ranks :: L.Unsent)
    && forall r, i: nat, v :: L.OnPath(w.tree, r, i, v) ==>
         v in w.state.routers && R.Valid(w.state.routers[v], f.width) && NoneOwned(f, w.state.routers[v])
  }

  lemma IdleIsReady(g: Group, f: L.Flow, w: World)
    requires GroupOk(g) && Idle(g, f, w)
    ensures OnTree(g, w) && Ready(f, w) && w.tree.ranks == Ranks(g)
  {
    hide Planned, F.WholeBlocks, L.OnPath, L.TreeOk;
    SameTreeOf(g.ports, g.n, Ranks(g), g.responder, g.root, map[]);
    PlannedParts(g);
    F.PlannedTreeOk(g.n, Ranks(g), g.responder, map[]);
  }

  lemma PlannedParts(g: Group)
    requires GroupOk(g)
    ensures g.responder < g.n <= 0x100 && Ranks(g) != {} && Ranks(g) <= F.Requesters(g.n, g.responder)
  {
  }

  /** The state a planned run ends in. */
  ghost function End(g: Group, f: L.Flow, w: World, ms: seq<Move>): World
    requires GroupOk(g) && OnTree(g, w) && PlannedRuns(g, f, w, ms)
  {
    PlannedRunsAreRuns(g, f, w, ms);
    RunFrom(f, w, ms)
  }

  /** Every lossless run of one credit in a group whose responder's mask is made of whole
      blocks, whatever the order and whatever other credits do: once nothing is left to
      send or to climb, exactly one master has reached the responder, it counts all the
      requesters in the mask, and no router has reported a miss. */
  lemma CreditComesBackWhole(g: Group, f: L.Flow, w: World, ms: seq<Move>)
    requires GroupOk(g) && OnTree(g, w) && Idle(g, f, w) && PlannedRuns(g, f, w, ms)
    requires L.Quiet(End(g, f, w, ms).state)
    ensures var s := End(g, f, w, ms).state;
            && s.misses == 0
            && exists id :: s.net.Keys == {id} && s.net[id].depth == 0 && R.Contribution(s.net[id]) == |Ranks(g)|
  {
    hide GroupOk, Ready, CanDo, Can;
    PlannedRunsAreRuns(g, f, w, ms);
    IdleIsReady(g, f, w);
    LosslessCompleteness(f, w, ms);
  }

  /** The default mask names everybody else, so there the master counts n - 1 requesters. */
  lemma DefaultGroupOk(g: Group)
    requires F.Bits(g.mask, 0) == Range(0, g.n) - {g.responder}
    requires Planned(g.ports, g.n, Ranks(g), g.responder, g.root)
    ensures GroupOk(g) && |Ranks(g)| == g.n - 1
  {
    F.DefaultPlanFits(g.n, g.mask, g.responder, map[]);
    F.RangeCount(0, g.n, g.responder);
  }

  // ---- and every run can be continued until then

  lemma {:induction false} HostArrives(ports: M.Ports, slot: map<nat, nat>, r: nat)
    requires M.Distinct(M.Hosts(ports)) && r in M.Hosts(ports) && M.Reached(ports, slot, r)
    ensures M.Arrival(r, M.SlotsOf(M.Path(ports, r), slot)) in M.Descend(ports, slot, [])
  {
    hide M.Path, M.Reached, M.Distinct;
    M.CreditReachesEachOnce(ports, slot, []);
    var i :| 0 <= i < |M.Hosts(ports)| && M.Hosts(ports)[i] == r;
    M.StackIsPath(ports, slot, [], i);
    PathSlotsAre(ports, slot, r);
    assert M.Descend(ports, slot, [])[i] == M.Arrival(r, M.SlotsOf(M.Path(ports, r), slot));
  }

  lemma LocsArrive(ports: M.Ports, t: L.Tree, f: L.Flow, r: nat)
    requires r in t.path && t.path[r] == M.Path(ports, r) && |t.path[r]| <= R.MAX_STACK_DEPTH
    requires M.Reached(ports, t.slot, r)
    ensures var q := AnswerOf(t, f, r); q.depth <= |q.locs| && q.locs[..q.depth] == M.SlotsOf(M.Path(ports, r), t.slot)
  {
    hide M.Path;
    SlotsAre(M.Path(ports, r), t.slot);
  }

  lemma FaninsPlanned(g: Group, t: L.Tree, f: L.Flow, r: nat)
    requires GroupOk(g) && t == F.PlannedTree(g.n, Ranks(g), t.slot) && r in t.path && r < g.n
    ensures var q := AnswerOf(t, f, r);
            q.depth <= |q.fanins| && q.fanins[..q.depth] == F.Plan(g.n, |Ranks(g)|, r, g.responder)
  {
    hide F.PlannedPath, F.Plan, L.Below, F.Bits, M.Path, M.Distinct, M.Rooted;
    F.PlanFitsIff(g.n, g.mask, g.responder, t.slot);
    assert F.PlanFitsRank(g.n, Ranks(g), g.responder, t.slot, r);
  }

  /** The answer that fits the tree is the planned one. */
  lemma AnswerIsPlanned(g: Group, f: L.Flow, w: World, r: nat)
    requires GroupOk(g) && OnTree(g, w) && L.TreeOk(w.tree) && r in M.Hosts(g.ports) && r < g.n
    requires r in w.tree.path && M.Reached(g.ports, w.tree.slot, r)
    ensures PlannedStack(g.ports, g.n, Ranks(g), g.responder, w.tree.slot, r, AnswerOf(w.tree, f, r))
  {
    hide F.PlannedPath, F.Plan, L.Below, F.Requesters, F.Bits, M.Path;
    SameTreeOf(g.ports, g.n, Ranks(g), g.responder, g.root, w.tree.slot);
    HostArrives(g.ports, w.tree.slot, r);
    LocsArrive(g.ports, w.tree, f, r);
    FaninsPlanned(g, w.tree, f, r);
  }

  lemma {:induction false} StaysOnTree(g: Group, f: L.Flow, w: World, ms: seq<Move>)
    requires GroupOk(g) && OnTree(g, w) && PlannedRuns(g, f, w, ms)
    ensures OnTree(g, End(g, f, w, ms))
    decreases |ms|
  {
    hide GroupOk, OnTree, CanDo, Can, Next;
    PlannedRunsAreRuns(g, f, w, ms);
    if ms != [] {
      CanDoIsCan(g, f, w, ms[0]);
      PlannedRunsAreRuns(g, f, Next(f, w, ms[0]), ms[1..]);
      StaysOnTree(g, f, Next(f, w, ms[0]), ms[1..]);
    }
  }

  /** A requester that can answer at all can give the planned answer. */
  lemma PlannedAnswerPossible(g: Group, f: L.Flow, w: World, ev: L.Event)
    requires GroupOk(g) && OnTree(g, w) && L.Inv(w.tree, f, w.state) && ev.Sends? && L.Enabled(w.tree, f, w.state, ev)
    ensures CanDo(g, f, w, Does(L.Sends(ev.rank, ev.id, AnswerOf(w.tree, f, ev.rank))))
  {
    hide L.PacketsOk, L.PlacesOk, L.NodesOk, L.TreeOk, L.OnPath;
    var t, r := w.tree, ev.rank;
    forall v | v in t.path[r] ensures v in t.slot {
      var i :| 0 <= i < |t.path[r]| && t.path[r][i] == v;
    }
    CanAnswer(t, f, w.state, r, ev.id);
    SameTreeOf(g.ports, g.n, Ranks(g), g.responder, g.root, t.slot);
    assert r in Ranks(g) && Ranks(g) <= F.Requesters(g.n, g.responder);
    AnswerIsPlanned(g, f, w, r);
  }

  /** At any point of any planned run that is not quiet yet, the credit can reach another
      router, a requester can give its planned answer, or an answer can climb. */
  lemma PlannedNeverStuck(g: Group, f: L.Flow, w: World, ms: seq<Move>)
    requires GroupOk(g) && OnTree(g, w) && Idle(g, f, w) && PlannedRuns(g, f, w, ms)
    requires !L.Quiet(End(g, f, w, ms).state)
    ensures exists m: Move :: !m.Traffic? && CanDo(g, f, End(g, f, w, ms), m)
  {
    hide GroupOk, Ready, OnTree, CanDo, Can, RoutersOk, SlotsOnPath, L.Inv, L.Enabled;
    PlannedRunsAreRuns(g, f, w, ms);
    IdleIsReady(g, f, w);
    NeverStuck(f, w, ms);
    ReadyHolds(f, w);
    RunKeeps(f, w, ms);
    StaysOnTree(g, f, w, ms);
    var end := End(g, f, w, ms);
    var m: Move :| !m.Traffic? && Can(f, end, m);
    OwnMovePlanned(g, f, end, m);
  }

  lemma OwnMovePlanned(g: Group, f: L.Flow, w: World, m: Move)
    requires GroupOk(g) && OnTree(g, w) && L.Inv(w.tree, f, w.state) && !m.Traffic? && Can(f, w, m)
    ensures exists m': Move :: !m'.Traffic? && CanDo(g, f, w, m')
  {
    hide GroupOk, OnTree, L.Inv, L.Enabled, Answers, CanReach;
    if m.Does? && m.event.Sends? {
      PlannedAnswerPossible(g, f, w, m.event);
    } else {
      assert CanDo(g, f, w, m);
    }
  }
}
