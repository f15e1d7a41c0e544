/** The messages of a plan occupy consecutive, disjoint blocks of sequence numbers. */
module HostPlan {
  import opened Prelude
  import opened HostModel

  lemma {:induction false} StartMonotone(plan: seq<Desc>, i: nat, j: nat)
    requires i < j <= |plan|
    ensures Start(plan, i) + plan[i].total <= Start(plan, j)
  {
    if i + 1 < j {
      StartMonotone(plan, i, j - 1);
    }
  }

  /** Distinct messages of the plan start at distinct offsets and do not overlap. */
  lemma PlanDisjoint(env: Env, i: nat, j: nat, o: nat)
    requires EnvOk(env) && i < |env.plan| && j < |env.plan|
    requires Covers(Start(env.plan, i), env.plan[i].total, o) && Covers(Start(env.plan, j), env.plan[j].total, o)
    ensures i == j
  {
    if i < j { StartMonotone(env.plan, i, j); }
    if j < i { StartMonotone(env.plan, j, i); }
  }

  lemma PlanStartsDistinct(env: Env, i: nat, j: nat)
    requires EnvOk(env) && i < |env.plan| && j < |env.plan| && Start(env.plan, i) == Start(env.plan, j)
    ensures i == j
  {
    PlanDisjoint(env, i, j, Start(env.plan, i));
  }

  lemma {:induction false} PlanCovers(plan: seq<Desc>, n: nat, o: nat) returns (i: nat)
    requires n <= |plan| && o < Start(plan, n)
    ensures i < n && Covers(Start(plan, i), plan[i].total, o)
  {
    if o < Start(plan, n - 1) {
      i := PlanCovers(plan, n - 1, o);
    } else {
      i := n - 1;
    }
  }
}
