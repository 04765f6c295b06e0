/** The generative trajectory-based BIRL estimator (GTBIRL).
    It seeds a trajectory history with the expert demonstrations, then runs a
    fixed number of rounds: derive the next reward from the history, re-weight
    the control graph with it, run policy iteration, and append the
    trajectories the new policy generates. It also scores expert and
    generated trajectories with the discounted quality of module GraphQuality.
    The control-graph operations and the two steps a concrete BIRL variant
    supplies are collaborators whose code is not part of this model; they are
    function-valued parameters fixed at construction. */
module Estimator {

  import opened GraphQuality
  import Priors

  type Reward = seq<real>
  type Trajectory = seq<Node>
  type TrajectorySet = seq<Trajectory>

  /** The control-graph representation `self._rep`: its graph and the
      discount factor of its MDP. */
  datatype Rep = Rep(graph: Graph, gamma: real)

  /** What the estimator asks of the representation:
      `rep.update_rewards(reward)` (a new representation),
      `graph_policy_iteration(graph, gamma)` (re-annotates the graph's `pi`),
      `rep.find_best_policies()` (the trajectories of the current policy). */
  datatype GraphOps = GraphOps(
    updateRewards: (Rep, Reward) -> Rep,
    policyIteration: (Graph, real) -> Graph,
    findBestPolicies: Rep -> TrajectorySet)

  /** The two steps a concrete BIRL variant supplies:
      `initialize_reward()` and `find_next_reward(g_trajs)`. */
  datatype Solver = Solver(
    initializeReward: Reward,
    findNextReward: (Rep, seq<TrajectorySet>) -> Reward)

  /** The representation after `_compute_policy(reward)`: the updated
      representation, whose own graph policy iteration then re-annotates. */
  function PolicyStep(ops: GraphOps, rep: Rep, reward: Reward): Rep
  {
    var updated := ops.updateRewards(rep, reward);
    updated.(graph := ops.policyIteration(updated.graph, updated.gamma))
  }

  /** The estimator's state between rounds: the current reward, the current
      representation and the trajectory history `g_trajs`. */
  datatype Snapshot = Snapshot(reward: Reward, rep: Rep, history: seq<TrajectorySet>)

  /** Before the first round: the initial reward and the history holding
      only the demonstrations. */
  function Start(solver: Solver, rep: Rep, demos: TrajectorySet): Snapshot
  {
    Snapshot(solver.initializeReward, rep, [demos])
  }

  /** One round of the loop body of `solve`. */
  function Round(ops: GraphOps, solver: Solver, s: Snapshot): Snapshot
  {
    var reward := solver.findNextReward(s.rep, s.history);
    var rep := PolicyStep(ops, s.rep, reward);
    Snapshot(reward, rep, s.history + [ops.findBestPolicies(rep)])
  }

  /** k rounds from s. */
  function Rounds(ops: GraphOps, solver: Solver, s: Snapshot, k: nat): Snapshot
  {
    if k == 0 then s else Round(ops, solver, Rounds(ops, solver, s, k - 1))
  }

  /** Each round appends exactly one trajectory set, keeps everything already
      in the history, and the set it appends is what the policy of the
      representation of that round generates. */
  lemma {:induction false} RoundsHistory(ops: GraphOps, solver: Solver, s: Snapshot, k: nat)
    ensures |Rounds(ops, solver, s, k).history| == |s.history| + k
    ensures Rounds(ops, solver, s, k).history[..|s.history|] == s.history
    ensures forall j :: |s.history| <= j < |s.history| + k ==>
      Rounds(ops, solver, s, k).history[j] ==
      ops.findBestPolicies(Rounds(ops, solver, s, j - |s.history| + 1).rep)
  {
    if k > 0 {
      RoundsHistory(ops, solver, s, k - 1);
      var before := Rounds(ops, solver, s, k - 1).history;
      var after := Rounds(ops, solver, s, k).history;
      assert after == before + [ops.findBestPolicies(Rounds(ops, solver, s, k).rep)];
      assert after[..|s.history|] == before[..|s.history|];
    }
  }

  /** Running j rounds and then k more is running j + k rounds, so a later
      history always extends an earlier one: no history is discarded. */
  lemma {:induction false} RoundsCompose(ops: GraphOps, solver: Solver, s: Snapshot, j: nat, k: nat)
    ensures Rounds(ops, solver, Rounds(ops, solver, s, j), k) == Rounds(ops, solver, s, j + k)
  {
    if k > 0 {
      RoundsCompose(ops, solver, s, j, k - 1);
    }
  }

  /** What `solve` returns: the initial reward when there are no rounds,
      otherwise the reward of the last round, which the variant derived from
      the representation and history left by the round before. */
  lemma SolveReward(ops: GraphOps, solver: Solver, rep: Rep, demos: TrajectorySet, k: nat)
    ensures k == 0 ==> Rounds(ops, solver, Start(solver, rep, demos), k) == Start(solver, rep, demos)
    ensures k > 0 ==>
      var before := Rounds(ops, solver, Start(solver, rep, demos), k - 1);
      Rounds(ops, solver, Start(solver, rep, demos), k).reward == solver.findNextReward(before.rep, before.history)
  {
  }

  /** The history of a solve starts with the demonstrations and then holds one
      generated set per round: max_iter + 1 entries in all. */
  lemma SolveHistory(ops: GraphOps, solver: Solver, rep: Rep, demos: TrajectorySet, k: nat)
    ensures |Rounds(ops, solver, Start(solver, rep, demos), k).history| == k + 1
    ensures Rounds(ops, solver, Start(solver, rep, demos), k).history[0] == demos
  {
    RoundsHistory(ops, solver, Start(solver, rep, demos), k);
  }

  /** How many rounds `range(max_iter)` runs: none for a negative max_iter. */
  function RoundCount(maxIter: int): nat
  {
    if maxIter < 0 then 0 else maxIter
  }

  /** All trajectories of a set can be scored on graph g with a reward of
      dimension dim. */
  predicate SetReady(g: Graph, dim: nat, trajs: TrajectorySet)
  {
    forall k :: 0 <= k < |trajs| ==> TrajectoryReady(g, dim, trajs[k])
  }

  predicate HistoryReady(g: Graph, dim: nat, history: seq<TrajectorySet>)
  {
    forall i :: 0 <= i < |history| ==> SetReady(g, dim, history[i])
  }

  /** The qualities of a set of trajectories, in order. */
  function SetQuality(g: Graph, gamma: real, w: Reward, trajs: TrajectorySet): (qs: seq<real>)
    requires SetReady(g, |w|, trajs)
    ensures |qs| == |trajs|
  {
    seq(|trajs|, k requires 0 <= k < |trajs| => Quality(g, gamma, w, trajs[k]))
  }

  /** The qualities of every set of a history, one list per set. */
  function HistoryQuality(g: Graph, gamma: real, w: Reward, history: seq<TrajectorySet>): (qss: seq<seq<real>>)
    requires HistoryReady(g, |w|, history)
    ensures |qss| == |history|
  {
    seq(|history|, i requires 0 <= i < |history| => SetQuality(g, gamma, w, history[i]))
  }

  /** Generated and expert trajectories are scored by one formula: the entry
      of the seed of a history is exactly the expert quality of the
      demonstrations, and scoring a history set by set agrees with scoring
      it as a whole. */
  lemma {:induction false} SeedIsExpertQuality(g: Graph, gamma: real, w: Reward, demos: TrajectorySet, rest: seq<TrajectorySet>)
    requires SetReady(g, |w|, demos) && HistoryReady(g, |w|, rest)
    ensures HistoryReady(g, |w|, [demos] + rest)
    ensures HistoryQuality(g, gamma, w, [demos] + rest) ==
      [SetQuality(g, gamma, w, demos)] + HistoryQuality(g, gamma, w, rest)
  {
    var h := [demos] + rest;
    assert forall i :: 0 <= i < |rest| ==> h[i + 1] == rest[i];
    assert HistoryReady(g, |w|, h) by {
      forall i | 0 <= i < |h| ensures SetReady(g, |w|, h[i]) {
        if i > 0 { assert h[i] == rest[i - 1]; }
      }
    }
  }

  class GTBIRL {
    const demos: TrajectorySet
    const prior: Priors.RewardPrior
    const solver: Solver
    const ops: GraphOps
    const maxIter: int
    /** Expert optimality (softmax temperature); stored for the variants. */
    const beta: real
    /** The control-graph representation, replaced by every `_compute_policy`. */
    var rep: Rep
    /** How often `find_next_reward` and `_compute_policy` have run. */
    ghost var nextRewardCalls: nat
    ghost var policyCalls: nat

    constructor (demos: TrajectorySet, cg: Rep, prior: Priors.RewardPrior, solver: Solver, ops: GraphOps,
                 beta: real := 0.7, maxIter: int := 10)
      ensures this.demos == demos && rep == cg && this.prior == prior
      ensures this.solver == solver && this.ops == ops && this.maxIter == maxIter && this.beta == beta
      ensures nextRewardCalls == 0 && policyCalls == 0
    {
      this.demos := demos;
      this.prior := prior;
      this.solver := solver;
      this.ops := ops;
      this.maxIter := maxIter;
      this.beta := beta;
      rep := cg;
      nextRewardCalls, policyCalls := 0, 0;
    }

    /** `find_next_reward(g_trajs)`, as the variant defines it. */
    method FindNextReward(gTrajs: seq<TrajectorySet>) returns (reward: Reward)
      modifies this`nextRewardCalls
      ensures reward == solver.findNextReward(rep, gTrajs)
      ensures nextRewardCalls == old(nextRewardCalls) + 1
    {
      reward := solver.findNextReward(rep, gTrajs);
      nextRewardCalls := nextRewardCalls + 1;
    }

    /** `_compute_policy(reward)`: first replace the representation by its
        reward update, then run policy iteration on the new one's graph. */
    method ComputePolicy(reward: Reward)
      modifies this`rep, this`policyCalls
      ensures rep == PolicyStep(ops, old(rep), reward)
      ensures rep.gamma == ops.updateRewards(old(rep), reward).gamma
      ensures policyCalls == old(policyCalls) + 1
    {
      rep := ops.updateRewards(rep, reward);
      rep := rep.(graph := ops.policyIteration(rep.graph, rep.gamma));
      policyCalls := policyCalls + 1;
    }

    /** `solve`: exactly maxIter rounds (none when maxIter is negative) from the initial reward and the
        demonstrations; returns the last reward. `gTrajs` is the history the
        loop builds. */
    method Solve() returns (reward: Reward, ghost gTrajs: seq<TrajectorySet>)
      modifies this`rep, this`nextRewardCalls, this`policyCalls
      ensures Snapshot(reward, rep, gTrajs) == Rounds(ops, solver, Start(solver, old(rep), demos), RoundCount(maxIter))
      ensures |gTrajs| == RoundCount(maxIter) + 1 && gTrajs[0] == demos
      ensures maxIter <= 0 ==> reward == solver.initializeReward && rep == old(rep) && gTrajs == [demos]
      ensures nextRewardCalls == old(nextRewardCalls) + RoundCount(maxIter)
      ensures policyCalls == old(policyCalls) + RoundCount(maxIter)
    {
      reward := solver.initializeReward;
      var history := [demos];
      for iteration := 0 to RoundCount(maxIter)
        invariant Snapshot(reward, rep, history) == Rounds(ops, solver, Start(solver, old(rep), demos), iteration)
        invariant nextRewardCalls == old(nextRewardCalls) + iteration
        invariant policyCalls == old(policyCalls) + iteration
      {
        reward := FindNextReward(history);
        ComputePolicy(reward);
        var trajs := ops.findBestPolicies(rep);
        history := history + [trajs];
      }
      gTrajs := history;
      SolveHistory(ops, solver, old(rep), demos, RoundCount(maxIter));
    }

    /** `_expert_trajectory_quality(reward)`: one quality per demonstration,
        on the current graph, which is only read. */
    method ExpertTrajectoryQuality(reward: Reward) returns (qes: seq<real>)
      requires SetReady(rep.graph, |reward|, demos)
      ensures qes == SetQuality(rep.graph, rep.gamma, reward, demos)
    {
      var g, gamma := rep.graph, rep.gamma;
      qes := [];
      for k := 0 to |demos|
        invariant |qes| == k
        invariant forall j :: 0 <= j < k ==> qes[j] == Quality(g, gamma, reward, demos[j])
      {
        var qe := TrajectoryQuality(g, gamma, reward, demos[k]);
        qes := qes + [qe];
      }
    }

    /** `_generated_trajectory_quality(reward, g_trajs)`: one list per
        trajectory set, one quality per trajectory, by the same formula as
        for the demonstrations. */
    method GeneratedTrajectoryQuality(reward: Reward, gTrajs: seq<TrajectorySet>) returns (qpiv: seq<seq<real>>)
      requires HistoryReady(rep.graph, |reward|, gTrajs)
      ensures qpiv == HistoryQuality(rep.graph, rep.gamma, reward, gTrajs)
    {
      var g, gamma := rep.graph, rep.gamma;
      qpiv := [];
      for i := 0 to |gTrajs|
        invariant |qpiv| == i
        invariant forall l :: 0 <= l < i ==> qpiv[l] == SetQuality(g, gamma, reward, gTrajs[l])
      {
        var qpis := [];
        for j := 0 to |gTrajs[i]|
          invariant |qpis| == j
          invariant forall m :: 0 <= m < j ==> qpis[m] == Quality(g, gamma, reward, gTrajs[i][m])
        {
          var qpi := TrajectoryQuality(g, gamma, reward, gTrajs[i][j]);
          qpis := qpis + [qpi];
        }
        qpiv := qpiv + [qpis];
      }
    }
  }
}
