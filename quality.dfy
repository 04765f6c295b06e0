/** Trajectory quality: the discounted return of a trajectory of graph nodes
    under a reward-weight vector, read off the policy annotations of the
    control graph.
    The graph is a value: for every node its list of out-edges and its `pi`
    annotation (the index of the edge the policy takes), for every edge its
    feature vector `phi` and its `duration`. Durations are natural numbers,
    so the discount gamma^time is an exact power. */
module GraphQuality {

  type Node = nat

  /** A directed edge `(e[0], e[1])`. */
  datatype Edge = Edge(source: Node, target: Node)

  datatype Graph = Graph(
    outEdges: map<Node, seq<Edge>>,
    pi: map<Node, int>,
    phi: map<Edge, seq<real>>,
    duration: map<Edge, nat>)

  /** The reward a trajectory collects when it reaches a terminal node. */
  const TerminalReward: real := 100.0

  /** `gamma ** time` for a natural-number time. */
  function Pow(gamma: real, n: nat): real
  {
    if n == 0 then 1.0 else gamma * Pow(gamma, n - 1)
  }

  /** `np.dot` of two vectors of the same length. */
  function Dot(w: seq<real>, v: seq<real>): real
    requires |w| == |v|
  {
    if |w| == 0 then 0.0 else w[0] * v[0] + Dot(w[1..], v[1..])
  }

  /** Python list indexing, where a negative index counts from the end. */
  function PyIndex<T>(s: seq<T>, k: int): (x: T)
    requires -|s| <= k < |s|
    ensures x in s
  {
    if k < 0 then s[|s| + k] else s[k]
  }

  /** The node is in the graph, and if it has out-edges its `pi` annotation
      picks one of them, whose features have the reward's dimension and whose
      duration is known. */
  predicate NodeReady(g: Graph, dim: nat, n: Node)
  {
    n in g.outEdges &&
    (|g.outEdges[n]| > 0 ==>
      n in g.pi && -|g.outEdges[n]| <= g.pi[n] < |g.outEdges[n]| &&
      var e := PyIndex(g.outEdges[n], g.pi[n]);
      e in g.phi && e in g.duration && |g.phi[e]| == dim)
  }

  predicate TrajectoryReady(g: Graph, dim: nat, traj: seq<Node>)
  {
    forall k :: 0 <= k < |traj| ==> NodeReady(g, dim, traj[k])
  }

  predicate Terminal(g: Graph, n: Node)
    requires n in g.outEdges
  {
    |g.outEdges[n]| == 0
  }

  /** `actions[G.gna(n, 'pi')]`: the out-edge the policy takes at n. */
  function Selected(g: Graph, dim: nat, n: Node): (e: Edge)
    requires NodeReady(g, dim, n) && !Terminal(g, n)
    ensures e in g.outEdges[n] && e in g.phi && e in g.duration && |g.phi[e]| == dim
  {
    PyIndex(g.outEdges[n], g.pi[n])
  }

  /** What node n adds to the quality when reached at elapsed time t. */
  function NodeValue(g: Graph, gamma: real, w: seq<real>, n: Node, t: nat): real
    requires NodeReady(g, |w|, n)
  {
    if Terminal(g, n) then Pow(gamma, t) * TerminalReward
    else Pow(gamma, t) * Dot(w, g.phi[Selected(g, |w|, n)])
  }

  /** How far node n advances the elapsed time. */
  function NodeDuration(g: Graph, dim: nat, n: Node): nat
    requires NodeReady(g, dim, n)
  {
    if Terminal(g, n) then 0 else g.duration[Selected(g, dim, n)]
  }

  lemma ReadySuffix(g: Graph, dim: nat, traj: seq<Node>, k: nat)
    requires TrajectoryReady(g, dim, traj) && k <= |traj|
    ensures TrajectoryReady(g, dim, traj[k..])
  {
    forall j | 0 <= j < |traj[k..]| ensures NodeReady(g, dim, traj[k..][j]) {
      assert traj[k..][j] == traj[k + j];
    }
  }

  /** Quality of a trajectory whose first node is reached at elapsed time t. */
  function QualityFrom(g: Graph, gamma: real, w: seq<real>, traj: seq<Node>, t: nat): real
    requires TrajectoryReady(g, |w|, traj)
    decreases |traj|
  {
    if |traj| == 0 then 0.0
    else
      ReadySuffix(g, |w|, traj, 1);
      NodeValue(g, gamma, w, traj[0], t) +
      QualityFrom(g, gamma, w, traj[1..], t + NodeDuration(g, |w|, traj[0]))
  }

  /** Total time a trajectory advances the clock. */
  function Elapsed(g: Graph, dim: nat, traj: seq<Node>): nat
    requires TrajectoryReady(g, dim, traj)
    decreases |traj|
  {
    if |traj| == 0 then 0
    else
      ReadySuffix(g, dim, traj, 1);
      NodeDuration(g, dim, traj[0]) + Elapsed(g, dim, traj[1..])
  }

  /** Quality of a whole trajectory, started at time 0. */
  function Quality(g: Graph, gamma: real, w: seq<real>, traj: seq<Node>): real
    requires TrajectoryReady(g, |w|, traj)
  {
    QualityFrom(g, gamma, w, traj, 0)
  }

  /** The inner loop of `_expert_trajectory_quality` and
      `_generated_trajectory_quality`: walks the trajectory once, accumulating
      the discounted value of each node and advancing the elapsed time. */
  method TrajectoryQuality(g: Graph, gamma: real, w: seq<real>, traj: seq<Node>) returns (q: real)
    requires TrajectoryReady(g, |w|, traj)
    ensures q == Quality(g, gamma, w, traj)
  {
    var time: nat := 0;
    q := 0.0;
    for k := 0 to |traj|
      invariant TrajectoryReady(g, |w|, traj[k..])
      invariant q + QualityFrom(g, gamma, w, traj[k..], time) == Quality(g, gamma, w, traj)
    {
      var n := traj[k];
      assert traj[k..][0] == n && traj[k..][1..] == traj[k + 1..];
      ReadySuffix(g, |w|, traj, k + 1);
      var actions := g.outEdges[n];
      if |actions| > 0 {
        var e := PyIndex(actions, g.pi[n]);
        var r := Dot(w, g.phi[e]);
        q := q + Pow(gamma, time) * r;
        time := time + g.duration[e];
      } else {
        q := q + Pow(gamma, time) * TerminalReward;
      }
    }
    assert traj[|traj|..] == [];
  }

  /** Quality is additive along a trajectory: the second part is discounted
      from the time the first part ends. Each node contributes through its own
      `pi`-selected edge, whatever node follows it in the trajectory, and a
      terminal node in the middle neither stops the walk nor advances time. */
  lemma {:induction false} QualitySplit(g: Graph, gamma: real, w: seq<real>, a: seq<Node>, b: seq<Node>, t: nat)
    requires TrajectoryReady(g, |w|, a) && TrajectoryReady(g, |w|, b)
    ensures TrajectoryReady(g, |w|, a + b)
    ensures QualityFrom(g, gamma, w, a + b, t) ==
            QualityFrom(g, gamma, w, a, t) + QualityFrom(g, gamma, w, b, t + Elapsed(g, |w|, a))
  {
    assert TrajectoryReady(g, |w|, a + b) by {
      forall k | 0 <= k < |a + b| ensures NodeReady(g, |w|, (a + b)[k]) {
        if k < |a| { assert (a + b)[k] == a[k]; } else { assert (a + b)[k] == b[k - |a|]; }
      }
    }
    if |a| > 0 {
      ReadySuffix(g, |w|, a, 1);
      assert (a + b)[1..] == a[1..] + b;
      QualitySplit(g, gamma, w, a[1..], b, t + NodeDuration(g, |w|, a[0]));
    } else {
      assert a + b == b;
    }
  }

  /** The base cases: an empty trajectory scores 0, a lone terminal node
      scores the terminal reward undiscounted, and a non-terminal node followed
      by a terminal one scores its edge reward plus the terminal reward
      discounted by that edge's duration. */
  lemma ShortTrajectories(g: Graph, gamma: real, w: seq<real>, a: Node, b: Node)
    requires NodeReady(g, |w|, a) && NodeReady(g, |w|, b) && Terminal(g, b)
    ensures Quality(g, gamma, w, []) == 0.0
    ensures Quality(g, gamma, w, [b]) == TerminalReward
    ensures !Terminal(g, a) ==>
      Quality(g, gamma, w, [a, b]) ==
      Dot(w, g.phi[Selected(g, |w|, a)]) + Pow(gamma, g.duration[Selected(g, |w|, a)]) * TerminalReward
  {
    assert [a, b][1..] == [b];
    assert [b][1..] == [];
    assert Quality(g, gamma, w, [b]) == Pow(gamma, 0) * TerminalReward + QualityFrom(g, gamma, w, [], 0);
    if !Terminal(g, a) {
      var e := Selected(g, |w|, a);
      calc {
        Quality(g, gamma, w, [a, b]);
        NodeValue(g, gamma, w, a, 0) + QualityFrom(g, gamma, w, [b], g.duration[e]);
        Pow(gamma, 0) * Dot(w, g.phi[e]) + (Pow(gamma, g.duration[e]) * TerminalReward + QualityFrom(g, gamma, w, [], g.duration[e]));
      }
    }
  }

  /** A three-node chain S -> A -> T with T terminal, features [1, 0] and
      [0, 1], unit durations, gamma = 0.9 and weights [1, 1]:
      1 + 0.9 * 1 + 0.9^2 * 100 = 82.9. */
  lemma ChainExample()
    ensures var g := Graph(
        map[0 := [Edge(0, 1)], 1 := [Edge(1, 2)], 2 := []],
        map[0 := 0, 1 := 0],
        map[Edge(0, 1) := [1.0, 0.0], Edge(1, 2) := [0.0, 1.0]],
        map[Edge(0, 1) := 1, Edge(1, 2) := 1]);
      TrajectoryReady(g, 2, [0, 1, 2]) && Quality(g, 0.9, [1.0, 1.0], [0, 1, 2]) == 82.9
  {
    var g := Graph(
        map[0 := [Edge(0, 1)], 1 := [Edge(1, 2)], 2 := []],
        map[0 := 0, 1 := 0],
        map[Edge(0, 1) := [1.0, 0.0], Edge(1, 2) := [0.0, 1.0]],
        map[Edge(0, 1) := 1, Edge(1, 2) := 1]);
    var w := [1.0, 1.0];
    assert NodeReady(g, 2, 0) && NodeReady(g, 2, 1) && NodeReady(g, 2, 2);
    assert TrajectoryReady(g, 2, [0, 1, 2]);
    assert [0, 1, 2][1..] == [1, 2] && [1, 2][1..] == [2] && [2][1..] == [];
    assert NodeValue(g, 0.9, w, 0, 0) == 1.0;
    assert NodeValue(g, 0.9, w, 1, 1) == 0.9;
    assert NodeValue(g, 0.9, w, 2, 2) == 81.0;
  }
}
