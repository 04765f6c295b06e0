/** The PolicyWalk MCMC proposal: a random walk in reward-weight space that
    moves one coordinate by +delta or -delta, and in bounded mode rejects a
    move that would leave [-1, 1] and draws again.
    The random choices (`choice` of the sign, `randint` of the coordinate)
    are an explicit sequence of draws, so the rejection loop becomes
    deterministic; it has no retry cap, and running out of draws is reported
    as its own outcome. */
module Proposal {

  datatype Option<T> = None | Some(value: T)

  /** PolicyWalkProposal's configuration: dimension, step size, boundedness. */
  datatype PolicyWalkProposal = PolicyWalkProposal(dim: nat, delta: real, bounded: bool)

  /** One pass of the loop's random choices: the sign picked by
      `choice([-delta, delta])` and the coordinate picked by `randint(dim)`. */
  datatype Draw = Draw(positive: bool, index: nat)

  /** The new point and how many draws the loop consumed, or the draws ran
      out before a move was accepted (the source would keep drawing). */
  datatype Outcome = Proposed(loc: seq<real>, used: nat) | DrawsExhausted

  /** Bounds of the box the bounded proposal keeps the moved coordinate in. */
  const Lower: real := -1.0
  const Upper: real := 1.0

  function StepOf(p: PolicyWalkProposal, d: Draw): (step: real)
    ensures step == p.delta || step == -p.delta
  {
    if d.positive then p.delta else -p.delta
  }

  /** `randint(dim)` only yields coordinates below dim. */
  predicate ValidDraws(p: PolicyWalkProposal, draws: seq<Draw>)
  {
    forall k :: 0 <= k < |draws| ==> draws[k].index < p.dim
  }

  predicate InBox(x: real)
  {
    Lower <= x <= Upper
  }

  /** Whether the loop accepts a draw against the vector x: always when
      unbounded, and when bounded only if the moved coordinate stays in the box. */
  predicate Accepts(p: PolicyWalkProposal, x: seq<real>, d: Draw)
    requires d.index < |x|
  {
    !p.bounded || InBox(x[d.index] + StepOf(p, d))
  }

  /** Index of the first accepted draw. A rejected draw changes nothing, so
      every draw is judged against the original point. */
  function FirstAccepted(p: PolicyWalkProposal, x: seq<real>, draws: seq<Draw>): (k: Option<nat>)
    requires ValidDraws(p, draws) && p.dim <= |x|
    ensures k.Some? ==> k.value < |draws| && Accepts(p, x, draws[k.value])
    ensures k.Some? ==> forall j :: 0 <= j < k.value ==> !Accepts(p, x, draws[j])
    ensures k.None? ==> forall j :: 0 <= j < |draws| ==> !Accepts(p, x, draws[j])
  {
    if |draws| == 0 then None
    else if Accepts(p, x, draws[0]) then Some(0)
    else
      match FirstAccepted(p, x, draws[1..])
      case None => None
      case Some(k) => Some(k + 1)
  }

  /** What PolicyWalkProposal.__call__ returns for the point x and the draws:
      x with exactly the coordinate of the first accepted draw moved by that
      draw's step, all other coordinates as they were. */
  function ProposalOf(p: PolicyWalkProposal, x: seq<real>, draws: seq<Draw>): (o: Outcome)
    requires ValidDraws(p, draws) && p.dim <= |x|
    ensures o.DrawsExhausted? <==> forall j :: 0 <= j < |draws| ==> !Accepts(p, x, draws[j])
    ensures o.Proposed? ==>
      0 < o.used <= |draws| && |o.loc| == |x| &&
      var d := draws[o.used - 1];
      FirstAccepted(p, x, draws) == Some(o.used - 1) &&
      o.loc == x[d.index := x[d.index] + StepOf(p, d)] &&
      (forall j :: 0 <= j < o.used - 1 ==> !Accepts(p, x, draws[j])) &&
      (o.loc[d.index] == x[d.index] + p.delta || o.loc[d.index] == x[d.index] - p.delta) &&
      (forall j :: 0 <= j < |x| && j != d.index ==> o.loc[j] == x[j]) &&
      (p.bounded ==> InBox(o.loc[d.index]))
  {
    match FirstAccepted(p, x, draws)
    case None => DrawsExhausted
    case Some(k) => Proposed(x[draws[k].index := x[draws[k].index] + StepOf(p, draws[k])], k + 1)
  }

  /** PolicyWalkProposal.__call__. `loc` is only read: the walk works on a
      fresh copy of it. */
  method Propose(p: PolicyWalkProposal, loc: array<real>, draws: seq<Draw>) returns (o: Outcome)
    requires 1 <= p.dim <= loc.Length && ValidDraws(p, draws)
    ensures o == ProposalOf(p, loc[..], draws)
  {
    var newLoc := new real[loc.Length];
    forall j | 0 <= j < loc.Length {
      newLoc[j] := loc[j];
    }
    var changed := false;
    var n := 0;
    while !changed
      invariant n <= |draws|
      invariant !changed ==> newLoc[..] == loc[..]
      invariant !changed ==> forall j :: 0 <= j < n ==> !Accepts(p, loc[..], draws[j])
      invariant changed ==> ProposalOf(p, loc[..], draws) == Proposed(newLoc[..], n)
      decreases |draws| - n
    {
      if n == |draws| {
        return DrawsExhausted;
      }
      var d := draws[n];
      var step := StepOf(p, d);
      var i := d.index;
      n := n + 1;
      if p.bounded {
        if Lower <= newLoc[i] + step <= Upper {
          newLoc[i] := newLoc[i] + step;
          changed := true;
        }
      } else {
        newLoc[i] := newLoc[i] + step;
        changed := true;
      }
    }
    o := Proposed(newLoc[..], n);
  }

  /** Unbounded mode applies the first draw: the loop runs exactly once. */
  lemma UnboundedTakesFirstDraw(p: PolicyWalkProposal, x: seq<real>, draws: seq<Draw>)
    requires !p.bounded && ValidDraws(p, draws) && p.dim <= |x| && |draws| > 0
    ensures ProposalOf(p, x, draws) ==
      Proposed(x[draws[0].index := x[draws[0].index] + StepOf(p, draws[0])], 1)
  {
  }

  /** Bounded mode checks only the coordinate it moves: a point inside the box
      stays inside it, and any other coordinate keeps its old value. */
  lemma BoundedStaysInBox(p: PolicyWalkProposal, x: seq<real>, draws: seq<Draw>)
    requires p.bounded && ValidDraws(p, draws) && p.dim <= |x|
    requires forall j :: 0 <= j < |x| ==> InBox(x[j])
    ensures ProposalOf(p, x, draws).Proposed? ==>
      forall j :: 0 <= j < |x| ==> InBox(ProposalOf(p, x, draws).loc[j])
  {
  }

  /** The liveness risk of the rejection loop: in bounded mode, with a step
      wider than the box, every draw is rejected for a point in the box, so
      the source's loop would never end whatever the random choices. */
  lemma {:induction false} BoundedWideStepNeverMoves(p: PolicyWalkProposal, x: seq<real>, draws: seq<Draw>)
    requires p.bounded && p.delta > Upper - Lower && ValidDraws(p, draws) && p.dim <= |x|
    requires forall j :: 0 <= j < |x| ==> InBox(x[j])
    ensures ProposalOf(p, x, draws) == DrawsExhausted
  {
    forall j | 0 <= j < |draws| ensures !Accepts(p, x, draws[j]) {
      assert InBox(x[draws[j].index]);
    }
  }

  /** With a step no wider than half the box, a point in the box can always
      move in one of the two directions, so a draw of that coordinate with the
      sign pointing towards 0 is accepted and the loop stops there or before. */
  lemma {:induction false} BoundedNarrowStepMoves(p: PolicyWalkProposal, x: seq<real>, draws: seq<Draw>, k: nat)
    requires p.bounded && 0.0 <= p.delta <= Upper && ValidDraws(p, draws) && p.dim <= |x|
    requires forall j :: 0 <= j < |x| ==> InBox(x[j])
    requires k < |draws| && draws[k].positive == (x[draws[k].index] < 0.0)
    ensures ProposalOf(p, x, draws).Proposed? && ProposalOf(p, x, draws).used <= k + 1
  {
    assert Accepts(p, x, draws[k]);
  }
}
