# Bayesian IRL core of `sirl` in Dafny

This project models the Bayesian inverse-reinforcement-learning machinery in
`sirl/algorithms/birl/base.py` and proves its properties:

- **Reward priors** (`UniformRewardPrior`, `GaussianRewardPrior`,
  `LaplacianRewardPrior`, module `Priors` in `priors.dfy`). Each prior turns a
  batch of reward values into a probability vector. It builds one non-zero
  weight of a single sign per value and divides the weights by their sum.
  `exp` and the constant sqrt(2π) are parameters: `exp` is any positive
  function and sqrt(2π) any positive real.
- **The PolicyWalk MCMC proposal** (module `Proposal` in `proposal.dfy`). This
  is the rejection loop of `PolicyWalkProposal.__call__` over a copied
  `array<real>`. The random `choice`/`randint` results come in as an explicit
  sequence of draws. The method is proved equal to a specification function,
  `ProposalOf`.
- **Trajectory quality** (module `GraphQuality` in `quality.dfy`). This is the
  discounted return that `_expert_trajectory_quality` and
  `_generated_trajectory_quality` compute for each trajectory. The control
  graph is a value made of maps:
  - node → out-edge list;
  - node → `pi` index;
  - edge → `phi` features;
  - edge → duration.

  The per-trajectory loop is proved equal to the recursive function
  `Quality`.
- **The GTBIRL estimator** (module `Estimator` in `gtbirl.dfy`). `GTBIRL` is a
  class whose mutable field is the control-graph representation `rep`. Its
  collaborators are values of arrow type fixed at construction:
  - `update_rewards`;
  - `graph_policy_iteration`;
  - `find_best_policies`;
  - `initialize_reward`;
  - `find_next_reward`.

  `Solve` is proved to reach the state `Rounds(…, maxIter)` of a pure round
  function. Two ghost counters record how often `find_next_reward` and
  `_compute_policy` run; the calls to the other collaborators are not counted. The
  two quality methods are proved equal to `SetQuality` and `HistoryQuality`.

## Model

| member | source | states |
|---|---|---|
| Priors.Normalize | sirl/algorithms/birl/base.py:57 | dividing a one-signed vector by its own sum gives a vector of the same length with every entry positive and, when non-empty, summing to 1; an empty batch gives an empty result |
| Priors.NormalizeKeepsRatios | sirl/algorithms/birl/base.py:72 | normalisation keeps the ratio of any two entries: `d[i] * rp[j] == d[j] * rp[i]` |
| Priors.Uniform | sirl/algorithms/birl/base.py:39-42 | one entry per input row, each exactly 1/N, summing to 1 |
| Priors.UniformIgnoresValues | sirl/algorithms/birl/base.py:40 | the uniform prior depends only on the number of rows, not on their values |
| Priors.Gaussian | sirl/algorithms/birl/base.py:54-57 | for any non-zero sigma (either sign) the result has the input's length, positive entries and sum 1 |
| Priors.GaussianRatio | sirl/algorithms/birl/base.py:55-57 | entries stand in the ratios of exp(-r²/(2σ²)); the factor σ/sqrt(2π) cancels |
| Priors.Laplacian | sirl/algorithms/birl/base.py:70-72 | for any non-zero sigma the result has the input's length, positive entries and sum 1 |
| Priors.LaplacianRatio | sirl/algorithms/birl/base.py:71-72 | entries stand in the ratios of exp(-\|r\|/(2σ)); the factor 1/(2σ) cancels |
| Priors.SymmetricPriors | sirl/algorithms/birl/base.py:54-72 | flipping the sign of any reward values leaves both the Gaussian and the Laplacian prior unchanged |
| Priors.DefaultPriorsValid | sirl/algorithms/birl/base.py:50-72 | the priors built with their default sigma of 0.5 are valid and give probability vectors |
| Priors.Evaluate | sirl/algorithms/birl/base.py:26 | `prior(r)` for any of the three families is a probability vector of the input's length |
| Proposal.FirstAccepted | sirl/algorithms/birl/base.py:105-114 | the index of the first draw the loop accepts, with every earlier draw rejected; None exactly when every draw is rejected |
| Proposal.ProposalOf | sirl/algorithms/birl/base.py:102-115 | the result has the input's length and differs from it in exactly the coordinate of the first accepted draw (`FirstAccepted`), by that draw's own step, +delta or -delta; in bounded mode that coordinate lies in [-1, 1]; draws are exhausted exactly when all are rejected |
| Proposal.Propose | sirl/algorithms/birl/base.py:102-115 | the in-place rejection loop on a copy of `loc` returns `ProposalOf(loc)`; `loc` itself is not modified |
| Proposal.UnboundedTakesFirstDraw | sirl/algorithms/birl/base.py:112-114 | unbounded mode applies the first draw and uses exactly one draw |
| Proposal.BoundedStaysInBox | sirl/algorithms/birl/base.py:108-111 | bounded mode keeps a point that starts in [-1, 1] inside it |
| Proposal.BoundedWideStepNeverMoves | sirl/algorithms/birl/base.py:105-111 | with delta > 2, bounded mode rejects every draw for a point in the box, so the source's loop never ends |
| Proposal.BoundedNarrowStepMoves | sirl/algorithms/birl/base.py:108-111 | with 0 <= delta <= 1, a draw moving a coordinate towards 0 is accepted, so the loop stops by that draw |
| GraphQuality.TrajectoryQuality | sirl/algorithms/birl/base.py:223-234 | the accumulation loop over one trajectory equals the recursive discounted quality `Quality` |
| GraphQuality.QualitySplit | sirl/algorithms/birl/base.py:225-233 | quality is additive: the quality of `a + b` is that of `a` plus that of `b` started at `a`'s elapsed time; each node uses its own `pi` edge, and a terminal node in the middle neither stops the walk nor advances time |
| GraphQuality.ShortTrajectories | sirl/algorithms/birl/base.py:224-233 | an empty trajectory scores 0, a lone terminal node scores 100, and a non-terminal node followed by a terminal one scores its edge reward plus 100 discounted by that edge's duration |
| GraphQuality.ChainExample | sirl/algorithms/birl/base.py:225-233 | a concrete three-node chain scores 1 + 0.9 + 0.81 * 100 = 82.9 |
| Estimator.RoundsHistory | sirl/algorithms/birl/base.py:180-187 | each round appends exactly one trajectory set, keeps the existing history, and appends what `find_best_policies` gives on that round's representation |
| Estimator.RoundsCompose | sirl/algorithms/birl/base.py:180-187 | j rounds followed by k rounds are j + k rounds, so the history only grows |
| Estimator.SolveReward | sirl/algorithms/birl/base.py:174-193 | with no rounds the result is the initial reward; otherwise it is `find_next_reward` of the representation and history left by the previous round |
| Estimator.SolveHistory | sirl/algorithms/birl/base.py:178-187 | the history of a solve has max_iter + 1 entries and starts with the demonstrations |
| Estimator.SeedIsExpertQuality | sirl/algorithms/birl/base.py:215-260 | the generated quality of a history whose first set is the demonstrations has the expert quality as its first entry |
| Estimator.GTBIRL.constructor | sirl/algorithms/birl/base.py:164-170 | stores demonstrations, representation, prior, beta (default 0.7) and max_iter (default 10) |
| Estimator.GTBIRL.FindNextReward | sirl/algorithms/birl/base.py:196-198 | the variant's next reward for the current representation and history, counting the call |
| Estimator.GTBIRL.ComputePolicy | sirl/algorithms/birl/base.py:209-213 | the representation is replaced by its reward update, whose graph is then re-annotated by policy iteration with the new representation's gamma |
| Estimator.GTBIRL.Solve | sirl/algorithms/birl/base.py:172-193 | after the loop the reward, representation and history equal `Rounds` of `RoundCount(max_iter)` rounds (max_iter, or 0 when negative, as `range` gives) from the initial reward and the demonstrations; the history has that many entries plus one; `find_next_reward` and `_compute_policy` each run exactly that often; with max_iter <= 0 the initial reward is returned, the representation is untouched and the history is just the demonstrations |
| Estimator.GTBIRL.ExpertTrajectoryQuality | sirl/algorithms/birl/base.py:215-235 | one quality per demonstration, each equal to `Quality` on the current graph and gamma; the estimator's state is only read |
| Estimator.GTBIRL.GeneratedTrajectoryQuality | sirl/algorithms/birl/base.py:237-260 | one list per trajectory set and one quality per trajectory, each by the same `Quality` formula; the state is only read |

## Left out

- `log_p` of every prior is left out: it is `np.log` of the prior, a transcendental floating-point operation.
- `np.exp`, `np.fabs`, `np.sqrt(2π)` and `**`: `exp` is a positive function parameter and sqrt(2π) a positive parameter. `fabs` is the real absolute value and squaring is exact multiplication.
- Floating point: all arithmetic is exact over `real`, so rounding, overflow and underflow are not modelled. For example, `exp` underflowing to 0 would make the source divide 0 by 0.
- Priors.Gaussian, Priors.Laplacian: sigma == 0 is excluded by precondition, because the source divides by zero there.
- Priors: only one-dimensional batches `r` are modelled. For a multi-dimensional `r` the Gaussian and Laplacian priors normalise over all its entries, while the uniform prior returns one entry per row, `r.shape[0]` of them.
- Proposal.Propose: the random draws are an input sequence, not generated. When the sequence runs out before a draw is accepted, the result is `DrawsExhausted`, where the source would keep drawing, forever in the case of `BoundedWideStepNeverMoves`.
- Proposal.Propose: requires dim >= 1 and dim <= len(loc). `randint(0)` raises, and a coordinate outside `loc` raises `IndexError`.
- Proposal.Propose: `loc` is a vector of reals. For an integer-typed numpy `loc`, `new_loc[i] += d` truncates the stored value, so a fractional delta can leave the result equal to the input; that case is not modelled.
- Proposal: the `Proposal` base class and its abstract `__call__` have no behaviour of their own.
- GraphQuality: durations are natural numbers, so `gamma ** time` is an exact power. Fractional durations are not modelled.
- GraphQuality: the graph accessors `out_edges`, `gna` and `gea` are map lookups. A node or edge missing from the graph, or a `phi` of the wrong length, is excluded by the `TrajectoryReady` precondition, where the source would raise.
- GraphQuality: `TrajectoryReady` also excludes a node with out-edges but no `pi` annotation (a `KeyError` in the source) and a `pi` index outside `[-len(actions), len(actions))` (an `IndexError` in the source); those error paths are not modelled.
- Estimator.GTBIRL.ComputePolicy: `graph_policy_iteration` mutates the graph object in place. Here it returns a new graph that replaces the old one, so aliasing between the old and new representation is not captured.
- Estimator: `update_rewards`, `graph_policy_iteration`, `find_best_policies`, `initialize_reward` and `find_next_reward` are not part of this model. They are total functions passed at construction, so `find_next_reward` is assumed to depend only on the representation and the history.
- Estimator.GTBIRL.Solve: the unused `persons` and `relations` parameters and the `self.info` logging are dropped. `deepcopy` of the demonstrations is the value itself, since sequences are values.
- Estimator.GTBIRL.constructor: the `loss` callable is not stored. It is never used by the modelled code and its type is not known.
- `ModelMixin` and `Logger` are not part of this model.
- GraphQuality: the shift property, that starting a trajectory at time t scales its quality by gamma^t, is not proved.
- `sirl/domains/navigation/reward_functions.py` is not part of this model. It is floating-point geometry over helpers that are not available.
