/** The control logic of the TF training loop: one optimisation step per
    iteration, a test-loss checkpoint every 200 iterations, early stopping
    after 10 checkpoints without an improvement of more than 0.0001, and at
    most 5000 iterations. The losses themselves come from the network and
    are inputs here, one per checkpoint. */
module CezaTraining {

  const MaxIterations: nat := 5000
  const CheckpointEvery: nat := 200
  const Patience: nat := 10
  const Tolerance: real := 0.0001
  /** `sys.float_info.max`, the initial best error. */
  const FloatMax: real := 1.7976931348623157e308
  /** Iterations 200, 400, ..., 4800 are the checkpoints a run can reach. */
  const MaxCheckpoints: nat := 24

  /** The two variables `CheckPerformance` updates. */
  datatype Progress = Progress(bestError: real, timesNoImprovement: nat)

  const Start := Progress(FloatMax, 0)

  /** A test error counts as an improvement when it beats the best error so
      far by more than the tolerance. */
  predicate Improves(bestError: real, error: real) {
    bestError - error > Tolerance
  }

  /** One checkpoint with test error `error`. */
  function Checkpoint(p: Progress, error: real): (q: Progress)
    ensures q.bestError <= p.bestError
    ensures Improves(p.bestError, error) <==> q.timesNoImprovement == 0
    ensures !Improves(p.bestError, error) <==> q == p.(timesNoImprovement := p.timesNoImprovement + 1)
    ensures Improves(p.bestError, error) ==> q.bestError == error < p.bestError - Tolerance
  {
    if Improves(p.bestError, error) then Progress(error, 0)
    else Progress(p.bestError, p.timesNoImprovement + 1)
  }

  /** The state after the first `n` checkpoints, whose test errors are
      `losses[..n]`. */
  function After(losses: seq<real>, n: nat): Progress
    requires n <= |losses|
  {
    if n == 0 then Start else Checkpoint(After(losses, n - 1), losses[n - 1])
  }

  /** Whether checkpoint number `m` (counting from 1) improved the best error. */
  predicate ImprovedAt(losses: seq<real>, m: nat)
    requires 1 <= m <= |losses|
  {
    Improves(After(losses, m - 1).bestError, losses[m - 1])
  }

  /** Checkpoint number `m` (counting from 1) leaves the counter at 10. */
  predicate ReachesPatience(losses: seq<real>, m: nat)
    requires m <= |losses|
  {
    After(losses, m).timesNoImprovement == Patience
  }

  /** How the loop ended. `Interrupted` is the Ctrl-C exit, which the code
      tests but never reaches because nothing sets the flag. */
  datatype Stop = Converged | Exhausted | Interrupted

  /** The final value of the loop variable, how the loop ended, and the
      checkpoint state it ended with. */
  datatype Outcome = Outcome(lastIteration: nat, stop: Stop, progress: Progress)

  /** The loop from checkpoint `k` on: it stops at the first checkpoint after
      which the counter is 10, or runs out at iteration 4999. */
  function RunFrom(losses: seq<real>, k: nat): (o: Outcome)
    requires k <= MaxCheckpoints <= |losses|
    ensures o.lastIteration < MaxIterations
    ensures o.stop != Interrupted
    ensures o.stop == Converged ==>
      && o.lastIteration % CheckpointEvery == 0
      && k * CheckpointEvery < o.lastIteration <= MaxCheckpoints * CheckpointEvery
      && o.progress == After(losses, o.lastIteration / CheckpointEvery)
      && o.progress.timesNoImprovement == Patience
    ensures o.stop == Exhausted ==>
      o.lastIteration == MaxIterations - 1 && o.progress == After(losses, MaxCheckpoints)
    // the loop stops early exactly when some later checkpoint brings the
    // counter to 10, and then at the first such checkpoint
    ensures o.stop == Converged <==> exists m :: k < m <= MaxCheckpoints && ReachesPatience(losses, m)
    ensures o.stop == Converged ==>
      forall m :: k < m && m * CheckpointEvery < o.lastIteration ==> !ReachesPatience(losses, m)
    decreases MaxCheckpoints - k
  {
    if k == MaxCheckpoints then Outcome(MaxIterations - 1, Exhausted, After(losses, k))
    else if ReachesPatience(losses, k + 1) then
      Outcome((k + 1) * CheckpointEvery, Converged, After(losses, k + 1))
    else RunFrom(losses, k + 1)
  }

  /** The whole training loop. */
  function Run(losses: seq<real>): Outcome
    requires MaxCheckpoints <= |losses|
  {
    RunFrom(losses, 0)
  }

  /** The best error never increases from one checkpoint to a later one. */
  lemma {:induction false} BestErrorNeverIncreases(losses: seq<real>, m: nat, n: nat)
    requires m <= n <= |losses|
    ensures After(losses, n).bestError <= After(losses, m).bestError
  {
    if m < n {
      BestErrorNeverIncreases(losses, m, n - 1);
    }
  }

  /** The counter is the number of checkpoints since the last improving one:
      none of the last `timesNoImprovement` checkpoints improved, and the one
      before them (when there is one) did. */
  lemma {:induction false} CounterIsStreak(losses: seq<real>, n: nat)
    requires n <= |losses|
    ensures var c := After(losses, n).timesNoImprovement;
      && c <= n
      && (forall m :: n - c < m <= n ==> !ImprovedAt(losses, m))
      && (c < n ==> ImprovedAt(losses, n - c))
  {
    if n > 0 {
      CounterIsStreak(losses, n - 1);
    }
  }

  /** The best error is within the tolerance of every test error seen so far,
      and it is either the initial value or one of those errors. */
  lemma {:induction false} BestErrorNearMinimum(losses: seq<real>, n: nat)
    requires n <= |losses|
    ensures forall k :: 0 <= k < n ==> losses[k] >= After(losses, n).bestError - Tolerance
    ensures After(losses, n).bestError == FloatMax || After(losses, n).bestError in losses[..n]
  {
    if n > 0 {
      BestErrorNearMinimum(losses, n - 1);
      assert losses[..n] == losses[..n - 1] + [losses[n - 1]];
    }
  }

  /** The loop never stops early before iteration 2000: the counter needs ten
      checkpoints to reach 10. */
  lemma ConvergesNotBefore2000(losses: seq<real>)
    requires MaxCheckpoints <= |losses|
    ensures Run(losses).stop == Converged ==>
      Patience * CheckpointEvery <= Run(losses).lastIteration <= MaxCheckpoints * CheckpointEvery
  {
    var o := Run(losses);
    if o.stop == Converged {
      var n := o.lastIteration / CheckpointEvery;
      CounterIsStreak(losses, n);
    }
  }

  /** A test error that keeps falling by more than the tolerance at every
      checkpoint never triggers early stopping: the loop runs to iteration
      4999 with the last error as its best. */
  lemma NeverStopsWhileImproving(losses: seq<real>)
    requires MaxCheckpoints <= |losses|
    requires Improves(FloatMax, losses[0])
    requires forall k :: 0 < k < MaxCheckpoints ==> Improves(losses[k - 1], losses[k])
    ensures Run(losses) == Outcome(MaxIterations - 1, Exhausted, Progress(losses[MaxCheckpoints - 1], 0))
  {
    forall n | 1 <= n <= MaxCheckpoints
      ensures After(losses, n) == Progress(losses[n - 1], 0)
    {
      AfterWhileImproving(losses, n);
    }
    RunWhileImproving(losses, 0);
  }

  lemma {:induction false} AfterWhileImproving(losses: seq<real>, n: nat)
    requires 1 <= n <= MaxCheckpoints <= |losses|
    requires Improves(FloatMax, losses[0])
    requires forall k :: 0 < k < MaxCheckpoints ==> Improves(losses[k - 1], losses[k])
    ensures After(losses, n) == Progress(losses[n - 1], 0)
  {
    if n > 1 {
      AfterWhileImproving(losses, n - 1);
    }
  }

  lemma {:induction false} RunWhileImproving(losses: seq<real>, k: nat)
    requires k <= MaxCheckpoints <= |losses|
    requires forall n :: 1 <= n <= MaxCheckpoints ==> After(losses, n) == Progress(losses[n - 1], 0)
    ensures RunFrom(losses, k) == Outcome(MaxIterations - 1, Exhausted, Progress(losses[MaxCheckpoints - 1], 0))
    decreases MaxCheckpoints - k
  {
    if k < MaxCheckpoints {
      RunWhileImproving(losses, k + 1);
    }
  }

  /** The state `CheckPerformance` shares with the loop through `nonlocal`. */
  class EarlyStopping {
    var BestError: real
    var TimesNoImprovement: nat

    function State(): Progress
      reads this
    {
      Progress(BestError, TimesNoImprovement)
    }

    constructor ()
      ensures State() == Start
    {
      BestError := FloatMax;
      TimesNoImprovement := 0;
    }

    /** `CheckPerformance`, given the test error the network computed. */
    method CheckPerformance(error: real)
      modifies this
      ensures State() == Checkpoint(old(State()), error)
    {
      if BestError - error > Tolerance {
        BestError := error;
        TimesNoImprovement := 0;
      } else {
        TimesNoImprovement := TimesNoImprovement + 1;
      }
    }
  }

  /** `done` checkpoints lie before iteration `it`: the last one, if any, at
      iteration `done * 200`, and the next one at or after `it`. */
  predicate CheckpointsBefore(it: nat, done: nat) {
    if it == 0 then done == 0
    else done * CheckpointEvery < it <= done * CheckpointEvery + CheckpointEvery
  }

  /** Iteration `it` is checkpoint number `done + 1`. */
  lemma AtCheckpoint(it: nat, done: nat)
    requires CheckpointsBefore(it, done)
    requires it > 0 && it % CheckpointEvery == 0
    ensures it == (done + 1) * CheckpointEvery
    ensures it / CheckpointEvery - 1 == done
  {
  }

  /** An iteration that is not a checkpoint leaves the count unchanged. */
  lemma BetweenCheckpoints(it: nat, done: nat)
    requires CheckpointsBefore(it, done)
    requires !(it > 0 && it % CheckpointEvery == 0)
    ensures CheckpointsBefore(it + 1, done)
  {
  }

  /** At the end of the loop every checkpoint is done. */
  lemma AllCheckpoints(done: nat)
    requires CheckpointsBefore(MaxIterations, done)
    ensures done == MaxCheckpoints
  {
  }

  /** What checkpoint `k` (counting from 1) decides: stop there when the
      counter has reached 10, otherwise go on. */
  lemma RunFromStep(losses: seq<real>, k: nat)
    requires 1 <= k <= MaxCheckpoints <= |losses|
    ensures After(losses, k).timesNoImprovement == Patience ==>
      RunFrom(losses, k - 1) == Outcome(k * CheckpointEvery, Converged, After(losses, k))
    ensures After(losses, k).timesNoImprovement != Patience ==>
      RunFrom(losses, k - 1) == RunFrom(losses, k)
  {
  }

  /** The main training and evaluation loop, given the test error of each
      checkpoint; returns the final value of the loop variable, how the loop
      ended, and the best test error. */
  method TrainingLoop(testLosses: seq<real>) returns (iteration: nat, stop: Stop, bestError: real)
    requires MaxCheckpoints <= |testLosses|
    ensures iteration == Run(testLosses).lastIteration
    ensures stop == Run(testLosses).stop
    ensures bestError == Run(testLosses).progress.bestError
  {
    var state := new EarlyStopping();
    var interrupted := false;
    stop := Exhausted;
    var it := 0;
    ghost var done := 0;
    while it < MaxIterations
      invariant it <= MaxIterations
      invariant CheckpointsBefore(it, done) && done <= MaxCheckpoints
      invariant state.State() == After(testLosses, done)
      invariant state.TimesNoImprovement != Patience
      invariant Run(testLosses) == RunFrom(testLosses, done)
    {
      if interrupted {
        stop := Interrupted;
        break;
      }

      // one optimisation step on the training table happens here

      if it > 0 && it % CheckpointEvery == 0 {
        AtCheckpoint(it, done);
        RunFromStep(testLosses, done + 1);
        state.CheckPerformance(testLosses[it / CheckpointEvery - 1]);
        done := done + 1;
      } else {
        BetweenCheckpoints(it, done);
      }

      if state.TimesNoImprovement == Patience {
        stop := Converged;
        break;
      }
      it := it + 1;
    }
    if stop != Converged {
      AllCheckpoints(done);
    }
    iteration := if stop == Converged then it else MaxIterations - 1;
    bestError := state.BestError;
  }
}
