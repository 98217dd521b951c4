/** Whole runs of rollouts, of any number of rollouts side by side. */
module RolloutRuns {
  import opened Options
  import opened Rollout

  datatype Step =
    | Create(r: int, config: int, target: int, weights: seq<int>)
    | Start(r: int)
    | Promote(r: int)
    | Complete(r: int)
    | Rollback(r: int)
    | Broken                  // a transaction that failed

  predicate IsRunning(db: Db, r: int) { r in db.rollouts && db.rollouts[r].status == Running }

  function Current(db: Db, r: int): int
    requires r in db.rollouts
  {
    db.rollouts[r].currentStage
  }

  ghost predicate Enabled(db: Db, step: Step) {
    match step
    case Create(r, config, target, weights) =>
      && r !in db.rollouts && (forall key :: key in db.stages ==> key.0 != r) && GoodPlan(weights)
      && config in db.configs && db.configs[config] != Some(target)
      && (forall q :: IsRunning(db, q) ==> db.rollouts[q].config != config)
    case Start(r) => r in db.rollouts && db.rollouts[r].status == Pending && (r, 0) in db.stages
    case Promote(r) => IsRunning(db, r) && (r, Current(db, r) + 1) in db.stages
    case Complete(r) => IsRunning(db, r)
    case Rollback(r) => IsRunning(db, r)
    case Broken => true
  }

  /** The rows of a new rollout's stages. */
  function NewStages(r: int, weights: seq<int>): map<(int, int), Stage> {
    map i | 0 <= i < |weights| :: (r, i) := Stage(weights[i], StagePending)
  }

  ghost function Next(db: Db, step: Step): Db
    requires Enabled(db, step)
  {
    match step
    case Create(r, config, target, weights) =>
      Db(db.stages + NewStages(r, weights), db.rollouts[r := RolloutRow(config, target, Pending, 0, 0)], db.configs)
    case Start(r) =>
      Db(SetStage(db.stages, (r, 0), Active),
         SetStanding(SetOutcome(db.rollouts, r, Running, 0), r, 0, db.stages[(r, 0)].weight),
         db.configs)
    case Promote(r) => Promoted(db, r, Current(db, r))
    case Complete(r) => Finished(db, r, db.rollouts[r].config, db.rollouts[r].target)
    case Rollback(r) => Reverted(db, r)
    case Broken => db
  }

  /** A run from a database without rollouts. */
  ghost predicate Behaviour(dbs: seq<Db>, steps: seq<Step>) {
    && |dbs| == |steps| + 1 && dbs[0].rollouts == map[]
    && forall i :: 0 <= i < |steps| ==> Enabled(dbs[i], steps[i]) && dbs[i + 1] == Next(dbs[i], steps[i])
  }

  // ---------------------------------------------------------------- the invariant

  /** Stages before `at` have passed, stage `at` is `here`, and later ones are still pending. */
  ghost predicate UpTo(db: Db, r: int, n: nat, at: int, here: StageStatus)
    requires Planned(db, r, n)
  {
    && 0 <= at < n
    && (forall i :: 0 <= i < at ==> db.stages[(r, i)].status == Passed)
    && db.stages[(r, at)].status == here
    && (forall i :: at < i < n ==> db.stages[(r, i)].status == StagePending)
  }

  ghost predicate InShape(db: Db, r: int, n: nat)
    requires r in db.rollouts && Planned(db, r, n)
  {
    var row := db.rollouts[r];
    && row.config in db.configs && 0 <= row.currentStage < n
    && match row.status
       case Pending => row.currentStage == 0 && row.currentWeight == 0 && UpTo(db, r, n, 0, StagePending)
       case Running => UpTo(db, r, n, row.currentStage, Active)
                       && row.currentWeight == db.stages[(r, row.currentStage)].weight
       case Completed => row.currentWeight == COMPLETED_WEIGHT
                         && forall i :: 0 <= i < n ==> db.stages[(r, i)].status == Passed
       case RolledBack => row.currentWeight == 0 && UpTo(db, r, n, row.currentStage, Failed)
  }

  ghost predicate RolloutSound(db: Db, r: int) { r in db.rollouts && exists n: nat :: Planned(db, r, n) && InShape(db, r, n) }

  ghost predicate Sound(db: Db) { forall r :: r in db.rollouts ==> RolloutSound(db, r) }

  /** The rows of one rollout are the same in both databases. */
  ghost predicate SameRows(db: Db, db': Db, r: int) {
    && r in db.rollouts && r in db'.rollouts && db.rollouts[r] == db'.rollouts[r]
    && (forall i :: (r, i) in db.stages <==> (r, i) in db'.stages)
    && (forall i :: (r, i) in db.stages ==> db.stages[(r, i)] == db'.stages[(r, i)])
    && (forall c :: c in db.configs ==> c in db'.configs)
  }

  lemma SameRowsStaySound(db: Db, db': Db, r: int)
    requires RolloutSound(db, r) && SameRows(db, db', r)
    ensures RolloutSound(db', r)
  {
    var n: nat :| Planned(db, r, n) && InShape(db, r, n);
    assert Planned(db', r, n);
    assert InShape(db', r, n);
  }

  /** A step concerns one rollout and leaves the rows of all others alone. */
  lemma OthersAreUntouched(db: Db, step: Step, q: int)
    requires Enabled(db, step) && q in db.rollouts && (step.Broken? || step.r != q)
    ensures SameRows(db, Next(db, step), q)
  {
  }

  lemma CreateKeepsSound(db: Db, step: Step)
    requires step.Create? && Enabled(db, step)
    ensures RolloutSound(Next(db, step), step.r)
  {
    var db' := Next(db, step);
    var r, n := step.r, |step.weights|;
    forall i
      ensures (r, i) in db'.stages <==> 0 <= i < n
      ensures 0 <= i < n ==> db'.stages[(r, i)] == Stage(step.weights[i], StagePending)
    {
      assert (r, i) !in db.stages;
    }
    assert Planned(db', r, n);
    assert InShape(db', r, n);
  }

  lemma StartKeepsSound(db: Db, r: int, n: nat)
    requires Enabled(db, Start(r)) && Planned(db, r, n) && InShape(db, r, n)
    ensures RolloutSound(Next(db, Start(r)), r)
  {
    var db' := Next(db, Start(r));
    assert Planned(db', r, n);
    assert InShape(db', r, n);
  }

  lemma PromoteKeepsSound(db: Db, r: int, n: nat)
    requires Enabled(db, Promote(r)) && Planned(db, r, n) && InShape(db, r, n)
    ensures RolloutSound(Next(db, Promote(r)), r)
  {
    var db' := Next(db, Promote(r));
    assert Planned(db', r, n);
    assert InShape(db', r, n);
  }

  lemma CompleteKeepsSound(db: Db, r: int, n: nat)
    requires Enabled(db, Complete(r)) && Planned(db, r, n) && InShape(db, r, n)
    ensures RolloutSound(Next(db, Complete(r)), r)
  {
    var db' := Next(db, Complete(r));
    assert Planned(db', r, n);
    assert InShape(db', r, n);
  }

  lemma RollbackKeepsSound(db: Db, r: int, n: nat)
    requires Enabled(db, Rollback(r)) && Planned(db, r, n) && InShape(db, r, n)
    ensures RolloutSound(Next(db, Rollback(r)), r)
  {
    var db' := Next(db, Rollback(r));
    assert Planned(db', r, n);
    assert InShape(db', r, n);
  }

  lemma StepKeepsRolloutSound(db: Db, step: Step)
    requires !step.Broken? && !step.Create? && Enabled(db, step) && RolloutSound(db, step.r)
    ensures RolloutSound(Next(db, step), step.r)
  {
    var n: nat :| Planned(db, step.r, n) && InShape(db, step.r, n);
    match step
    case Start(r) => StartKeepsSound(db, r, n);
    case Promote(r) => PromoteKeepsSound(db, r, n);
    case Complete(r) => CompleteKeepsSound(db, r, n);
    case Rollback(r) => RollbackKeepsSound(db, r, n);
  }

  lemma StepKeepsSound(db: Db, step: Step)
    requires Sound(db) && Enabled(db, step)
    ensures Sound(Next(db, step))
  {
    var db' := Next(db, step);
    forall q | q in db'.rollouts
      ensures RolloutSound(db', q)
    {
      if step.Broken? || step.r != q {
        OthersAreUntouched(db, step, q);
        SameRowsStaySound(db, db', q);
      } else if step.Create? {
        CreateKeepsSound(db, step);
      } else {
        StepKeepsRolloutSound(db, step);
      }
    }
  }

  /** In every state of every run, every rollout is in shape. */
  lemma {:induction false} AlwaysSound(dbs: seq<Db>, steps: seq<Step>, k: nat)
    requires Behaviour(dbs, steps) && k < |dbs|
    ensures Sound(dbs[k])
  {
    if k > 0 {
      AlwaysSound(dbs, steps, k - 1);
      StepKeepsSound(dbs[k - 1], steps[k - 1]);
    }
  }

  // ---------------------------------------------------------------- what runs do

  function Promotions(steps: seq<Step>, r: int): nat {
    if steps == [] then 0
    else Promotions(steps[..|steps| - 1], r) + if steps[|steps| - 1] == Promote(r) then 1 else 0
  }

  function StageOf(db: Db, r: int): int { if r in db.rollouts then Current(db, r) else 0 }

  lemma StageAfterStep(db: Db, step: Step, r: int)
    requires Sound(db) && Enabled(db, step)
    ensures StageOf(Next(db, step), r) == StageOf(db, r) + if step == Promote(r) then 1 else 0
  {
    if r in db.rollouts {
      assert RolloutSound(db, r);
    }
  }

  /** A rollout's current stage counts its promotions. */
  lemma {:induction false} StageCountsPromotions(dbs: seq<Db>, steps: seq<Step>, k: nat, r: int)
    requires Behaviour(dbs, steps) && k < |dbs|
    ensures Promotions(steps[..k], r) == StageOf(dbs[k], r)
  {
    if k > 0 {
      StageCountsPromotions(dbs, steps, k - 1, r);
      AlwaysSound(dbs, steps, k - 1);
      StageAfterStep(dbs[k - 1], steps[k - 1], r);
      assert steps[..k][..k - 1] == steps[..k - 1];
    }
  }

  /** So a rollout of n stages is promoted at most n - 1 times, and never more than 99 times. */
  lemma PromotionsAreFewerThanStages(dbs: seq<Db>, steps: seq<Step>, r: int, n: nat)
    requires Behaviour(dbs, steps) && r in dbs[|steps|].rollouts && Planned(dbs[|steps|], r, n)
    ensures Promotions(steps, r) <= n - 1 <= 99
  {
    WeightsAbove(dbs[|steps|], r, n, n - 1);
    StageCountsPromotions(dbs, steps, |steps|, r);
    assert steps[..|steps|] == steps;
    AlwaysSound(dbs, steps, |steps|);
    assert RolloutSound(dbs[|steps|], r);
    assert (r, Current(dbs[|steps|], r)) in dbs[|steps|].stages;
  }

  /** The version that the last completed rollout of `config` made active, or the one active at first. */
  ghost function LastCompleted(dbs: seq<Db>, steps: seq<Step>, k: nat, config: int): Option<Option<int>>
    requires Behaviour(dbs, steps) && k < |dbs|
  {
    if k == 0 then Found(dbs[0].configs, config)
    else if steps[k - 1].Complete? && dbs[k - 1].rollouts[steps[k - 1].r].config == config
    then Some(Some(dbs[k - 1].rollouts[steps[k - 1].r].target))
    else LastCompleted(dbs, steps, k - 1, config)
  }

  /** Only completion changes the active version: starts, promotions, rollbacks and failures leave it. */
  lemma {:induction false} ActiveVersionIsLastCompleted(dbs: seq<Db>, steps: seq<Step>, k: nat, config: int)
    requires Behaviour(dbs, steps) && k < |dbs|
    ensures Found(dbs[k].configs, config) == LastCompleted(dbs, steps, k, config)
  {
    if k > 0 {
      ActiveVersionIsLastCompleted(dbs, steps, k - 1, config);
      AlwaysSound(dbs, steps, k - 1);
      if steps[k - 1].Complete? {
        assert RolloutSound(dbs[k - 1], steps[k - 1].r);
      }
    }
  }

  /** Traffic to the target version goes up with every start and promotion, never above 100, and down only when
      the rollout is rolled back. */
  lemma WeightOnlyFallsOnRollback(db: Db, step: Step, r: int)
    requires Sound(db) && Enabled(db, step) && r in db.rollouts
    ensures var before, after := db.rollouts[r].currentWeight, Next(db, step).rollouts[r].currentWeight;
      && 0 <= after <= COMPLETED_WEIGHT
      && (step == Start(r) || step == Promote(r) ==> before < after)
      && (step != Rollback(r) ==> before <= after)
      && (step == Rollback(r) ==> after == 0)
  {
    assert RolloutSound(db, r);
    StepKeepsSound(db, step);
    assert RolloutSound(Next(db, step), r);
    WeightsInRange(db, r);
    WeightsInRange(Next(db, step), r);
  }

  lemma {:induction false} WeightsBelow(db: Db, r: int, n: nat, i: nat)
    requires Planned(db, r, n) && i < n
    ensures 0 < db.stages[(r, i)].weight <= COMPLETED_WEIGHT
    decreases n - i
  {
    WeightsAbove(db, r, n, i);
    if i + 1 < n {
      WeightsBelow(db, r, n, i + 1);
      assert db.stages[(r, i + 1 - 1)].weight < db.stages[(r, i + 1)].weight;
    }
  }

  lemma {:induction false} WeightsAbove(db: Db, r: int, n: nat, i: nat)
    requires Planned(db, r, n) && i < n
    ensures i < db.stages[(r, i)].weight
  {
    if i > 0 {
      WeightsAbove(db, r, n, i - 1);
    }
  }

  lemma WeightsInRange(db: Db, r: int)
    requires RolloutSound(db, r)
    ensures forall i :: (r, i) in db.stages ==> 0 < db.stages[(r, i)].weight <= COMPLETED_WEIGHT
    ensures 0 <= db.rollouts[r].currentWeight <= COMPLETED_WEIGHT
  {
    var n: nat :| Planned(db, r, n) && InShape(db, r, n);
    forall i | (r, i) in db.stages
      ensures 0 < db.stages[(r, i)].weight <= COMPLETED_WEIGHT
    {
      WeightsBelow(db, r, n, i);
    }
  }

  /** How a rollout can end, and that its rows never change afterwards. */
  lemma {:induction false} OutcomeIsFinal(dbs: seq<Db>, steps: seq<Step>, k: nat, m: nat, r: int)
    requires Behaviour(dbs, steps) && k <= m < |dbs| && r in dbs[k].rollouts
    requires dbs[k].rollouts[r].status == Completed || dbs[k].rollouts[r].status == RolledBack
    ensures SameRows(dbs[k], dbs[m], r)
  {
    if k < m {
      OutcomeIsFinal(dbs, steps, k, m - 1, r);
      OthersAreUntouched(dbs[m - 1], steps[m - 1], r);
    }
  }

  /** A completed rollout has every stage passed, weight 100 and, at that moment, its target version active. */
  lemma CompletionIsTotal(db: Db, r: int)
    requires Sound(db) && Enabled(db, Complete(r))
    ensures var db' := Next(db, Complete(r));
      && db'.rollouts[r].status == Completed && db'.rollouts[r].currentWeight == 100
      && (forall i :: (r, i) in db'.stages ==> db'.stages[(r, i)].status == Passed)
      && Found(db'.configs, db.rollouts[r].config) == Some(Some(db.rollouts[r].target))
  {
    assert RolloutSound(db, r);
  }

  /** A rolled back rollout has exactly one failed stage, the one that was current, weight 0, and the active
      version is what it was. */
  lemma RollbackFailsOneStage(db: Db, r: int)
    requires Sound(db) && Enabled(db, Rollback(r))
    ensures var db' := Next(db, Rollback(r));
      && db'.rollouts[r].status == RolledBack && db'.rollouts[r].currentWeight == 0 && db'.configs == db.configs
      && (forall i :: (r, i) in db'.stages ==> (db'.stages[(r, i)].status == Failed <==> i == Current(db, r)))
      && (r, Current(db, r)) in db'.stages
  {
    assert RolloutSound(db, r);
  }
}
