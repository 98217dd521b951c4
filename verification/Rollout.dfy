/** Staged rollouts: the rows the worker's transactions change, and the transactions. */
module Rollout {
  import opened Options

  const COMPLETED_WEIGHT := 100

  datatype StageStatus = StagePending | Active | Passed | Failed

  datatype RolloutStatus = Pending | Running | Completed | RolledBack

  datatype Stage = Stage(weight: int, status: StageStatus)

  datatype RolloutRow = RolloutRow(config: int, target: int, status: RolloutStatus, currentStage: int, currentWeight: int)

  /** Stages are keyed by rollout and order, which the table keeps unique; `configs` holds each prompt
      configuration's active version. */
  datatype Db = Db(stages: map<(int, int), Stage>, rollouts: map<int, RolloutRow>, configs: map<int, Option<int>>)

  // ---------------------------------------------------------------- single statements

  function SetStage(stages: map<(int, int), Stage>, key: (int, int), status: StageStatus): map<(int, int), Stage> {
    if key in stages then stages[key := stages[key].(status := status)] else stages
  }

  /** Sets the stages of rollout `r` that have one of the statuses `from`. */
  function SetStages(stages: map<(int, int), Stage>, r: int, from: set<StageStatus>, to: StageStatus): map<(int, int), Stage> {
    map key | key in stages :: if key.0 == r && stages[key].status in from then stages[key].(status := to) else stages[key]
  }

  function SetStanding(rollouts: map<int, RolloutRow>, r: int, stage: int, weight: int): map<int, RolloutRow> {
    if r in rollouts then rollouts[r := rollouts[r].(currentStage := stage, currentWeight := weight)] else rollouts
  }

  function SetOutcome(rollouts: map<int, RolloutRow>, r: int, status: RolloutStatus, weight: int): map<int, RolloutRow> {
    if r in rollouts then rollouts[r := rollouts[r].(status := status, currentWeight := weight)] else rollouts
  }

  function SetActiveVersion(configs: map<int, Option<int>>, config: int, version: int): map<int, Option<int>> {
    if config in configs then configs[config := Some(version)] else configs
  }

  // ---------------------------------------------------------------- whole transactions

  function Promoted(db: Db, r: int, order: int): Db
    requires (r, order + 1) in db.stages
  {
    Db(SetStage(SetStage(db.stages, (r, order), Passed), (r, order + 1), Active),
       SetStanding(db.rollouts, r, order + 1, db.stages[(r, order + 1)].weight),
       db.configs)
  }

  function Finished(db: Db, r: int, config: int, target: int): Db {
    Db(SetStages(db.stages, r, {StagePending, Active}, Passed),
       SetOutcome(db.rollouts, r, Completed, COMPLETED_WEIGHT),
       SetActiveVersion(db.configs, config, target))
  }

  function Reverted(db: Db, r: int): Db {
    Db(SetStages(db.stages, r, {Active}, Failed), SetOutcome(db.rollouts, r, RolledBack, 0), db.configs)
  }

  /** Rollout `r` has the stages 0 to n - 1, planned well. */
  ghost predicate Planned(db: Db, r: int, n: nat) {
    && n > 0
    && (forall i :: (r, i) in db.stages <==> 0 <= i < n)
    && db.stages[(r, 0)].weight > 0 && db.stages[(r, n - 1)].weight == COMPLETED_WEIGHT
    && (forall i :: 0 < i < n ==> db.stages[(r, i - 1)].weight < db.stages[(r, i)].weight)
  }

  lemma {:induction false} WeightsAscend(db: Db, r: int, n: nat, i: nat, j: nat)
    requires Planned(db, r, n) && i < j < n
    ensures db.stages[(r, i)].weight < db.stages[(r, j)].weight
  {
    if i < j - 1 {
      WeightsAscend(db, r, n, i, j - 1);
    }
    assert db.stages[(r, j - 1)].weight < db.stages[(r, j)].weight;
  }

  lemma FinalIsFull(db: Db, r: int, order: int)
    ensures forall n: nat :: Planned(db, r, n) && 0 <= order < n ==>
      (order == n - 1 <==> db.stages[(r, order)].weight == COMPLETED_WEIGHT)
  {
    forall n: nat | Planned(db, r, n) && 0 <= order < n
      ensures order == n - 1 <==> db.stages[(r, order)].weight == COMPLETED_WEIGHT
    {
      if order < n - 1 {
        WeightsAscend(db, r, n, order, n - 1);
      }
    }
  }

  class Database {
    var db: Db

    constructor (db: Db)
      ensures this.db == db
    {
      this.db := db;
    }

    /** Of a planned rollout exactly the last stage is final: its number is one less than that of the stages, and
        it is the one with the full weight. */
    method IsFinalStage(r: int, order: int) returns (last: bool)
      ensures last <==> (r, order + 1) !in db.stages
      ensures forall n: nat :: Planned(db, r, n) && 0 <= order < n ==>
        (last <==> order == n - 1) && (last <==> db.stages[(r, order)].weight == COMPLETED_WEIGHT)
    {
      FinalIsFull(db, r, order);
      last := (r, order + 1) !in db.stages;
    }

    /** `broken` is the statement that fails, BEGIN being 0 and COMMIT the last. The transaction works on its own
        copy of the rows: a failure anywhere leaves the database as it was. */
    method PromoteToNextStage(r: int, order: int, broken: nat) returns (ok: bool)
      modifies this`db
      ensures ok <==> broken > 5 && (r, order + 1) in old(db).stages
      ensures if ok then db == Promoted(old(db), r, order) else db == old(db)
    {
      if broken == 0 {
        return false;
      }
      var tx := db;
      if broken == 1 {
        return false;
      }
      tx := tx.(stages := SetStage(tx.stages, (r, order), Passed));
      if broken == 2 || (r, order + 1) !in tx.stages {
        return false;
      }
      var next := tx.stages[(r, order + 1)];
      if broken == 3 {
        return false;
      }
      tx := tx.(stages := SetStage(tx.stages, (r, order + 1), Active));
      if broken == 4 {
        return false;
      }
      tx := tx.(rollouts := SetStanding(tx.rollouts, r, order + 1, next.weight));
      if broken == 5 {
        return false;
      }
      db := tx;
      ok := true;
    }

    method CompleteRollout(r: int, config: int, target: int, broken: nat) returns (ok: bool)
      modifies this`db
      ensures ok <==> broken > 4
      ensures if ok then db == Finished(old(db), r, config, target) else db == old(db)
    {
      if broken == 0 {
        return false;
      }
      var tx := db;
      if broken == 1 {
        return false;
      }
      tx := tx.(stages := SetStages(tx.stages, r, {StagePending, Active}, Passed));
      if broken == 2 {
        return false;
      }
      tx := tx.(configs := SetActiveVersion(tx.configs, config, target));
      if broken == 3 {
        return false;
      }
      tx := tx.(rollouts := SetOutcome(tx.rollouts, r, Completed, COMPLETED_WEIGHT));
      if broken == 4 {
        return false;
      }
      db := tx;
      ok := true;
    }

    method RollbackRollout(r: int, broken: nat) returns (ok: bool)
      modifies this`db
      ensures ok <==> broken > 3
      ensures if ok then db == Reverted(old(db), r) else db == old(db)
    {
      if broken == 0 {
        return false;
      }
      var tx := db;
      if broken == 1 {
        return false;
      }
      tx := tx.(stages := SetStages(tx.stages, r, {Active}, Failed));
      if broken == 2 {
        return false;
      }
      tx := tx.(rollouts := SetOutcome(tx.rollouts, r, RolledBack, 0));
      if broken == 3 {
        return false;
      }
      db := tx;
      ok := true;
    }
  }

  // ---------------------------------------------------------------- planning the stages

  /** Positive, strictly ascending and ending in 100. */
  predicate GoodPlan(weights: seq<int>) {
    && weights != [] && weights[0] > 0 && weights[|weights| - 1] == COMPLETED_WEIGHT
    && forall i :: 0 < i < |weights| ==> weights[i - 1] < weights[i]
  }

  method ValidateRolloutStages(weights: seq<int>) returns (ok: bool)
    ensures ok <==> GoodPlan(weights)
  {
    if weights == [] {
      return false;
    }
    for i := 0 to |weights|
      invariant forall j :: 0 <= j < i ==> weights[j] > 0
    {
      if weights[i] <= 0 {
        PlanIsPositive(weights);
        return false;
      }
    }
    for i := 1 to |weights|
      invariant forall j :: 0 < j < i ==> weights[j - 1] < weights[j]
    {
      if weights[i] <= weights[i - 1] {
        return false;
      }
    }
    ok := weights[|weights| - 1] == COMPLETED_WEIGHT;
  }

  lemma {:induction false} WeightAtLeast(weights: seq<int>, i: nat)
    requires weights != [] && weights[0] > 0 && forall j :: 0 < j < |weights| ==> weights[j - 1] < weights[j]
    requires i < |weights|
    ensures weights[i] > i
  {
    if i > 0 {
      WeightAtLeast(weights, i - 1);
    }
  }

  lemma PlanIsPositive(weights: seq<int>)
    ensures GoodPlan(weights) ==> forall i :: 0 <= i < |weights| ==> weights[i] > 0
  {
    if GoodPlan(weights) {
      forall i | 0 <= i < |weights|
        ensures weights[i] > 0
      {
        WeightAtLeast(weights, i);
      }
    }
  }

  /** A plan has at most 100 stages. */
  lemma PlanIsShort(weights: seq<int>)
    requires GoodPlan(weights)
    ensures |weights| <= 100
  {
    WeightAtLeast(weights, |weights| - 1);
  }

  const DEFAULT_STAGES := [1, 5, 10, 25, 50, 75, COMPLETED_WEIGHT]

  /** The weights `create_rollout` plans with: the caller's, if they are valid, or the default ones. */
  method PlanFor(custom: Option<seq<int>>) returns (weights: Option<seq<int>>)
    ensures weights.Some? <==> custom.None? || GoodPlan(custom.value)
    ensures weights.Some? ==> GoodPlan(weights.value) && (custom.Some? ==> weights == custom)
  {
    if custom.None? {
      DefaultPlanIsGood();
      return Some(DEFAULT_STAGES);
    }
    var ok := ValidateRolloutStages(custom.value);
    weights := if ok then custom else None;
  }

  lemma DefaultPlanIsGood()
    ensures GoodPlan(DEFAULT_STAGES)
  {
  }
}
