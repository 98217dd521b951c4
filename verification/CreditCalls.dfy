/** The step system of tool calls and the code it stands for. */
module CreditCalls {
  import opened Options
  import opened Metering
  import opened CreditRuns
  import opened CreditCap

  /** An organisation without a confirmed subscription, whose limit of credits is known. */
  predicate FreeTier(account: Account, limit: int) {
    account.hasDb && account.hasOrg && account.limit == Some(limit) && limit >= 0 && account.subscribed != Some(true)
  }

  /** For such an organisation the check allows a call exactly when the step system lets it pass. */
  method CheckIsPasses(log: CreditLog, account: Account, cfg: Config, s: State, i: nat) returns (denied: Option<int>)
    requires i < |s.calls| && s.calls[i].phase.Asked? && log.rows == s.rows && FreeTier(account, cfg.limit)
    ensures denied.None? <==> Passes(cfg, s, i)
    ensures denied.Some? ==> denied.value == Total(s.rows, CreditsSince(s.calls[i].phase.since)) >= cfg.limit
  {
    denied := log.CheckCreditAllowance(account, s.calls[i].phase.since, true);
  }

  /** The steps of one call: it arrives, is checked, and unless denied either fails or succeeds and is logged. */
  function StepsOf(outcome: Outcome, i: nat, arrive: Step): seq<Step> {
    match outcome
    case Denied(_) => [arrive, Check(i)]
    case HandlerFailed => [arrive, Check(i), Fail(i)]
    case _ => [arrive, Check(i), Succeed(i), Insert(i)]
  }

  /** The states a call goes through when nothing comes between. */
  lemma CallSteps(cfg: Config, s: State, arrive: Step, passes: bool) returns (s1: State, s2: State)
    requires arrive.Arrive? && Enabled(cfg, s, arrive) && Pending(s) < cfg.k
    requires passes <==> Total(s.rows, CreditsSince(s.period)) < cfg.limit
    ensures s1 == Next(cfg, s, arrive) && Enabled(cfg, s1, Check(|s.calls|)) && s2 == Next(cfg, s1, Check(|s.calls|))
    ensures s2.rows == s.rows && s2.period == s.period && |s2.calls| == |s.calls| + 1
    ensures s2.calls[|s.calls|] == Call(arrive.tool, arrive.resource, arrive.action, arrive.execution, if passes then Running else Over)
  {
    s1 := Next(cfg, s, arrive);
    ArrivalCounts(s, s1.calls[|s.calls|]);
    s2 := Next(cfg, s1, Check(|s.calls|));
  }

  lemma CallIsARun(cfg: Config, s: State, arrive: Step, outcome: Outcome) returns (t: State)
    requires arrive.Arrive? && Enabled(cfg, s, arrive) && Pending(s) < cfg.k
    requires outcome.Denied? <==> Total(s.rows, CreditsSince(s.period)) >= cfg.limit
    requires outcome.Denied? || outcome.HandlerFailed? || outcome.Done?
    ensures Run(cfg, s, StepsOf(outcome, |s.calls|, arrive), t)
    ensures t.rows == if outcome.Done?
                      then Inserted(s.rows, Row(IdempotencyKey(arrive.tool, arrive.execution),
                                                Weight(arrive.tool, arrive.resource, arrive.action), s.period))
                      else s.rows
  {
    var i := |s.calls|;
    var s1, s2 := CallSteps(cfg, s, arrive, !outcome.Denied?);
    RunOn(cfg, s, [], s, arrive);
    RunOn(cfg, s, [] + [arrive], s1, Check(i));
    assert [] + [arrive] + [Check(i)] == [arrive, Check(i)];
    if outcome.Denied? {
      t := s2;
    } else if outcome.HandlerFailed? {
      t := Next(cfg, s2, Fail(i));
      RunOn(cfg, s, [arrive, Check(i)], s2, Fail(i));
      assert [arrive, Check(i)] + [Fail(i)] == [arrive, Check(i), Fail(i)];
    } else {
      var s3 := Next(cfg, s2, Succeed(i));
      RunOn(cfg, s, [arrive, Check(i)], s2, Succeed(i));
      t := Next(cfg, s3, Insert(i));
      RunOn(cfg, s, [arrive, Check(i)] + [Succeed(i)], s3, Insert(i));
      assert [arrive, Check(i)] + [Succeed(i)] + [Insert(i)] == [arrive, Check(i), Succeed(i), Insert(i)];
    }
  }

  /** A tool call of such an organisation, undisturbed, is those steps, and leaves the log they leave. */
  method CallToolIsARun(log: CreditLog, account: Account, cfg: Config, ghost s: State, period: nat, handlerOk: bool,
                        tool: string, resource: string, action: string, execution: string)
    returns (outcome: Outcome, ghost t: State)
    requires log.rows == s.rows && period == s.period && FreeTier(account, cfg.limit)
    requires Enabled(cfg, s, Arrive(tool, resource, action, execution)) && Pending(s) < cfg.k
    modifies log`rows
    ensures Run(cfg, s, StepsOf(outcome, |s.calls|, Arrive(tool, resource, action, execution)), t) && log.rows == t.rows
    ensures outcome.Denied? <==> Total(old(log.rows), CreditsSince(period)) >= cfg.limit
    ensures !outcome.Denied? ==> outcome == if handlerOk then Done else HandlerFailed
  {
    outcome := log.CallTool(true, true, account, true, period, true, true, handlerOk, tool, resource, action, execution, period);
    t := CallIsARun(cfg, s, Arrive(tool, resource, action, execution), outcome);
  }
}
