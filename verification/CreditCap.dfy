/** The cap on logged credits is exact: for every limit and every number of concurrent calls some run reaches it. */
module CreditCap {
  import opened Metering
  import opened CreditRuns

  lemma {:induction false} RunOn(cfg: Config, from: State, steps: seq<Step>, to: State, step: Step)
    requires Run(cfg, from, steps, to) && Enabled(cfg, to, step)
    ensures Run(cfg, from, steps + [step], Next(cfg, to, step))
    decreases |steps|
  {
    if steps == [] {
      assert Run(cfg, Next(cfg, to, step), [step][1..], Next(cfg, to, step));
    } else {
      RunOn(cfg, Next(cfg, from, steps[0]), steps[1..], to, step);
      assert (steps + [step])[1..] == steps[1..] + [step];
    }
  }

  lemma ReachNext(cfg: Config, s: State, step: Step)
    requires Reachable(cfg, s) && Enabled(cfg, s, step)
    ensures Reachable(cfg, Next(cfg, s, step))
  {
    var steps :| Run(cfg, START, steps, s);
    RunOn(cfg, START, steps, s, step);
  }

  lemma NoReportInCompile()
    ensures !Contains("compile", "report") && !Contains("compile", "export") && !Contains("compile", "generate")
  {
    var text := "compile";
    forall i | 0 <= i <= |text|
      ensures !StartsAt(text, "report", i) && !StartsAt(text, "export", i)
    {
      if i + 6 <= |text| {
        assert text[i..i + 6][0] == text[i];
      }
    }
  }

  lemma CompileCosts10()
    ensures Weight("execute", "", "compile") == 10
  {
    NoReportInCompile();
    assert StartsAt("compile", "compile", 0);
    assert !ReportClass("", "compile");
  }

  /** Enough different execution ids. */
  ghost predicate Ids(ids: seq<string>) {
    && (forall i :: 0 <= i < |ids| ==> |ids[i]| == ID_LENGTH)
    && (forall i, j :: 0 <= i < j < |ids| ==> ids[i] != ids[j])
  }

  /** The first month, with one call for each of the first ids so far, `pending` of them unlogged and the credits
      `used` logged. */
  ghost predicate Stage(cfg: Config, s: State, ids: seq<string>, pending: nat, used: int) {
    && Reachable(cfg, s) && s.period == 0
    && |s.calls| <= |ids| && (forall i :: 0 <= i < |s.calls| ==> s.calls[i].execution == ids[i])
    && Pending(s) == pending && Used(s, 0) == used == Total(s.rows, CreditsSince(0))
  }

  /** A call that arrives, passes the check and succeeds. */
  lemma Admit(cfg: Config, s: State, ids: seq<string>, pending: nat, used: int, tool: string, action: string) returns (t: State)
    requires Ids(ids) && Stage(cfg, s, ids, pending, used) && |s.calls| < |ids| && pending < cfg.k && used < cfg.limit
    ensures t.rows == s.rows && t.calls == s.calls + [Call(tool, "", action, ids[|s.calls|], Succeeded)]
    ensures Stage(cfg, t, ids, pending + 1, used)
  {
    var n := |s.calls|;
    var arrive := Arrive(tool, "", action, ids[n]);
    var s1 := Next(cfg, s, arrive);
    ReachNext(cfg, s, arrive);
    var c := Call(tool, "", action, ids[n], Asked(0));
    assert s1.calls == s.calls + [c];
    TotalAppend(s.calls, c, OneInFlight());
    var s2 := Next(cfg, s1, Check(n));
    ReachNext(cfg, s1, Check(n));
    assert s2.calls == s.calls + [c.(phase := Running)];
    t := Next(cfg, s2, Succeed(n));
    ReachNext(cfg, s2, Succeed(n));
    assert t.calls == s.calls + [c.(phase := Succeeded)];
    TotalAppend(s.calls, c.(phase := Succeeded), OneInFlight());
  }

  /** Its log entry. */
  lemma Log(cfg: Config, s: State, ids: seq<string>, pending: nat, used: int, i: nat) returns (t: State)
    requires cfg.limit >= 1 && Stage(cfg, s, ids, pending, used) && i < |s.calls| && s.calls[i].phase.Succeeded? && pending > 0
    ensures t.calls == s.calls[i := s.calls[i].(phase := Logged(0))]
    ensures Stage(cfg, t, ids, pending - 1, used + s.calls[i].Cost())
  {
    ReachableIsSound(cfg, s);
    UnloggedHasNoRow(s, i);
    var row := Row(s.calls[i].Key(), s.calls[i].Cost(), 0);
    t := Next(cfg, s, Insert(i));
    ReachNext(cfg, s, Insert(i));
    assert t.rows == s.rows + [row];
    TotalAppend(s.rows, row, CreditsIn(0));
    TotalAppend(s.rows, row, CreditsSince(0));
    TotalUpdate(s.calls, i, s.calls[i].(phase := Logged(0)), OneInFlight());
  }

  /** One call at a time up to one credit below the limit. */
  lemma {:induction false} Fill(cfg: Config, ids: seq<string>, n: nat) returns (s: State)
    requires Ids(ids) && n <= |ids| && n <= cfg.limit - 1 && cfg.k >= 1
    ensures |s.calls| == n && Stage(cfg, s, ids, 0, n)
  {
    if n == 0 {
      s := START;
      assert Run(cfg, START, [], START);
    } else {
      var r := Fill(cfg, ids, n - 1);
      var t := Admit(cfg, r, ids, 0, n - 1, "search", "");
      s := Log(cfg, t, ids, 1, n - 1, n - 1);
    }
  }

  ghost predicate LastWait(s: State, m: nat) {
    m <= |s.calls| && forall i :: |s.calls| - m <= i < |s.calls| ==> s.calls[i].phase.Succeeded? && s.calls[i].Cost() == 10
  }

  /** Then `m` of the dearest calls at once, all checked before any is logged. */
  lemma {:induction false} Crowd(cfg: Config, ids: seq<string>, m: nat) returns (s: State)
    requires Ids(ids) && cfg.limit >= 1 && cfg.limit - 1 + m <= |ids| && m <= cfg.k && cfg.k >= 1
    ensures |s.calls| == cfg.limit - 1 + m && Stage(cfg, s, ids, m, cfg.limit - 1) && LastWait(s, m)
  {
    if m == 0 {
      s := Fill(cfg, ids, cfg.limit - 1);
    } else {
      var r := Crowd(cfg, ids, m - 1);
      s := Admit(cfg, r, ids, m - 1, cfg.limit - 1, "execute", "compile");
      CompileCosts10();
      assert forall i :: 0 <= i < |r.calls| ==> s.calls[i] == r.calls[i];
    }
  }

  /** And their log entries, oldest first. */
  lemma {:induction false} LogAll(cfg: Config, s: State, ids: seq<string>, m: nat, used: int) returns (t: State)
    requires cfg.limit >= 1 && Stage(cfg, s, ids, m, used) && LastWait(s, m)
    ensures Stage(cfg, t, ids, 0, used + 10 * m)
    decreases m
  {
    if m == 0 {
      t := s;
    } else {
      var r := Log(cfg, s, ids, m, used, |s.calls| - m);
      t := LogAll(cfg, r, ids, m - 1, used + 10);
    }
  }

  lemma CapIsReached(cfg: Config, ids: seq<string>) returns (s: State)
    requires Ids(ids) && cfg.limit >= 1 && cfg.k >= 1 && |ids| == cfg.limit - 1 + cfg.k
    ensures Reachable(cfg, s) && Used(s, 0) == cfg.limit - 1 + 10 * cfg.k
  {
    var full := Crowd(cfg, ids, cfg.k);
    s := LogAll(cfg, full, ids, cfg.k, cfg.limit - 1);
  }
}
