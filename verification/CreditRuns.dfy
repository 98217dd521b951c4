/** Tool calls of one free-tier organisation, in any interleaving: each is checked, executed and logged in
    separate steps, and billing months pass in between. */
module CreditRuns {
  import opened Metering

  const ID_LENGTH: nat := 36

  datatype Phase =
    | Asked(since: nat)       // has read the clock and will sum the log since that month
    | Running                 // allowed
    | Succeeded               // done, its log entry under way
    | Logged(period: nat)
    | Over                    // denied or failed

  datatype Call = Call(tool: string, resource: string, action: string, execution: string, phase: Phase)
  {
    function Cost(): (w: int) ensures 1 <= w <= 10 { Weight(tool, resource, action) }
    function Key(): string { IdempotencyKey(tool, execution) }
    predicate InFlight() { phase.Running? || phase.Succeeded? }
  }

  /** `limit`: the organisation's credits per month. `k`: how many calls there can be between check and log. */
  datatype Config = Config(limit: int, k: nat)
  {
    function Cap(): int { limit - 1 + 10 * k }
  }

  datatype State = State(period: nat, rows: seq<Row>, calls: seq<Call>)

  datatype Step =
    | Arrive(tool: string, resource: string, action: string, execution: string)
    | Check(i: nat)
    | Fail(i: nat)
    | Succeed(i: nat)
    | Insert(i: nat)
    | InsertAgain(i: nat)     // the same log entry sent twice
    | NextMonth

  function OneInFlight(): Call -> int { (c: Call) => if c.InFlight() then 1 else 0 }

  function CreditsIn(p: nat): Row -> int { (r: Row) => if r.period == p then r.credits else 0 }

  function CostIn(p: nat): Call -> int { (c: Call) => if c.phase == Logged(p) then c.Cost() else 0 }

  function Pending(s: State): int { Total(s.calls, OneInFlight()) }

  /** The credits logged in month `p`. */
  function Used(s: State, p: nat): int { Total(s.rows, CreditsIn(p)) }

  predicate Passes(cfg: Config, s: State, i: nat)
    requires i < |s.calls| && s.calls[i].phase.Asked?
  {
    Total(s.rows, CreditsSince(s.calls[i].phase.since)) < cfg.limit
  }

  predicate Enabled(cfg: Config, s: State, step: Step) {
    match step
    case Arrive(_, _, _, execution) =>
      |execution| == ID_LENGTH && forall j :: 0 <= j < |s.calls| ==> s.calls[j].execution != execution
    case Check(i) => i < |s.calls| && s.calls[i].phase.Asked? && (Passes(cfg, s, i) ==> Pending(s) < cfg.k)
    case Fail(i) => i < |s.calls| && s.calls[i].phase.Running?
    case Succeed(i) => i < |s.calls| && s.calls[i].phase.Running?
    case Insert(i) => i < |s.calls| && s.calls[i].phase.Succeeded?
    case InsertAgain(i) => i < |s.calls| && s.calls[i].phase.Logged?
    case NextMonth => true
  }

  function Moved(s: State, i: nat, phase: Phase): State
    requires i < |s.calls|
  {
    s.(calls := s.calls[i := s.calls[i].(phase := phase)])
  }

  function Next(cfg: Config, s: State, step: Step): State
    requires Enabled(cfg, s, step)
  {
    match step
    case Arrive(tool, resource, action, execution) =>
      s.(calls := s.calls + [Call(tool, resource, action, execution, Asked(s.period))])
    case Check(i) => Moved(s, i, if Passes(cfg, s, i) then Running else Over)
    case Fail(i) => Moved(s, i, Over)
    case Succeed(i) => Moved(s, i, Succeeded)
    case Insert(i) =>
      Moved(s, i, Logged(s.period)).(rows := Inserted(s.rows, Row(s.calls[i].Key(), s.calls[i].Cost(), s.period)))
    case InsertAgain(i) => s.(rows := Inserted(s.rows, Row(s.calls[i].Key(), s.calls[i].Cost(), s.period)))
    case NextMonth => s.(period := s.period + 1)
  }

  ghost predicate Run(cfg: Config, from: State, steps: seq<Step>, to: State)
    decreases |steps|
  {
    if steps == [] then from == to
    else Enabled(cfg, from, steps[0]) && Run(cfg, Next(cfg, from, steps[0]), steps[1..], to)
  }

  const START := State(0, [], [])

  ghost predicate Reachable(cfg: Config, s: State) { exists steps :: Run(cfg, START, steps, s) }

  // ---------------------------------------------------------------- every successful call is counted once

  predicate IsRowOf(row: Row, c: Call) { c.phase.Logged? && row == Row(c.Key(), c.Cost(), c.phase.period) }

  /** The call's entry is in the log, and no other entry has its key. */
  ghost predicate LoggedOnce(rows: seq<Row>, c: Call) {
    exists r :: 0 <= r < |rows| && IsRowOf(rows[r], c) && forall q :: 0 <= q < |rows| && rows[q].key == c.Key() ==> q == r
  }

  ghost predicate Distinct(calls: seq<Call>) {
    && (forall i :: 0 <= i < |calls| ==> |calls[i].execution| == ID_LENGTH)
    && (forall i, j :: 0 <= i < j < |calls| ==> calls[i].execution != calls[j].execution)
  }

  ghost predicate RowHasCall(row: Row, calls: seq<Call>) { exists i :: 0 <= i < |calls| && IsRowOf(row, calls[i]) }

  ghost predicate Accounted(s: State) {
    && Distinct(s.calls)
    && (forall i :: 0 <= i < |s.calls| && s.calls[i].phase.Logged? ==> LoggedOnce(s.rows, s.calls[i]))
    && (forall r :: 0 <= r < |s.rows| ==> RowHasCall(s.rows[r], s.calls) && s.rows[r].period <= s.period)
  }

  lemma KeyIsOwn(s: State, i: nat, j: nat)
    requires Distinct(s.calls) && i < |s.calls| && j < |s.calls| && s.calls[i].Key() == s.calls[j].Key()
    ensures i == j
  {
    KeyDeterminesCall(s.calls[i].tool, s.calls[i].execution, s.calls[j].tool, s.calls[j].execution);
  }

  lemma UnloggedHasNoRow(s: State, i: nat)
    requires Accounted(s) && i < |s.calls| && !s.calls[i].phase.Logged?
    ensures !HasKey(s.rows, s.calls[i].Key())
  {
    if HasKey(s.rows, s.calls[i].Key()) {
      var r :| 0 <= r < |s.rows| && s.rows[r].key == s.calls[i].Key();
      assert RowHasCall(s.rows[r], s.calls);
      var j :| 0 <= j < |s.calls| && IsRowOf(s.rows[r], s.calls[j]);
      KeyIsOwn(s, i, j);
    }
  }

  lemma LoggedHasRow(s: State, i: nat)
    requires Accounted(s) && i < |s.calls| && s.calls[i].phase.Logged?
    ensures HasKey(s.rows, s.calls[i].Key())
  {
    var r :| 0 <= r < |s.rows| && IsRowOf(s.rows[r], s.calls[i]);
  }

  /** Moving an unlogged call on without logging it. */
  lemma MoveKeepsAccounted(s: State, i: nat, phase: Phase)
    requires Accounted(s) && i < |s.calls| && !s.calls[i].phase.Logged? && !phase.Logged?
    ensures Accounted(Moved(s, i, phase))
  {
    RowsKeepCalls(s, i, phase);
  }

  lemma OthersStayLogged(rows: seq<Row>, row: Row, c: Call)
    requires LoggedOnce(rows, c) && row.key != c.Key()
    ensures LoggedOnce(rows + [row], c)
  {
    var r :| 0 <= r < |rows| && IsRowOf(rows[r], c) && forall q :: 0 <= q < |rows| && rows[q].key == c.Key() ==> q == r;
    assert IsRowOf((rows + [row])[r], c);
  }

  lemma NewIsLogged(rows: seq<Row>, row: Row, c: Call)
    requires !HasKey(rows, row.key) && IsRowOf(row, c)
    ensures LoggedOnce(rows + [row], c)
  {
    assert IsRowOf((rows + [row])[|rows|], c);
  }

  lemma RowsKeepCalls(s: State, i: nat, phase: Phase)
    requires Accounted(s) && i < |s.calls| && !s.calls[i].phase.Logged?
    ensures forall r :: 0 <= r < |s.rows| ==> RowHasCall(s.rows[r], Moved(s, i, phase).calls)
  {
    var t := Moved(s, i, phase);
    forall r | 0 <= r < |s.rows|
      ensures RowHasCall(s.rows[r], t.calls)
    {
      assert RowHasCall(s.rows[r], s.calls);
      var j :| 0 <= j < |s.calls| && IsRowOf(s.rows[r], s.calls[j]);
      assert t.calls[j] == s.calls[j];
    }
  }

  lemma InsertKeepsAccounted(s: State, i: nat, row: Row)
    requires Accounted(s) && i < |s.calls| && s.calls[i].phase.Succeeded?
    requires IsRowOf(row, s.calls[i].(phase := Logged(s.period)))
    ensures Accounted(Moved(s, i, Logged(s.period)).(rows := s.rows + [row]))
  {
    var t := Moved(s, i, Logged(s.period)).(rows := s.rows + [row]);
    UnloggedHasNoRow(s, i);
    RowsKeepCalls(s, i, Logged(s.period));
    NewIsLogged(s.rows, row, t.calls[i]);
    forall j | 0 <= j < |t.calls| && t.calls[j].phase.Logged? && j != i
      ensures LoggedOnce(t.rows, t.calls[j])
    {
      OthersStayLogged(s.rows, row, s.calls[j]);
    }
    assert RowHasCall(row, t.calls) by { assert IsRowOf(row, t.calls[i]); }
  }

  lemma ArrivalKeepsAccounted(s: State, c: Call)
    requires Accounted(s) && c.phase.Asked? && |c.execution| == ID_LENGTH
    requires forall j :: 0 <= j < |s.calls| ==> s.calls[j].execution != c.execution
    ensures Accounted(s.(calls := s.calls + [c]))
  {
    var t := s.(calls := s.calls + [c]);
    forall r | 0 <= r < |t.rows|
      ensures RowHasCall(t.rows[r], t.calls)
    {
      assert RowHasCall(s.rows[r], s.calls);
      var j :| 0 <= j < |s.calls| && IsRowOf(s.rows[r], s.calls[j]);
      assert IsRowOf(t.rows[r], t.calls[j]);
    }
  }

  // ---------------------------------------------------------------- conservation and the cap

  /** Month by month, the log holds exactly the cost of the calls logged in it. */
  ghost predicate Conserved(s: State) { forall p: nat :: Used(s, p) == Total(s.calls, CostIn(p)) }

  ghost predicate Bounded(cfg: Config, s: State) {
    && 0 <= Pending(s) <= cfg.k
    && Used(s, s.period) + 10 * Pending(s) <= cfg.Cap()
    && (forall p: nat :: Used(s, p) <= cfg.Cap())
    && (forall p: nat :: p > s.period ==> Used(s, p) == 0)
    && (forall i :: 0 <= i < |s.calls| && s.calls[i].phase.Asked? ==> s.calls[i].phase.since <= s.period)
  }

  ghost predicate Sound(cfg: Config, s: State) { Accounted(s) && Conserved(s) && Bounded(cfg, s) }

  lemma MoveCounts(s: State, i: nat, phase: Phase)
    requires i < |s.calls| && !s.calls[i].phase.Logged?
    ensures var t := Moved(s, i, phase);
      && Pending(t) == Pending(s) - OneInFlight()(s.calls[i]) + OneInFlight()(t.calls[i])
      && forall p: nat :: Total(t.calls, CostIn(p)) == Total(s.calls, CostIn(p)) + CostIn(p)(t.calls[i])
  {
    var c := s.calls[i].(phase := phase);
    TotalUpdate(s.calls, i, c, OneInFlight());
    forall p: nat
      ensures Total(s.calls[i := c], CostIn(p)) == Total(s.calls, CostIn(p)) + CostIn(p)(c)
    {
      TotalUpdate(s.calls, i, c, CostIn(p));
    }
  }

  lemma ArrivalCounts(s: State, c: Call)
    requires c.phase.Asked?
    ensures var t := s.(calls := s.calls + [c]);
      Pending(t) == Pending(s) && forall p: nat :: Total(t.calls, CostIn(p)) == Total(s.calls, CostIn(p))
  {
    TotalAppend(s.calls, c, OneInFlight());
    forall p: nat
      ensures Total(s.calls + [c], CostIn(p)) == Total(s.calls, CostIn(p))
    {
      TotalAppend(s.calls, c, CostIn(p));
    }
  }

  lemma InsertCounts(s: State, row: Row)
    ensures forall p: nat :: Total(s.rows + [row], CreditsIn(p)) == Used(s, p) + CreditsIn(p)(row)
  {
    forall p: nat
      ensures Total(s.rows + [row], CreditsIn(p)) == Used(s, p) + CreditsIn(p)(row)
    {
      TotalAppend(s.rows, row, CreditsIn(p));
    }
  }

  /** A check that passes saw less than the limit used in the current month, even when it looks further back. */
  lemma CheckSawMonth(cfg: Config, s: State, i: nat)
    requires Sound(cfg, s) && i < |s.calls| && s.calls[i].phase.Asked? && Passes(cfg, s, i)
    ensures Used(s, s.period) <= cfg.limit - 1
  {
    var since := s.calls[i].phase.since;
    forall r | 0 <= r < |s.rows|
      ensures CreditsIn(s.period)(s.rows[r]) <= CreditsSince(since)(s.rows[r])
    {
      assert RowHasCall(s.rows[r], s.calls);
    }
    TotalMonotone(s.rows, CreditsIn(s.period), CreditsSince(since));
  }

  lemma {:induction false} NotNegative(calls: seq<Call>)
    ensures Total(calls, OneInFlight()) >= 0
  {
    if calls != [] {
      NotNegative(calls[..|calls| - 1]);
    }
  }

  lemma MoveKeepsSound(cfg: Config, s: State, i: nat, phase: Phase)
    requires Sound(cfg, s) && i < |s.calls| && !s.calls[i].phase.Logged? && !phase.Logged? && !phase.Asked?
    requires phase.Over? || s.calls[i].InFlight() || (Used(s, s.period) <= cfg.limit - 1 && Pending(s) < cfg.k)
    ensures Sound(cfg, Moved(s, i, phase))
  {
    var t := Moved(s, i, phase);
    MoveKeepsAccounted(s, i, phase);
    MoveCounts(s, i, phase);
    NotNegative(t.calls);
    assert forall p: nat :: Used(t, p) == Used(s, p);
  }

  lemma InsertKeepsSound(cfg: Config, s: State, i: nat, row: Row)
    requires Sound(cfg, s) && i < |s.calls| && s.calls[i].phase.Succeeded?
    requires row == Row(s.calls[i].Key(), s.calls[i].Cost(), s.period)
    ensures Sound(cfg, Moved(s, i, Logged(s.period)).(rows := s.rows + [row]))
  {
    var t := Moved(s, i, Logged(s.period)).(rows := s.rows + [row]);
    InsertKeepsAccounted(s, i, row);
    MoveCounts(s, i, Logged(s.period));
    InsertCounts(s, row);
    NotNegative(t.calls);
    assert Pending(t) == Pending(s) - 1;
    assert forall p: nat :: Used(t, p) == Used(s, p) + CreditsIn(p)(row);
  }

  lemma ArrivalKeepsSound(cfg: Config, s: State, c: Call)
    requires Sound(cfg, s) && c.phase == Asked(s.period) && |c.execution| == ID_LENGTH
    requires forall j :: 0 <= j < |s.calls| ==> s.calls[j].execution != c.execution
    ensures Sound(cfg, s.(calls := s.calls + [c]))
  {
    ArrivalKeepsAccounted(s, c);
    ArrivalCounts(s, c);
    assert forall p: nat :: Used(s.(calls := s.calls + [c]), p) == Used(s, p);
  }

  lemma MonthKeepsSound(cfg: Config, s: State)
    requires cfg.limit >= 1 && Sound(cfg, s)
    ensures Sound(cfg, s.(period := s.period + 1))
  {
    var t := s.(period := s.period + 1);
    assert forall p: nat :: Used(t, p) == Used(s, p);
  }

  lemma StepKeepsSound(cfg: Config, s: State, step: Step)
    requires cfg.limit >= 1 && Sound(cfg, s) && Enabled(cfg, s, step)
    ensures Sound(cfg, Next(cfg, s, step))
  {
    match step
    case Arrive(tool, resource, action, execution) =>
      ArrivalKeepsSound(cfg, s, Call(tool, resource, action, execution, Asked(s.period)));
    case Check(i) =>
      if Passes(cfg, s, i) {
        CheckSawMonth(cfg, s, i);
        MoveKeepsSound(cfg, s, i, Running);
      } else {
        MoveKeepsSound(cfg, s, i, Over);
      }
    case Fail(i) => MoveKeepsSound(cfg, s, i, Over);
    case Succeed(i) => MoveKeepsSound(cfg, s, i, Succeeded);
    case Insert(i) =>
      UnloggedHasNoRow(s, i);
      InsertKeepsSound(cfg, s, i, Row(s.calls[i].Key(), s.calls[i].Cost(), s.period));
    case InsertAgain(i) => LoggedHasRow(s, i);
    case NextMonth => MonthKeepsSound(cfg, s);
  }

  lemma {:induction false} RunKeepsSound(cfg: Config, from: State, steps: seq<Step>, to: State)
    requires cfg.limit >= 1 && Sound(cfg, from) && Run(cfg, from, steps, to)
    ensures Sound(cfg, to)
    decreases |steps|
  {
    if steps != [] {
      StepKeepsSound(cfg, from, steps[0]);
      RunKeepsSound(cfg, Next(cfg, from, steps[0]), steps[1..], to);
    }
  }

  lemma ReachableIsSound(cfg: Config, s: State)
    requires cfg.limit >= 1 && Reachable(cfg, s)
    ensures Sound(cfg, s)
  {
    var steps :| Run(cfg, START, steps, s);
    RunKeepsSound(cfg, START, steps, s);
  }

  /** No month ever holds more than limit - 1 + 10 k credits. */
  lemma MonthIsCapped(cfg: Config, s: State, p: nat)
    requires cfg.limit >= 1 && Reachable(cfg, s)
    ensures Used(s, p) <= cfg.limit - 1 + 10 * cfg.k
  {
    ReachableIsSound(cfg, s);
  }

  /** Every call that was logged has one entry of its cost, and a month's sum is the sum of those costs. */
  lemma CallsAreCountedOnce(cfg: Config, s: State)
    requires cfg.limit >= 1 && Reachable(cfg, s)
    ensures forall i :: 0 <= i < |s.calls| && s.calls[i].phase.Logged? ==> LoggedOnce(s.rows, s.calls[i])
    ensures forall r :: 0 <= r < |s.rows| ==> RowHasCall(s.rows[r], s.calls)
    ensures forall p: nat :: Used(s, p) == Total(s.calls, CostIn(p))
  {
    ReachableIsSound(cfg, s);
  }
}
