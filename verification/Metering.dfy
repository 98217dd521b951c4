/** Credit weights, the check before a tool call and the log entry after it. */
module Metering {
  import opened Options

  const FACADE_WEIGHTS: seq<(string, int)> := [("search", 1), ("get", 1), ("list", 1), ("analyze", 2), ("execute", 3)]

  const EXECUTE_WEIGHTS: seq<(string, int)> :=
    [("report", 5), ("export", 5), ("generate", 5), ("compiler", 10), ("compile", 10)]

  predicate StartsAt(text: string, part: string, i: int)
    requires 0 <= i <= |text|
  {
    i + |part| <= |text| && text[i..i + |part|] == part
  }

  predicate Contains(text: string, part: string) { exists i :: 0 <= i <= |text| && StartsAt(text, part, i) }

  predicate Mentions(resource: string, action: string, part: string) { Contains(action, part) || Contains(resource, part) }

  predicate ReportClass(resource: string, action: string) {
    Mentions(resource, action, "report") || Mentions(resource, action, "export") || Mentions(resource, action, "generate")
  }

  function ExecuteWeight(resource: string, action: string): int {
    if ReportClass(resource, action) then 5 else if Mentions(resource, action, "compile") then 10 else 3
  }

  lemma CompilerMentionsCompile(text: string)
    ensures Contains(text, "compiler") ==> Contains(text, "compile")
  {
    if Contains(text, "compiler") {
      var i :| 0 <= i <= |text| && StartsAt(text, "compiler", i);
      assert text[i..i + 7] == text[i..i + 8][..7];
      assert "compiler"[..7] == "compile";
      assert StartsAt(text, "compile", i);
    }
  }

  method CreditWeight(tool: string) returns (weight: int)
    ensures weight == if tool == "analyze" then 2 else if tool == "execute" then 3 else 1
  {
    for i := 0 to |FACADE_WEIGHTS|
      invariant forall j :: 0 <= j < i ==> FACADE_WEIGHTS[j].0 != tool
    {
      if FACADE_WEIGHTS[i].0 == tool {
        return FACADE_WEIGHTS[i].1;
      }
    }
    assert FACADE_WEIGHTS[3].0 == "analyze" && FACADE_WEIGHTS[4].0 == "execute";
    weight := 1;
  }

  /** Report-class words win over compiler words, and only the shorter compiler word matters. */
  method ExecuteActionWeight(resource: string, action: string) returns (weight: int)
    ensures weight == ExecuteWeight(resource, action)
  {
    CompilerMentionsCompile(resource);
    CompilerMentionsCompile(action);
    for i := 0 to |EXECUTE_WEIGHTS|
      invariant forall j :: 0 <= j < i ==> !Mentions(resource, action, EXECUTE_WEIGHTS[j].0)
    {
      var (pattern, w) := EXECUTE_WEIGHTS[i];
      if Mentions(resource, action, pattern) {
        assert i > 0 ==> !Mentions(resource, action, EXECUTE_WEIGHTS[0].0);
        assert i > 1 ==> !Mentions(resource, action, EXECUTE_WEIGHTS[1].0);
        assert i > 2 ==> !Mentions(resource, action, EXECUTE_WEIGHTS[2].0);
        return w;
      }
    }
    assert !Mentions(resource, action, EXECUTE_WEIGHTS[0].0) && !Mentions(resource, action, EXECUTE_WEIGHTS[1].0);
    assert !Mentions(resource, action, EXECUTE_WEIGHTS[2].0) && !Mentions(resource, action, EXECUTE_WEIGHTS[4].0);
    weight := 3;
  }

  /** What a call costs. */
  function Weight(tool: string, resource: string, action: string): (w: int)
    ensures 1 <= w <= 10
  {
    if tool == "execute" then ExecuteWeight(resource, action) else if tool == "analyze" then 2 else 1
  }

  // ---------------------------------------------------------------- the log

  /** A row of `mcp_credit_log`: `period` is the billing month its `created_at` falls into. */
  datatype Row = Row(key: string, credits: int, period: nat)

  function Total<T>(xs: seq<T>, amount: T -> int): int {
    if xs == [] then 0 else Total(xs[..|xs| - 1], amount) + amount(xs[|xs| - 1])
  }

  function CreditsSince(since: nat): Row -> int { (r: Row) => if r.period >= since then r.credits else 0 }

  predicate HasKey(rows: seq<Row>, key: string) { exists i :: 0 <= i < |rows| && rows[i].key == key }

  /** INSERT ... ON CONFLICT (idempotency_key) DO NOTHING. */
  function Inserted(rows: seq<Row>, row: Row): seq<Row> { if HasKey(rows, row.key) then rows else rows + [row] }

  function IdempotencyKey(tool: string, execution: string): string { "mcp-" + tool + "-" + execution }

  /** Execution ids are UUIDs and so of one length: the key determines both its parts. */
  lemma KeyDeterminesCall(tool: string, execution: string, tool': string, execution': string)
    requires |execution| == |execution'|
    ensures IdempotencyKey(tool, execution) == IdempotencyKey(tool', execution') <==> tool == tool' && execution == execution'
  {
    var k, k' := IdempotencyKey(tool, execution), IdempotencyKey(tool', execution');
    if k == k' {
      assert k[|k| - |execution|..] == execution && k'[|k'| - |execution|..] == execution';
      assert k[4..|k| - |execution| - 1] == tool && k'[4..|k'| - |execution| - 1] == tool';
    }
  }

  /** What the check knows about the caller: the optional parts of the context, the tier's credit limit unless
      it could not be fetched, and the answer about a subscription unless that query failed. */
  datatype Account = Account(hasDb: bool, hasOrg: bool, limit: Option<int>, subscribed: Option<bool>)
  {
    /** A free-tier organisation whose limit is enforced. */
    predicate Capped() { hasDb && hasOrg && limit.Some? && limit.value >= 0 && subscribed != Some(true) }
  }

  datatype Outcome = UnknownTool | OutOfScope | Denied(used: int) | HandlerFailed | Done

  class CreditLog {
    var rows: seq<Row>

    constructor ()
      ensures rows == []
    {
      rows := [];
    }

    /** Some(used) denies the call. `sumUp` is false when the sum could not be read. */
    method CheckCreditAllowance(account: Account, since: nat, sumUp: bool) returns (denied: Option<int>)
      ensures denied == (
        var used := if sumUp then Total(rows, CreditsSince(since)) else 0;
        if account.Capped() && used >= account.limit.value then Some(used) else None)
      ensures account.hasDb && account.hasOrg && account.limit.Some? && account.limit.value >= 0 ==>
        (account.subscribed == Some(false) || account.subscribed == None ==>
           (denied.Some? <==> (if sumUp then Total(rows, CreditsSince(since)) else 0) >= account.limit.value))
      ensures !account.hasDb || !account.hasOrg || account.limit == None ==> denied == None
      ensures account.limit.Some? && account.limit.value < 0 ==> denied == None
      ensures account.subscribed == Some(true) ==> denied == None
    {
      if !account.hasDb || !account.hasOrg || account.limit.None? {
        return None;
      }
      var limit := account.limit.value;
      if limit < 0 {
        return None;
      }
      if account.subscribed.Some? && account.subscribed.value {
        return None;
      }
      var used := 0;
      if sumUp {
        used := Total(rows, CreditsSince(since));
      }
      if used >= limit {
        return Some(used);
      }
      denied := None;
    }

    /** Returns the credits metered, if any. They are metered even when the log entry cannot be written; `insertUp`
        is false then. */
    method EmitCreditEvent(hasMeter: bool, hasDb: bool, insertUp: bool, hasOrg: bool, tool: string, resource: string, action: string,
                           execution: string, period: nat)
      returns (metered: Option<int>)
      modifies this`rows
      ensures metered == if hasMeter && hasOrg then Some(Weight(tool, resource, action)) else None
      ensures rows == if metered.Some? && hasDb && insertUp
                      then Inserted(old(rows), Row(IdempotencyKey(tool, execution), metered.value, period))
                      else old(rows)
    {
      if !hasMeter || !hasOrg {
        return None;
      }
      var weight;
      if tool == "execute" {
        weight := ExecuteActionWeight(resource, action);
      } else {
        weight := CreditWeight(tool);
      }
      if hasDb && insertUp {
        rows := Inserted(rows, Row(IdempotencyKey(tool, execution), weight, period));
      }
      metered := Some(weight);
    }

    /** `call_tool` with no other call under way: the handler runs only after the check has passed, and exactly the
        successful calls whose entry can be written are logged. */
    method CallTool(known: bool, inScope: bool, account: Account, hasMeter: bool, since: nat, sumUp: bool, insertUp: bool,
                    handlerOk: bool, tool: string, resource: string, action: string, execution: string, period: nat)
      returns (outcome: Outcome)
      modifies this`rows
      ensures outcome == (
        var used := if sumUp then Total(old(rows), CreditsSince(since)) else 0;
        if !known then UnknownTool else if !inScope then OutOfScope
        else if account.Capped() && used >= account.limit.value then Denied(used)
        else if handlerOk then Done else HandlerFailed)
      ensures account.subscribed == Some(true) || (account.limit.Some? && account.limit.value < 0) ==> !outcome.Denied?
      ensures rows == if outcome.Done? && hasMeter && account.hasOrg && account.hasDb && insertUp
                      then Inserted(old(rows), Row(IdempotencyKey(tool, execution), Weight(tool, resource, action), period))
                      else old(rows)
    {
      if !known {
        return UnknownTool;
      }
      if !inScope {
        return OutOfScope;
      }
      var denied := CheckCreditAllowance(account, since, sumUp);
      if denied.Some? {
        return Denied(denied.value);
      }
      if !handlerOk {
        return HandlerFailed;
      }
      var _ := EmitCreditEvent(hasMeter, account.hasDb, insertUp, account.hasOrg, tool, resource, action, execution, period);
      outcome := Done;
    }
  }

  // ---------------------------------------------------------------- sums

  lemma {:induction false} TotalAppend<T>(xs: seq<T>, x: T, amount: T -> int)
    ensures Total(xs + [x], amount) == Total(xs, amount) + amount(x)
  {
    assert (xs + [x])[..|xs|] == xs;
  }

  lemma {:induction false} TotalUpdate<T>(xs: seq<T>, i: nat, x: T, amount: T -> int)
    requires i < |xs|
    ensures Total(xs[i := x], amount) == Total(xs, amount) - amount(xs[i]) + amount(x)
  {
    var n := |xs| - 1;
    if i == n {
      assert xs[i := x][..n] == xs[..n];
    } else {
      TotalUpdate(xs[..n], i, x, amount);
      assert xs[i := x][..n] == xs[..n][i := x];
    }
  }

  lemma {:induction false} TotalMonotone<T>(xs: seq<T>, low: T -> int, high: T -> int)
    requires forall i :: 0 <= i < |xs| ==> low(xs[i]) <= high(xs[i])
    ensures Total(xs, low) <= Total(xs, high)
  {
    if xs != [] {
      TotalMonotone(xs[..|xs| - 1], low, high);
    }
  }
}
