/** How much the fixed-window counters let through, over every run of every mix of requests. */
module RateLimitRuns {
  import opened Options
  import opened Redis
  import opened RateLimit
  import Pigeonhole

  /** One counter touched by one script half, judged against one limit. */
  datatype Call = Call(at: int, key: string, window: int, limit: int)

  /** What the script half returned: the count, and the end of the window it counted in. */
  datatype Hit = Hit(count: int, end: int)

  datatype Run = Run(store: Store<int>, calls: seq<Call>)
  {
    function StoreAt(n: nat): Store<int>
      requires n <= |calls|
    {
      if n == 0 then store
      else Touch(StoreAt(n - 1), calls[n - 1].at, calls[n - 1].key, calls[n - 1].window)
    }

    function HitAt(i: nat): Hit
      requires i < |calls|
    {
      var entry := Touched(StoreAt(i), calls[i].at, calls[i].key, calls[i].window);
      Hit(entry.value, entry.expiry.value)
    }

    lemma HitIsNextEntry(i: nat)
      requires i < |calls|
      ensures StoreAt(i + 1)[calls[i].key] == Entry(HitAt(i).count, Some(HitAt(i).end))
    {
    }

    predicate Passes(i: nat)
      requires i < |calls|
    {
      HitAt(i).count <= calls[i].limit
    }

    /** Times never go back, every call on `key` uses the same window, and the run starts from a counter this
        code could have left: absent, live, stale, or without an expiry. */
    ghost predicate Counts(key: string, window: int) {
      && window > 0
      && (forall i :: 0 < i < |calls| ==> calls[i - 1].at <= calls[i].at)
      && (forall i :: 0 <= i < |calls| && calls[i].key == key ==> calls[i].window == window)
      && (key in store ==> store[key].value >= 0)
      && (key in store && store[key].expiry.Some? ==>
            calls == [] || store[key].expiry.value <= calls[0].at + window)
    }

    lemma {:induction false} InOrder(key: string, window: int, i: nat, j: nat)
      requires Counts(key, window) && i <= j < |calls|
      ensures calls[i].at <= calls[j].at
    {
      if i < j {
        InOrder(key, window, i, j - 1);
      }
    }

    ghost predicate On(key: string, i: nat) { i < |calls| && calls[i].key == key }

    // -------------------------------------------------------------- windows

    lemma {:induction false} EntryAt(key: string, window: int, n: nat)
      requires Counts(key, window) && n <= |calls|
      ensures key in StoreAt(n) ==> StoreAt(n)[key].value >= 0
      ensures key in StoreAt(n) && StoreAt(n)[key].expiry.Some? && n < |calls| ==>
        StoreAt(n)[key].expiry.value <= calls[n].at + window
    {
      if n > 0 {
        EntryAt(key, window, n - 1);
        if n < |calls| {
          assert calls[n - 1].at <= calls[n].at;
        }
      }
    }

    /** Every hit counts from one, inside a window that is open and at most one window long. */
    lemma HitInItsWindow(key: string, window: int, i: nat)
      requires Counts(key, window) && On(key, i)
      ensures 1 <= HitAt(i).count && calls[i].at < HitAt(i).end <= calls[i].at + window
    {
      EntryAt(key, window, i);
    }

    /** After call `i` the counter stays in that call's window, with no smaller count and the same end, until
        it moves to a window that ends at least one window length later. */
    lemma {:induction false} EntryAfter(key: string, window: int, i: nat, n: nat)
      requires Counts(key, window) && On(key, i) && i < n <= |calls|
      ensures key in StoreAt(n) && StoreAt(n)[key].expiry.Some?
      ensures var e := StoreAt(n)[key];
        (e.expiry.value == HitAt(i).end && e.value >= HitAt(i).count) || e.expiry.value >= HitAt(i).end + window
    {
      if i + 1 < n {
        EntryAfter(key, window, i, n - 1);
      }
    }

    lemma LaterHit(key: string, window: int, i: nat, j: nat)
      requires Counts(key, window) && On(key, i) && On(key, j) && i < j
      ensures (HitAt(j).end == HitAt(i).end && HitAt(j).count > HitAt(i).count) || HitAt(j).end >= HitAt(i).end + window
    {
      EntryAfter(key, window, i, j);
    }

    lemma {:induction false} EntryUntouched(key: string, from: nat, n: nat)
      requires from <= n <= |calls| && forall k :: from <= k < n ==> calls[k].key != key
      ensures key in StoreAt(n) <==> key in StoreAt(from)
      ensures key in StoreAt(n) ==> StoreAt(n)[key] == StoreAt(from)[key]
    {
      if from < n {
        EntryUntouched(key, from, n - 1);
      }
    }

    /** No request moves an open window, and the first request at or after its end counts as one. */
    lemma WindowIsFixed(key: string, window: int, i: nat, j: nat)
      requires Counts(key, window) && On(key, i) && On(key, j) && i < j
      requires forall k :: i < k < j ==> calls[k].key != key
      ensures calls[j].at < HitAt(i).end ==> HitAt(j).end == HitAt(i).end && HitAt(j).count == HitAt(i).count + 1
      ensures calls[j].at >= HitAt(i).end ==> HitAt(j).end == calls[j].at + window && HitAt(j).count == 1
    {
      EntryUntouched(key, i + 1, j);
    }

    ghost function Touches(key: string, from: nat, n: nat): set<nat> {
      set i: nat | from <= i < n && i < |calls| && calls[i].key == key
    }

    lemma OneMoreTouch(key: string, from: nat, n: nat)
      requires from <= n < |calls|
      ensures |Touches(key, from, n + 1)| == |Touches(key, from, n)| + (if calls[n].key == key then 1 else 0)
    {
      var before, after := Touches(key, from, n), Touches(key, from, n + 1);
      assert n !in before && (n in after <==> calls[n].key == key);
      assert after - {n} == before;
    }

    /** The count in a window is the number of calls made in it. */
    lemma {:induction false} CountIsTouches(key: string, window: int, open: nat, n: nat)
      requires Counts(key, window) && Opens(key, window, open) && open < n <= |calls|
      ensures key in StoreAt(n) && StoreAt(n)[key].expiry.Some?
      ensures StoreAt(n)[key].expiry.value == HitAt(open).end ==> StoreAt(n)[key].value == |Touches(key, open, n)|
    {
      OneMoreTouch(key, open, n - 1);
      if n == open + 1 {
        assert Touches(key, open, open) == {};
      } else {
        CountIsTouches(key, window, open, n - 1);
        EntryAfter(key, window, open, n - 1);
      }
    }

    // -------------------------------------------------------------- bounds

    /** The calls on `key` that pass, with a limit of at most `limit`, at a time in from..until-1. */
    ghost function Passing(key: string, limit: int, from: int, until: int): set<nat> {
      set i: nat | i < |calls| && calls[i].key == key && from <= calls[i].at < until
                && calls[i].limit <= limit && Passes(i)
    }

    /** The window of a hit, counted in window lengths from `base`. */
    function Slot(i: nat, base: int, window: int): int
      requires i < |calls| && window > 0
    {
      (HitAt(i).end - base) / window
    }

    /** Numbers a hit by its window and its count in that window. */
    function Code(i: nat, base: int, window: int, limit: nat): int
      requires window > 0
    {
      if i < |calls| then Slot(i, base, window) * limit + HitAt(i).count - 1 else 0
    }

    lemma CodeInRange(key: string, window: int, limit: nat, base: int, n: nat, i: nat)
      requires Counts(key, window) && On(key, i) && HitAt(i).count <= limit && 0 <= Slot(i, base, window) < n
      ensures 0 <= Code(i, base, window, limit) < n * limit
    {
      HitInItsWindow(key, window, i);
      Scale(0, Slot(i, base, window), limit);
      Scale(Slot(i, base, window), n - 1, limit);
    }

    lemma DistinctCodes(key: string, window: int, limit: nat, base: int, i: nat, j: nat)
      requires Counts(key, window) && On(key, i) && On(key, j) && i < j
      requires HitAt(i).count <= limit && HitAt(j).count <= limit
      ensures Code(i, base, window, limit) != Code(j, base, window, limit)
    {
      HitInItsWindow(key, window, i);
      HitInItsWindow(key, window, j);
      LaterHit(key, window, i, j);
      DivideApart(HitAt(i).end - base, HitAt(j).end - base, window);
      Scale(Slot(i, base, window), Slot(j, base, window) - 1, limit);
    }

    /** If every passing call of a span lies in one of `n` consecutive slots, at most n·limit calls pass in it. */
    lemma PassingInSlots(key: string, window: int, limit: nat, passing: set<nat>, base: int, n: nat)
      requires Counts(key, window)
      requires forall i :: i in passing ==> On(key, i) && HitAt(i).count <= limit && 0 <= Slot(i, base, window) < n
      ensures |passing| <= n * limit
    {
      var code := (i: nat) => Code(i, base, window, limit);
      forall i | i in passing
        ensures 0 <= code(i) < n * limit
      {
        CodeInRange(key, window, limit, base, n, i);
      }
      forall i, j | i in passing && j in passing && code(i) == code(j)
        ensures i == j
      {
        if i != j {
          DistinctCodes(key, window, limit, base, if i < j then i else j, if i < j then j else i);
        }
      }
      Pigeonhole.Bound(passing, code, n * limit);
    }

    lemma SlotInSpan(key: string, window: int, from: int, n: nat, i: nat)
      requires Counts(key, window) && On(key, i) && from <= calls[i].at < from + n * window
      ensures 0 <= Slot(i, from + 1, window) < n + 1
    {
      HitInItsWindow(key, window, i);
      Scale(n, n, window);
      DivideWithin(HitAt(i).end - (from + 1), n + 1, window);
    }

    /** Any span of `n` window lengths lets at most (n + 1)·limit calls of one counter pass. */
    lemma SpanBound(key: string, window: int, limit: nat, from: int, n: nat)
      requires Counts(key, window)
      ensures |Passing(key, limit, from, from + n * window)| <= (n + 1) * limit
    {
      var passing := Passing(key, limit, from, from + n * window);
      forall i | i in passing
        ensures On(key, i) && HitAt(i).count <= limit && 0 <= Slot(i, from + 1, window) < n + 1
      {
        SlotInSpan(key, window, from, n, i);
      }
      PassingInSlots(key, window, limit, passing, from + 1, n + 1);
    }

    /** A window opened by call `open`: its count starts at one and it lasts a full window. */
    ghost predicate Opens(key: string, window: int, open: nat) {
      On(key, open) && HitAt(open) == Hit(1, calls[open].at + window)
    }

    /** No call at or after the time a window opens is counted in an earlier window. */
    lemma AfterOpening(key: string, window: int, open: nat, i: nat)
      requires Counts(key, window) && Opens(key, window, open) && On(key, i) && calls[open].at <= calls[i].at
      ensures open <= i && HitAt(i).end >= calls[open].at + window
    {
      HitInItsWindow(key, window, i);
      if i != open {
        LaterHit(key, window, if i < open then i else open, if i < open then open else i);
      }
    }

    /** A span that starts where a window opens loses the extra window: at most n·limit calls pass. */
    lemma AlignedSpanBound(key: string, window: int, limit: nat, open: nat, n: nat)
      requires Counts(key, window) && Opens(key, window, open)
      ensures |Passing(key, limit, calls[open].at, calls[open].at + n * window)| <= n * limit
    {
      var from := calls[open].at;
      var passing := Passing(key, limit, from, from + n * window);
      forall i | i in passing
        ensures 0 <= Slot(i, from + window, window) < n
      {
        HitInItsWindow(key, window, i);
        AfterOpening(key, window, open, i);
        DivideWithin(HitAt(i).end - (from + window), n, window);
      }
      PassingInSlots(key, window, limit, passing, from + window, n);
    }
  }

  // ---------------------------------------------------------------- project usage limits

  /** `check_project_usage_limit`: whoever touches the hour counter of a project has just touched its minute
      counter, at the same moment, under the project's limit per minute; the hour limit is 60 times that. */
  ghost predicate Paired(run: Run, minKey: string, hourKey: string, limit: nat) {
    forall k :: 0 <= k < |run.calls| && run.calls[k].key == hourKey ==>
      && 0 < k && run.calls[k].limit == HourlyUsageLimit(limit)
      && run.calls[k - 1] == Call(run.calls[k].at, minKey, MINUTE, limit)
  }

  /** Inside any hour, at most 61 minute limits pass the minute test. */
  lemma MinuteTestPassesPerHour(run: Run, minKey: string, limit: nat, from: int)
    requires run.Counts(minKey, MINUTE)
    ensures |run.Passing(minKey, limit, from, from + 3600)| <= 61 * limit
  {
    run.SpanBound(minKey, MINUTE, limit, from, 60);
  }

  /** The minute halves of the calls counted in an hour window. */
  lemma MinuteHalvesPass(run: Run, minKey: string, hourKey: string, limit: nat, open: nat, j: nat,
                         touches: set<nat>, passing: set<nat>)
    requires run.Counts(hourKey, HOUR) && Paired(run, minKey, hourKey, limit)
    requires open <= j && run.On(hourKey, open) && run.On(hourKey, j) && run.calls[j].at < run.calls[open].at + HOUR
    requires forall k :: open <= k <= j && run.On(hourKey, k) ==> run.Passes(k - 1)
    requires touches == run.Touches(hourKey, open, j + 1)
    requires passing == run.Passing(minKey, limit, run.calls[open].at, run.calls[open].at + HOUR)
    ensures |touches| <= |passing|
  {
    forall k | k in touches
      ensures k >= 1 && k - 1 in passing
    {
      run.InOrder(hourKey, HOUR, open, k);
      run.InOrder(hourKey, HOUR, k, j);
      assert run.On(hourKey, k);
    }
    NoMoreThan(touches, passing, k => if k == 0 then 0 else k - 1);
  }

  /** When the hour window opens together with a minute window and no call in it has failed the minute test,
      the hour test does not fail either. */
  lemma HourTestNeverFailsFirst(run: Run, minKey: string, hourKey: string, limit: nat, open: nat, j: nat)
    requires run.Counts(minKey, MINUTE) && run.Counts(hourKey, HOUR)
    requires Paired(run, minKey, hourKey, limit) && limit * 60 <= I32_MAX
    requires 0 < open <= j && run.On(hourKey, j)
    requires run.Opens(minKey, MINUTE, open - 1) && run.Opens(hourKey, HOUR, open)
    requires run.HitAt(j).end == run.HitAt(open).end
    requires forall k :: open <= k <= j && run.On(hourKey, k) ==> run.Passes(k - 1)
    ensures run.Passes(j)
  {
    run.HitInItsWindow(hourKey, HOUR, j);
    MinuteHalvesPass(run, minKey, hourKey, limit, open, j, run.Touches(hourKey, open, j + 1),
                     run.Passing(minKey, limit, run.calls[open].at, run.calls[open].at + HOUR));
    run.AlignedSpanBound(minKey, MINUTE, limit, open - 1, 60);
    run.CountIsTouches(hourKey, HOUR, open, j + 1);
    run.HitIsNextEntry(j);
  }

  /** In an hour window the hour test passes exactly the first 60 times the limit per minute, short of the largest
      32-bit number. */
  lemma HourTestPassesSixtyLimits(run: Run, minKey: string, hourKey: string, limit: nat, open: nat, j: nat)
    requires run.Counts(hourKey, HOUR) && Paired(run, minKey, hourKey, limit)
    requires open <= j && run.Opens(hourKey, HOUR, open) && run.On(hourKey, j) && run.HitAt(j).end == run.HitAt(open).end
    ensures run.Passes(j) <==> |run.Touches(hourKey, open, j + 1)| <= if 60 * limit <= 2147483647 then 60 * limit else 2147483647
  {
    run.CountIsTouches(hourKey, HOUR, open, j + 1);
    run.HitIsNextEntry(j);
  }

  // ---------------------------------------------------------------- whole requests

  /** One dual-window check. */
  datatype Request = Request(at: int, minKey: string, hourKey: string, minLimit: int, hourLimit: int)

  /** Requests of all users and projects in the order Redis runs their scripts. */
  datatype Traffic = Traffic(store: Store<int>, requests: seq<Request>)
  {
    /** Call 2i is the minute half of request i, call 2i + 1 its hour half. */
    function Calls(): (calls: seq<Call>)
      ensures |calls| == 2 * |requests|
    {
      seq(2 * |requests|, k requires 0 <= k < 2 * |requests| => HalfOf(k))
    }

    function HalfOf(k: nat): Call
      requires k < 2 * |requests|
    {
      var r := requests[k / 2];
      if k % 2 == 0 then Call(r.at, r.minKey, MINUTE, r.minLimit) else Call(r.at, r.hourKey, HOUR, r.hourLimit)
    }

    function History(): Run { Run(store, Calls()) }

    predicate PassesMinute(i: nat)
      requires i < |requests|
    {
      History().Passes(2 * i)
    }

    predicate PassesHour(i: nat)
      requires i < |requests|
    {
      History().Passes(2 * i + 1)
    }

    /** The verdict of `CheckDualWindow` on request `i`. */
    predicate Admitted(i: nat)
      requires i < |requests|
    {
      PassesMinute(i) && PassesHour(i)
    }

    ghost predicate OnMinute(i: nat, minKey: string, limit: int, from: int, until: int) {
      i < |requests| && requests[i].minKey == minKey && requests[i].minLimit <= limit && from <= requests[i].at < until
    }

    ghost predicate OnHour(i: nat, hourKey: string, limit: int, from: int, until: int) {
      i < |requests| && requests[i].hourKey == hourKey && requests[i].hourLimit <= limit && from <= requests[i].at < until
    }

    lemma MinuteHalves(minKey: string, limit: nat, from: int, until: int, passed: set<nat>)
      requires forall i :: i in passed ==> OnMinute(i, minKey, limit, from, until) && PassesMinute(i)
      ensures |passed| <= |History().Passing(minKey, limit, from, until)|
    {
      var passing := History().Passing(minKey, limit, from, until);
      forall i | i in passed
        ensures 2 * i in passing
      {
        assert History().calls[2 * i] == HalfOf(2 * i);
      }
      NoMoreThan(passed, passing, i => 2 * i);
    }

    lemma HourHalves(hourKey: string, limit: nat, from: int, until: int, passed: set<nat>)
      requires forall i :: i in passed ==> OnHour(i, hourKey, limit, from, until) && PassesHour(i)
      ensures |passed| <= |History().Passing(hourKey, limit, from, until)|
    {
      var passing := History().Passing(hourKey, limit, from, until);
      forall i | i in passed
        ensures 2 * i + 1 in passing
      {
        assert History().calls[2 * i + 1] == HalfOf(2 * i + 1);
      }
      NoMoreThan(passed, passing, i => 2 * i + 1);
    }

    /** Any 60 seconds at all admit at most twice the minute limit of one counter. */
    lemma AnyMinuteAdmitsTwiceTheLimit(minKey: string, limit: nat, from: int, admitted: set<nat>)
      requires History().Counts(minKey, MINUTE)
      requires forall i :: i in admitted ==> OnMinute(i, minKey, limit, from, from + 60) && Admitted(i)
      ensures |admitted| <= 2 * limit
    {
      MinuteHalves(minKey, limit, from, from + MINUTE, admitted);
      History().SpanBound(minKey, MINUTE, limit, from, 1);
    }

    /** Any 3600 seconds at all admit at most twice the hour limit of one counter. */
    lemma AnyHourAdmitsTwiceTheLimit(hourKey: string, limit: nat, from: int, admitted: set<nat>)
      requires History().Counts(hourKey, HOUR)
      requires forall i :: i in admitted ==> OnHour(i, hourKey, limit, from, from + 3600) && Admitted(i)
      ensures |admitted| <= 2 * limit
    {
      HourHalves(hourKey, limit, from, from + HOUR, admitted);
      History().SpanBound(hourKey, HOUR, limit, from, 1);
    }
  }

  /** A set that is mapped one to one into another is no larger than it. */
  lemma {:induction false} NoMoreThan(small: set<nat>, large: set<nat>, f: nat -> nat)
    requires forall i :: i in small ==> f(i) in large
    requires forall i, j :: i in small && j in small && f(i) == f(j) ==> i == j
    ensures |small| <= |large|
  {
    if i :| i in small {
      NoMoreThan(small - {i}, large - {f(i)}, f);
    }
  }

  // ---------------------------------------------------------------- arithmetic

  lemma Scale(x: int, y: int, factor: nat)
    ensures x <= y ==> x * factor <= y * factor
    ensures (x + 1) * factor == x * factor + factor && (y + 1) * factor == y * factor + factor
  {
  }

  lemma DivideApart(a: int, b: int, unit: int)
    requires unit > 0
    ensures b >= a + unit ==> b / unit >= a / unit + 1
  {
    Scale(b / unit, a / unit, unit);
    assert a == a / unit * unit + a % unit && b == b / unit * unit + b % unit;
  }

  lemma DivideWithin(a: int, n: nat, unit: int)
    requires unit > 0 && 0 <= a < n * unit
    ensures 0 <= a / unit < n
  {
    Scale(n, a / unit, unit);
    Scale(a / unit, -1, unit);
    assert a == a / unit * unit + a % unit;
  }
}
