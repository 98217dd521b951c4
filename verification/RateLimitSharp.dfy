/** The exact bounds: one request less than twice the limit can be admitted in a span of one window, and is. */
module RateLimitSharp {
  import opened Options
  import opened Redis
  import opened RateLimit
  import opened RateLimitRuns
  import Pigeonhole

  // ---------------------------------------------------------------- no more than one less

  /** The scripts leave no counter below one. */
  ghost predicate Started(run: Run, key: string) { key in run.store ==> run.store[key].value >= 1 }

  lemma {:induction false} StaysStarted(run: Run, key: string, n: nat)
    requires Started(run, key) && n <= |run.calls|
    ensures key in run.StoreAt(n) ==> run.StoreAt(n)[key].value >= 1
  {
    if n > 0 {
      StaysStarted(run, key, n - 1);
    }
  }

  lemma CountOneOpens(run: Run, key: string, window: int, i: nat)
    requires run.Counts(key, window) && Started(run, key) && run.On(key, i) && run.HitAt(i).count == 1
    ensures run.Opens(key, window, i)
  {
    StaysStarted(run, key, i);
  }

  /** Any span of `n` window lengths lets at most (n + 1)·limit - 1 calls of one counter pass: either the window
      open at its start was opened earlier, by a call outside the span, or the span starts where a window opens. */
  lemma SharpSpanBound(run: Run, key: string, window: int, limit: nat, from: int, n: nat)
    requires run.Counts(key, window) && Started(run, key) && limit > 0
    ensures |run.Passing(key, limit, from, from + n * window)| <= (n + 1) * limit - 1
  {
    var passing := run.Passing(key, limit, from, from + n * window);
    Scale(n, n, limit);
    if i :| i in passing && run.HitAt(i).count == 1 && run.Slot(i, from + 1, window) <= 0 {
      CountOneOpens(run, key, window, i);
      DivideApart(0, run.HitAt(i).end - (from + 1), window);
      assert run.calls[i].at == from;
      run.AlignedSpanBound(key, window, limit, i, n);
    } else {
      CodesFromOne(run, key, window, limit, from, n, passing);
    }
  }

  lemma CodesFromOne(run: Run, key: string, window: int, limit: nat, from: int, n: nat, passing: set<nat>)
    requires run.Counts(key, window) && limit > 0 && passing == run.Passing(key, limit, from, from + n * window)
    requires forall i :: i in passing && run.HitAt(i).count == 1 ==> run.Slot(i, from + 1, window) > 0
    requires (n + 1) * limit > 0
    ensures |passing| <= (n + 1) * limit - 1
  {
    var code := (i: nat) => run.Code(i, from + 1, window, limit) - 1;
    forall i | i in passing
      ensures 0 <= code(i) < (n + 1) * limit - 1
    {
      run.SlotInSpan(key, window, from, n, i);
      run.CodeInRange(key, window, limit, from + 1, n + 1, i);
      run.HitInItsWindow(key, window, i);
      Scale(0, run.Slot(i, from + 1, window), limit);
      Scale(1, run.Slot(i, from + 1, window), limit);
    }
    forall i, j | i in passing && j in passing && code(i) == code(j)
      ensures i == j
    {
      if i != j {
        run.DistinctCodes(key, window, limit, from + 1, if i < j then i else j, if i < j then j else i);
      }
    }
    Pigeonhole.Bound(passing, code, (n + 1) * limit - 1);
  }

  /** Any 60 seconds admit at most one request less than twice the minute limit of one counter. */
  lemma AnyMinuteAdmitsLess(traffic: Traffic, minKey: string, limit: nat, from: int, admitted: set<nat>)
    requires traffic.History().Counts(minKey, MINUTE) && Started(traffic.History(), minKey) && limit > 0
    requires forall i :: i in admitted ==> traffic.OnMinute(i, minKey, limit, from, from + 60) && traffic.Admitted(i)
    ensures |admitted| <= 2 * limit - 1
  {
    traffic.MinuteHalves(minKey, limit, from, from + MINUTE, admitted);
    SharpSpanBound(traffic.History(), minKey, MINUTE, limit, from, 1);
  }

  /** Any 3600 seconds admit at most one request less than twice the hour limit of one counter. */
  lemma AnyHourAdmitsLess(traffic: Traffic, hourKey: string, limit: nat, from: int, admitted: set<nat>)
    requires traffic.History().Counts(hourKey, HOUR) && Started(traffic.History(), hourKey) && limit > 0
    requires forall i :: i in admitted ==> traffic.OnHour(i, hourKey, limit, from, from + 3600) && traffic.Admitted(i)
    ensures |admitted| <= 2 * limit - 1
  {
    traffic.HourHalves(hourKey, limit, from, from + HOUR, admitted);
    SharpSpanBound(traffic.History(), hourKey, HOUR, limit, from, 1);
  }

  /** Inside any hour, at most one call less than 61 minute limits passes the minute test. */
  lemma AnyHourPassesMinuteTestLess(run: Run, minKey: string, limit: nat, from: int)
    requires run.Counts(minKey, MINUTE) && Started(run, minKey) && limit > 0
    ensures |run.Passing(minKey, limit, from, from + 3600)| <= 61 * limit - 1
  {
    SharpSpanBound(run, minKey, MINUTE, limit, from, 60);
  }

  // ---------------------------------------------------------------- and no less

  lemma {:induction false} SamePrefix(a: Run, b: Run, n: nat)
    requires a.store == b.store && n <= |a.calls| <= |b.calls| && forall i :: 0 <= i < |a.calls| ==> a.calls[i] == b.calls[i]
    ensures a.StoreAt(n) == b.StoreAt(n)
  {
    if n > 0 {
      SamePrefix(a, b, n - 1);
    }
  }

  /** The keys and limits of one client. */
  datatype Client = Client(minKey: string, hourKey: string, minLimit: nat, hourLimit: int)
  {
    function At(at: int): Request { Request(at, minKey, hourKey, minLimit, hourLimit) }
  }

  /** Requests of one client from an empty store, the first at 0 and the others from 1 on to `last`, all within the
      minute limit; the open minute window ends at `end` and has counted `p`. */
  ghost predicate Packed(t: Traffic, c: Client, p: nat, end: int, last: int) {
    && t.store == map[] && t.requests != [] && c.minKey != c.hourKey && 1 <= p <= c.minLimit
    && InTime(t.requests, c, last) && AllFine(t) && LeftAt(t, c, p, end)
  }

  ghost predicate InTime(requests: seq<Request>, c: Client, last: int) {
    && requests != [] && requests[0] == c.At(0) && requests[|requests| - 1].at <= last
    && (forall i :: 0 < i < |requests| ==> requests[i] == c.At(requests[i].at) && 1 <= requests[i].at)
    && (forall i :: 0 < i < |requests| ==> requests[i - 1].at <= requests[i].at)
  }

  ghost predicate AllFine(t: Traffic) { forall i: nat :: i < |t.requests| ==> Fine(t, i) }

  ghost predicate Fine(t: Traffic, i: nat)
    requires i < |t.requests|
  {
    t.PassesMinute(i) && t.History().HitAt(2 * i + 1).count <= i + 1
  }

  ghost predicate LeftAt(t: Traffic, c: Client, p: nat, end: int) {
    var store := t.History().StoreAt(2 * |t.requests|);
    && c.minKey in store && store[c.minKey] == Entry(p, Some(end))
    && c.hourKey in store && store[c.hourKey].value <= |t.requests|
  }

  function Plus(t: Traffic, r: Request): Traffic { Traffic(t.store, t.requests + [r]) }

  /** One more request does not change what came before it. */
  lemma HistoryGrows(t: Traffic, r: Request, k: nat)
    requires k <= 2 * |t.requests|
    ensures Plus(t, r).History().StoreAt(k) == t.History().StoreAt(k)
    ensures k < 2 * |t.requests| ==> Plus(t, r).History().HitAt(k) == t.History().HitAt(k)
  {
    var a, b := t.History(), Plus(t, r).History();
    forall i | 0 <= i < |a.calls|
      ensures a.calls[i] == b.calls[i]
    {
      assert a.calls[i] == t.HalfOf(i) && b.calls[i] == Plus(t, r).HalfOf(i);
    }
    SamePrefix(a, b, k);
  }

  /** What the two halves of a new request find and leave. */
  lemma LastRequest(t: Traffic, r: Request)
    requires r.minKey != r.hourKey
    ensures var h, n := Plus(t, r).History(), 2 * |t.requests|; var s := t.History().StoreAt(n);
      && |h.calls| == n + 2 && h.calls[n].limit == r.minLimit
      && h.StoreAt(n + 2) == Touch(Touch(s, r.at, r.minKey, MINUTE), r.at, r.hourKey, HOUR)
      && h.HitAt(n).count == h.StoreAt(n + 2)[r.minKey].value && h.HitAt(n + 1).count == h.StoreAt(n + 2)[r.hourKey].value
  {
    var h, n := Plus(t, r).History(), 2 * |t.requests|;
    HistoryGrows(t, r, n);
    assert h.calls[n] == Plus(t, r).HalfOf(n) && h.calls[n + 1] == Plus(t, r).HalfOf(n + 1);
    assert h.StoreAt(n + 1) == Touch(h.StoreAt(n), r.at, r.minKey, MINUTE);
  }

  lemma StaysFine(t: Traffic, r: Request, i: nat)
    requires i < |t.requests| && Fine(t, i)
    ensures Fine(Plus(t, r), i)
  {
    var k := 2 * i;
    HistoryGrows(t, r, k);
    HistoryGrows(t, r, k + 1);
    assert Plus(t, r).History().calls[k] == Plus(t, r).HalfOf(k) == t.HalfOf(k) == t.History().calls[k];
  }

  lemma NewIsFine(t: Traffic, c: Client, p: nat, end: int, at: int)
    requires LeftAt(t, c, p, end) && c.minKey != c.hourKey && c.minLimit > 0 && (at < end ==> p < c.minLimit)
    ensures Fine(Plus(t, c.At(at)), |t.requests|)
    ensures LeftAt(Plus(t, c.At(at)), c, if at < end then p + 1 else 1, if at < end then end else at + MINUTE)
  {
    LastRequest(t, c.At(at));
  }

  lemma AddRequest(t: Traffic, c: Client, p: nat, end: int, last: int, at: int) returns (t': Traffic)
    requires Packed(t, c, p, end, last) && 1 <= at && last <= at && (at < end ==> p < c.minLimit)
    ensures |t'.requests| == |t.requests| + 1
    ensures Packed(t', c, if at < end then p + 1 else 1, if at < end then end else at + MINUTE, at)
  {
    var r, n := c.At(at), |t.requests|;
    t' := Plus(t, r);
    NewIsFine(t, c, p, end, at);
    forall i: nat | i < |t'.requests|
      ensures Fine(t', i)
    {
      if i < n {
        StaysFine(t, r, i);
      }
    }
  }

  lemma First(c: Client) returns (t: Traffic)
    requires c.minKey != c.hourKey && c.minLimit > 0
    ensures |t.requests| == 1 && Packed(t, c, 1, MINUTE, 0)
  {
    var none := Traffic(map[], []);
    t := Plus(none, c.At(0));
    LastRequest(none, c.At(0));
    assert none.History().StoreAt(0) == map[];
  }

  /** Uses up the open window at one moment. */
  lemma {:induction false} FillWindow(t: Traffic, c: Client, p: nat, end: int, last: int, at: int) returns (t': Traffic)
    requires Packed(t, c, p, end, last) && 1 <= at && last <= at < end
    ensures |t'.requests| == |t.requests| + c.minLimit - p && Packed(t', c, c.minLimit, end, at)
    decreases c.minLimit - p
  {
    if p == c.minLimit {
      t' := t;
    } else {
      var u := AddRequest(t, c, p, end, last, at);
      t' := FillWindow(u, c, p + 1, end, at, at);
    }
  }

  /** Opens a new window at the end of the last one and uses it up at once. */
  lemma NextWindow(t: Traffic, c: Client, end: int, last: int) returns (t': Traffic)
    requires Packed(t, c, c.minLimit, end, last) && last <= end && end >= 1
    ensures |t'.requests| == |t.requests| + c.minLimit && Packed(t', c, c.minLimit, end + MINUTE, end)
  {
    var u := AddRequest(t, c, c.minLimit, end, last, end);
    t' := FillWindow(u, c, 1, end + MINUTE, end, end);
  }

  /** The first window used up in its last second, and `n` more in their first. */
  lemma {:induction false} FillWindows(c: Client, n: nat) returns (t: Traffic)
    requires c.minKey != c.hourKey && c.minLimit > 0
    ensures |t.requests| == (n + 1) * c.minLimit
    ensures Packed(t, c, c.minLimit, MINUTE * n + MINUTE, if n == 0 then MINUTE - 1 else MINUTE * n)
  {
    if n == 0 {
      var u := First(c);
      t := FillWindow(u, c, 1, MINUTE, 0, MINUTE - 1);
    } else {
      var u := FillWindows(c, n - 1);
      t := NextWindow(u, c, MINUTE * n, if n == 1 then MINUTE - 1 else MINUTE * n - MINUTE);
      Scale(n, n, c.minLimit);
    }
  }

  function Range(lo: nat, hi: nat): set<nat> { if lo < hi then Range(lo, hi - 1) + {hi - 1} else {} }

  lemma {:induction false} RangeIs(lo: nat, hi: nat)
    requires lo <= hi
    ensures |Range(lo, hi)| == hi - lo && forall i :: i in Range(lo, hi) <==> lo <= i < hi
  {
    if lo < hi {
      RangeIs(lo, hi - 1);
    }
  }

  lemma {:induction false} NotAfterLast(requests: seq<Request>, c: Client, last: int, i: nat)
    requires InTime(requests, c, last) && i < |requests|
    ensures requests[i].at <= last
    decreases |requests| - i
  {
    if i + 1 < |requests| {
      NotAfterLast(requests, c, last, i + 1);
      assert requests[i + 1 - 1].at <= requests[i + 1].at;
    }
  }

  /** A request of the client at a time in 1..until-1 that passes the minute test. */
  ghost predicate PassesIn(t: Traffic, c: Client, i: nat, until: int) {
    t.OnMinute(i, c.minKey, c.minLimit, 1, until) && t.PassesMinute(i)
  }

  ghost predicate IsAdmitted(t: Traffic, i: nat) { i < |t.requests| && t.Admitted(i) }

  lemma PackedPasses(t: Traffic, c: Client, p: nat, end: int, last: int, i: nat)
    requires Packed(t, c, p, end, last) && 0 < i < |t.requests|
    ensures PassesIn(t, c, i, 1 + last)
    ensures c.hourLimit >= |t.requests| ==> IsAdmitted(t, i)
  {
    NotAfterLast(t.requests, c, last, i);
    assert Fine(t, i);
    assert t.History().calls[2 * i + 1] == t.HalfOf(2 * i + 1);
  }

  lemma AllButFirst(t: Traffic, c: Client, p: nat, end: int, last: int) returns (passed: set<nat>)
    requires Packed(t, c, p, end, last)
    ensures |passed| == |t.requests| - 1 && forall i :: i in passed ==> PassesIn(t, c, i, 1 + last)
    ensures c.hourLimit >= |t.requests| ==> forall i :: i in passed ==> IsAdmitted(t, i)
  {
    passed := Range(1, |t.requests|);
    RangeIs(1, |t.requests|);
    forall i | i in passed
      ensures PassesIn(t, c, i, 1 + last)
      ensures c.hourLimit >= |t.requests| ==> IsAdmitted(t, i)
    {
      PackedPasses(t, c, p, end, last, i);
    }
  }

  /** For every client and every n, some traffic passes the minute test (n + 1)·limit - 1 times in n minutes, and
      is admitted as often if the hour limit allows that many. */
  lemma BoundIsReached(c: Client, n: nat) returns (t: Traffic, passed: set<nat>)
    requires c.minKey != c.hourKey && c.minLimit > 0 && n > 0
    ensures t.store == map[] && t.History().Counts(c.minKey, MINUTE)
    ensures |passed| == (n + 1) * c.minLimit - 1 && forall i :: i in passed ==> PassesIn(t, c, i, 1 + MINUTE * n)
    ensures c.hourLimit >= (n + 1) * c.minLimit ==> forall i :: i in passed ==> IsAdmitted(t, i)
  {
    t := FillWindows(c, n);
    passed := AllButFirst(t, c, c.minLimit, MINUTE * n + MINUTE, MINUTE * n);
    RequestsCount(t, c, MINUTE * n);
  }

  lemma RequestsCount(t: Traffic, c: Client, last: int)
    requires t.store == map[] && InTime(t.requests, c, last) && c.minKey != c.hourKey
    ensures t.History().Counts(c.minKey, MINUTE)
  {
    var h := t.History();
    forall k | 0 <= k < |h.calls|
      ensures h.calls[k].at == t.requests[k / 2].at && (h.calls[k].key == c.minKey ==> h.calls[k].window == MINUTE)
    {
      assert h.calls[k] == t.HalfOf(k);
      assert k / 2 == 0 || t.requests[k / 2] == c.At(t.requests[k / 2].at);
    }
    forall k | 0 < k < |h.calls|
      ensures h.calls[k - 1].at <= h.calls[k].at
    {
      assert (k - 1) / 2 == k / 2 || (k - 1) / 2 == k / 2 - 1;
    }
  }

  /** So in 60 seconds exactly 2·limit - 1 requests can be admitted. */
  lemma MinuteBoundIsReached(c: Client) returns (t: Traffic, admitted: set<nat>)
    requires c.minKey != c.hourKey && c.minLimit > 0 && c.hourLimit >= 2 * c.minLimit
    ensures t.store == map[] && |admitted| == 2 * c.minLimit - 1
    ensures forall i :: i in admitted ==> PassesIn(t, c, i, 1 + MINUTE) && IsAdmitted(t, i)
  {
    t, admitted := BoundIsReached(c, 1);
  }

  /** And in an hour 61·limit - 1 requests can pass the minute test, under a project's limits too. */
  lemma HourOfMinutesIsReached(c: Client) returns (t: Traffic, passed: set<nat>)
    requires c.minKey != c.hourKey && c.minLimit > 0
    ensures t.store == map[] && |passed| == 61 * c.minLimit - 1 && forall i :: i in passed ==> PassesIn(t, c, i, 1 + HOUR)
  {
    t, passed := BoundIsReached(c, 60);
  }

  // ---------------------------------------------------------------- the run system and the code

  /** Checking request `i` of a traffic at its time moves Redis as the run system says, and allows exactly the
      admitted ones. */
  method Serve(redis: Server<int>, traffic: Traffic, i: nat) returns (verdict: Verdict)
    requires i < |traffic.requests| && traffic.requests[i].minKey != traffic.requests[i].hourKey
    requires redis.store == traffic.History().StoreAt(2 * i) && redis.now == traffic.requests[i].at
    modifies redis`store
    ensures redis.store == traffic.History().StoreAt(2 * i + 2)
    ensures verdict.Allowed? <==> traffic.Admitted(i)
    ensures !verdict.Unavailable?
  {
    var r := traffic.requests[i];
    verdict := CheckDualWindow(redis, r.minKey, r.hourKey, r.minLimit, r.hourLimit, Answered);
    ghost var h := traffic.History();
    assert h.calls[2 * i] == traffic.HalfOf(2 * i) && h.calls[2 * i + 1] == traffic.HalfOf(2 * i + 1);
    assert h.StoreAt(2 * i + 1) == Touch(h.StoreAt(2 * i), r.at, r.minKey, MINUTE);
  }
}
