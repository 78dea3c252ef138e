/** The token bucket that admits tool calls (`ToolCallRateLimit` in crates/context-mcp/src/server.rs).
    Times are nanoseconds on a monotonic clock; credit is counted in nanoseconds of refill. */
module RateLimit {

  const BURST: int := 64
  const REFILL_PER_SECOND: int := 16
  const TOKEN_NANOS: int := 1_000_000_000
  const CAPACITY: int := 64_000_000_000
  const U128_MAX: int := 0xFFFF_FFFF_FFFF_FFFF_FFFF_FFFF_FFFF_FFFF

  datatype Bucket = Bucket(credit: nat, last: nat)

  function Min(a: nat, b: nat): nat { if a <= b then a else b }

  /** Unsigned 128-bit arithmetic that clamps instead of wrapping. */
  function SaturatingAdd(a: nat, b: nat): nat { Min(a + b, U128_MAX) }

  function SaturatingMul(a: nat, b: nat): nat { Min(a * b, U128_MAX) }

  /** `Instant::duration_since`: zero when the clock reads earlier than the last refill. */
  function Elapsed(last: nat, now: nat): nat { if last <= now then now - last else 0 }

  /** The credit a bucket offers at `now`, in exact arithmetic. */
  function Available(b: Bucket, now: nat): nat
  {
    Min(b.credit + REFILL_PER_SECOND * Elapsed(b.last, now), CAPACITY)
  }

  function Fresh(now: nat): Bucket { Bucket(CAPACITY, now) }

  predicate Admits(b: Bucket, now: nat) { TOKEN_NANOS <= Available(b, now) }

  function Call(b: Bucket, now: nat): Bucket
  {
    Bucket(if Admits(b, now) then Available(b, now) - TOKEN_NANOS else Available(b, now), now)
  }

  class ToolCallRateLimit {
    var creditNanos: nat
    var lastRefill: nat

    ghost function State(): Bucket reads this { Bucket(creditNanos, lastRefill) }

    constructor (now: nat)
      ensures State() == Fresh(now)
    {
      creditNanos := BURST * TOKEN_NANOS;
      lastRefill := now;
    }

    /** The saturating steps of the source never show: the result is the exact one. */
    method Admit(now: nat) returns (ok: bool)
      modifies this
      ensures ok == Admits(old(State()), now)
      ensures State() == Call(old(State()), now)
    {
      var elapsed := Elapsed(lastRefill, now);
      var refill := SaturatingMul(elapsed, REFILL_PER_SECOND);
      creditNanos := Min(SaturatingAdd(creditNanos, refill), BURST * TOKEN_NANOS);
      lastRefill := now;
      if creditNanos < TOKEN_NANOS {
        return false;
      }
      creditNanos := creditNanos - TOKEN_NANOS;
      return true;
    }
  }

  // ----- Whole sequences of calls -----

  function After(b: Bucket, times: seq<nat>): Bucket
  {
    if times == [] then b
    else Call(After(b, times[..|times| - 1]), times[|times| - 1])
  }

  function Decisions(b: Bucket, times: seq<nat>): (ds: seq<bool>)
    ensures |ds| == |times|
  {
    if times == [] then []
    else
      Decisions(b, times[..|times| - 1]) + [Admits(After(b, times[..|times| - 1]), times[|times| - 1])]
  }

  /** Calls arrive in clock order, none before the bucket was last touched. */
  predicate InOrder(from: nat, times: seq<nat>)
  {
    && (forall i | 0 <= i < |times| :: from <= times[i])
    && (forall i, j | 0 <= i < j < |times| :: times[i] <= times[j])
  }

  function Count(ds: seq<bool>): nat
  {
    if ds == [] then 0 else Count(ds[..|ds| - 1]) + if ds[|ds| - 1] then 1 else 0
  }

  /** The rule a client can check without knowing the bucket: admitting call `i` keeps the window that
      starts at call `j` and ends now within 64 calls plus 16 a second. */
  predicate WindowAllows(times: seq<nat>, ds: seq<bool>, j: nat, i: nat)
    requires j <= i < |times| && i <= |ds|
    requires times[j] <= times[i]
  {
    (Count(ds[j..i]) + 1) * TOKEN_NANOS <= BURST * TOKEN_NANOS + REFILL_PER_SECOND * Gap(times, j, i)
  }

  predicate EveryWindowAllows(times: seq<nat>, ds: seq<bool>, i: nat)
    requires i < |times| && i <= |ds|
    requires forall j | 0 <= j <= i :: times[j] <= times[i]
  {
    forall j | 0 <= j <= i :: WindowAllows(times, ds, j, i)
  }

  /** A sequence of decisions is exact when each call is admitted precisely if every window allows it. */
  predicate Exact(times: seq<nat>, ds: seq<bool>)
    requires InOrder(0, times)
  {
    && |ds| == |times|
    && forall i | 0 <= i < |times| :: ds[i] <==> EveryWindowAllows(times, ds, i)
  }

  /** Nanoseconds from call `j` to call `i`. */
  function Gap(times: seq<nat>, j: nat, i: nat): int
    requires j < |times| && i < |times|
  {
    times[i] as int - times[j] as int
  }

  /** What the window from `j` to `i` leaves, in nanoseconds of credit. */
  function Slack(times: seq<nat>, ds: seq<bool>, j: nat, i: nat): int
    requires j <= i < |times| && i <= |ds|
  {
    CAPACITY + REFILL_PER_SECOND * Gap(times, j, i) - TOKEN_NANOS * Count(ds[j..i])
  }

  lemma {:induction false} DecisionsPrefix(b: Bucket, times: seq<nat>, n: nat)
    requires n <= |times|
    ensures Decisions(b, times[..n]) == Decisions(b, times)[..n]
  {
    if n == |times| {
      assert times[..n] == times;
    } else {
      DecisionsPrefix(b, times[..|times| - 1], n);
      assert times[..|times| - 1][..n] == times[..n];
    }
  }

  lemma DecisionAt(b: Bucket, times: seq<nat>, i: nat)
    requires i < |times|
    ensures Decisions(b, times)[i] == Admits(After(b, times[..i]), times[i])
  {
    DecisionsPrefix(b, times, i + 1);
    assert times[..i + 1][..i] == times[..i];
    assert Decisions(b, times)[i] == Decisions(b, times)[..i + 1][i];
  }

  /** One more call moves every window's slack by the refill and by the token it took. */
  lemma SlackStep(times: seq<nat>, ds: seq<bool>, j: nat, i: nat)
    requires j <= i && i + 1 < |times| && |ds| == |times|
    ensures Slack(times, ds, j, i + 1)
         == Slack(times, ds, j, i) + REFILL_PER_SECOND * Gap(times, i, i + 1) - if ds[i] then TOKEN_NANOS else 0
  {
    assert ds[j..i + 1][..i - j] == ds[j..i];
    assert Count(ds[j..i + 1]) == Count(ds[j..i]) + if ds[i] then 1 else 0;
  }

  /** The credit a policy has before call `i` when it spends a token on each call it admits. */
  function PolicyCredit(times: seq<nat>, ds: seq<bool>, i: nat): int
    requires i < |times| == |ds|
  {
    if i == 0 then CAPACITY
    else
      var spent := PolicyCredit(times, ds, i - 1) - if ds[i - 1] then TOKEN_NANOS else 0;
      var refilled := spent + REFILL_PER_SECOND * Gap(times, i - 1, i);
      if refilled <= CAPACITY then refilled else CAPACITY
  }

  /** A policy's credit at call `i` is the smallest slack of the windows that end there. */
  lemma {:induction false} CreditIsLeastSlack(times: seq<nat>, ds: seq<bool>, i: nat) returns (tight: nat)
    requires InOrder(0, times) && i < |times| == |ds|
    ensures forall j | 0 <= j <= i :: PolicyCredit(times, ds, i) <= Slack(times, ds, j, i)
    ensures tight <= i && PolicyCredit(times, ds, i) == Slack(times, ds, tight, i)
  {
    assert ds[i..i] == [];
    if i == 0 {
      tight := 0;
    } else {
      var before := CreditIsLeastSlack(times, ds, i - 1);
      forall j | 0 <= j <= i - 1
        ensures PolicyCredit(times, ds, i) <= Slack(times, ds, j, i)
      {
        SlackStep(times, ds, j, i - 1);
      }
      SlackStep(times, ds, before, i - 1);
      tight := if PolicyCredit(times, ds, i) == CAPACITY then i else before;
    }
  }

  /** The bucket's credit is that of the policy made of its own answers. */
  lemma {:induction false} BucketCredit(start: nat, times: seq<nat>, i: nat)
    requires InOrder(start, times) && i < |times|
    ensures Available(After(Fresh(start), times[..i]), times[i]) ==
            PolicyCredit(times, Decisions(Fresh(start), times), i)
  {
    if i == 0 {
      assert times[..0] == [];
    } else {
      BucketCredit(start, times, i - 1);
      DecisionAt(Fresh(start), times, i - 1);
      assert times[..i][..i - 1] == times[..i - 1];
    }
  }

  lemma {:induction false} BucketIsExact(start: nat, times: seq<nat>)
    requires InOrder(start, times)
    ensures Exact(times, Decisions(Fresh(start), times))
  {
    var ds := Decisions(Fresh(start), times);
    forall i | 0 <= i < |times|
      ensures ds[i] <==> EveryWindowAllows(times, ds, i)
    {
      var tight := CreditIsLeastSlack(times, ds, i);
      BucketCredit(start, times, i);
      DecisionAt(Fresh(start), times, i);
      assert forall j | 0 <= j <= i :: WindowAllows(times, ds, j, i) <==> TOKEN_NANOS <= Slack(times, ds, j, i);
    }
  }

  lemma SameHistorySameRule(times: seq<nat>, ds: seq<bool>, es: seq<bool>, i: nat)
    requires InOrder(0, times) && i < |times| == |ds| == |es| && ds[..i] == es[..i]
    ensures EveryWindowAllows(times, ds, i) <==> EveryWindowAllows(times, es, i)
  {
    forall j: nat | j <= i
      ensures WindowAllows(times, ds, j, i) <==> WindowAllows(times, es, j, i)
    {
      assert ds[j..i] == ds[..i][j..] == es[..i][j..] == es[j..i];
    }
  }

  /** The windows determine the decisions: nothing but the bucket's answers satisfies the rule. */
  lemma {:induction false} WindowsDetermineDecisions(times: seq<nat>, ds: seq<bool>, es: seq<bool>, n: nat)
    requires InOrder(0, times) && Exact(times, ds) && Exact(times, es) && n <= |times|
    ensures ds[..n] == es[..n]
  {
    if n > 0 {
      WindowsDetermineDecisions(times, ds, es, n - 1);
      SameHistorySameRule(times, ds, es, n - 1);
      assert ds[..n] == ds[..n - 1] + [ds[n - 1]];
      assert es[..n] == es[..n - 1] + [es[n - 1]];
    }
  }

  /** The token bucket is exact: its answers are the one and only sequence obeying the window rule. */
  lemma ExactlyTheWindowRule(start: nat, times: seq<nat>, ds: seq<bool>)
    requires InOrder(start, times)
    ensures Exact(times, ds) <==> ds == Decisions(Fresh(start), times)
  {
    BucketIsExact(start, times);
    if Exact(times, ds) {
      WindowsDetermineDecisions(times, ds, Decisions(Fresh(start), times), |times|);
      assert ds[..|times|] == ds;
      assert Decisions(Fresh(start), times)[..|times|] == Decisions(Fresh(start), times);
    }
  }

  // ----- Refused calls leave no trace -----

  function Kept<T>(xs: seq<T>, keep: seq<bool>): seq<T>
    requires |keep| == |xs|
  {
    if xs == [] then []
    else Kept(xs[..|xs| - 1], keep[..|xs| - 1]) + if keep[|xs| - 1] then [xs[|xs| - 1]] else []
  }

  /** Two buckets no later call can tell apart. */
  predicate SameFrom(b: Bucket, c: Bucket, now: nat)
  {
    b.last <= now && c.last <= now && Available(b, now) == Available(c, now)
  }

  lemma SameLater(b: Bucket, c: Bucket, now: nat, later: nat)
    requires SameFrom(b, c, now) && now <= later
    ensures SameFrom(b, c, later)
  {
  }

  lemma RefusedLeavesSame(b: Bucket, c: Bucket, now: nat)
    requires SameFrom(b, c, now) && !Admits(c, now)
    ensures SameFrom(b, Call(c, now), now)
  {
  }

  function LastCall(b: Bucket, times: seq<nat>): nat { if times == [] then b.last else times[|times| - 1] }

  lemma {:induction false} RefusedCallsLeaveSameBucket(b: Bucket, times: seq<nat>, keep: seq<bool>)
    requires InOrder(b.last, times) && |keep| == |times|
    requires forall i | 0 <= i < |times| :: keep[i] || !Decisions(b, times)[i]
    ensures SameFrom(After(b, Kept(times, keep)), After(b, times), LastCall(b, times))
  {
    if times != [] {
      var n := |times| - 1;
      var earlier := times[..n];
      assert Decisions(b, times)[..n] == Decisions(b, earlier);
      RefusedCallsLeaveSameBucket(b, earlier, keep[..n]);
      var few, all := After(b, Kept(earlier, keep[..n])), After(b, earlier);
      SameLater(few, all, LastCall(b, earlier), times[n]);
      if keep[n] {
        var fewer := Kept(times, keep);
        assert fewer[..|fewer| - 1] == Kept(earlier, keep[..n]);
      } else {
        RefusedLeavesSame(few, all, times[n]);
        assert Kept(times, keep) == Kept(earlier, keep[..n]);
      }
    }
  }

  /** Deleting any of the refused calls from a sequence changes no other decision. */
  lemma {:induction false} RefusedCallsAreNeutral(b: Bucket, times: seq<nat>, keep: seq<bool>)
    requires InOrder(b.last, times) && |keep| == |times|
    requires forall i | 0 <= i < |times| :: keep[i] || !Decisions(b, times)[i]
    ensures Decisions(b, Kept(times, keep)) == Kept(Decisions(b, times), keep)
  {
    if times != [] {
      var n := |times| - 1;
      var earlier, ds := times[..n], Decisions(b, times);
      assert ds[..n] == Decisions(b, earlier);
      RefusedCallsAreNeutral(b, earlier, keep[..n]);
      if keep[n] {
        RefusedCallsLeaveSameBucket(b, earlier, keep[..n]);
        var few, all := After(b, Kept(earlier, keep[..n])), After(b, earlier);
        SameLater(few, all, LastCall(b, earlier), times[n]);
        var fewer := Kept(times, keep);
        assert fewer[..|fewer| - 1] == Kept(earlier, keep[..n]);
      } else {
        assert Kept(times, keep) == Kept(earlier, keep[..n]);
        assert Kept(ds, keep) == Kept(ds[..n], keep[..n]);
      }
    }
  }

  // ----- No policy within the windows admits more -----

  /** A policy is lawful when every call it admits is allowed by all windows ending at it. */
  predicate Lawful(times: seq<nat>, ds: seq<bool>)
    requires InOrder(0, times)
  {
    && |ds| == |times|
    && forall i | 0 <= i < |times| && ds[i] :: EveryWindowAllows(times, ds, i)
  }

  lemma LawfulPolicyIsSolvent(times: seq<nat>, ds: seq<bool>, i: nat)
    requires InOrder(0, times) && Lawful(times, ds) && i < |times| && ds[i]
    ensures TOKEN_NANOS <= PolicyCredit(times, ds, i)
  {
    var tight := CreditIsLeastSlack(times, ds, i);
    assert WindowAllows(times, ds, tight, i);
  }

  lemma CountStep(ds: seq<bool>, i: nat)
    requires i < |ds|
    ensures Count(ds[..i + 1]) == Count(ds[..i]) + if ds[i] then 1 else 0
  {
    assert ds[..i + 1][..i] == ds[..i];
  }

  /** Whatever credit another policy holds over the bucket, the bucket has already turned into admissions. */
  lemma {:induction false} GreedyStaysAhead(start: nat, times: seq<nat>, ds: seq<bool>, i: nat)
    requires InOrder(start, times) && Lawful(times, ds) && i < |times|
    ensures var own := Decisions(Fresh(start), times);
            var lead := Count(own[..i]) - Count(ds[..i]);
            0 <= lead && PolicyCredit(times, ds, i) <= PolicyCredit(times, own, i) + TOKEN_NANOS * lead
  {
    if i > 0 {
      GreedyStaysAhead(start, times, ds, i - 1);
      AheadAfterCall(start, times, ds, i - 1);
    }
  }

  lemma AheadAfterCall(start: nat, times: seq<nat>, ds: seq<bool>, i: nat)
    requires InOrder(start, times) && Lawful(times, ds) && i < |times|
    requires var own := Decisions(Fresh(start), times);
             var lead := Count(own[..i]) - Count(ds[..i]);
             0 <= lead && PolicyCredit(times, ds, i) <= PolicyCredit(times, own, i) + TOKEN_NANOS * lead
    ensures var own := Decisions(Fresh(start), times);
            var lead := Count(own[..i + 1]) - Count(ds[..i + 1]);
            && 0 <= lead
            && PolicyCredit(times, ds, i) - (if ds[i] then TOKEN_NANOS else 0)
            <= PolicyCredit(times, own, i) - (if own[i] then TOKEN_NANOS else 0) + TOKEN_NANOS * lead
  {
    var own := Decisions(Fresh(start), times);
    BucketCredit(start, times, i);
    DecisionAt(Fresh(start), times, i);
    CountStep(own, i);
    CountStep(ds, i);
    if ds[i] {
      LawfulPolicyIsSolvent(times, ds, i);
    }
  }

  /** The bucket is the most permissive limiter: after any number of calls, no policy that keeps the
      windows has admitted more. */
  lemma NoLawfulPolicyAdmitsMore(start: nat, times: seq<nat>, ds: seq<bool>, n: nat)
    requires InOrder(start, times) && Lawful(times, ds) && n <= |times|
    ensures Count(ds[..n]) <= Count(Decisions(Fresh(start), times)[..n])
  {
    if n > 0 {
      GreedyStaysAhead(start, times, ds, n - 1);
      AheadAfterCall(start, times, ds, n - 1);
    }
  }
}
