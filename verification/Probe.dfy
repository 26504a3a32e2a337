/** The readiness probe loop. */
module Probe {
  import opened Wrappers
  import opened Arithmetic

  /** What probe number i answers, for every i. */
  type Stream = nat -> bool

  datatype Verdict = IsReady | GaveUp | Cancelled

  /** The last `s` of the first `n` probes all succeeded. */
  ghost predicate Streak(o: Stream, n: nat, s: nat) {
    s <= n && forall i: nat :: n - s <= i < n ==> o(i)
  }

  /** How many of the first `n` probes failed. */
  function Failures(o: Stream, n: nat): nat {
    if n == 0 then 0 else Failures(o, n - 1) + if o(n - 1) then 0 else 1
  }

  /** After `n` probes the loop knows the answer. */
  ghost predicate Decided(o: Stream, n: nat, s: nat, f: nat) {
    Streak(o, n, s) || Failures(o, n) >= f
  }

  lemma {:induction false} FailuresGrow(o: Stream, m: nat, n: nat)
    requires m <= n
    ensures Failures(o, m) <= Failures(o, n)
    decreases n
  {
    if m < n {
      FailuresGrow(o, m, n - 1);
    }
  }

  /** The measure of the loop: how many more probes it can make. */
  function Budget(s: nat, f: nat, failures: nat, streak: nat): int {
    (f - failures) * s - streak
  }

  /** Between failures there is less than one streak: every probe uses up some of the budget. */
  lemma BudgetDrops(s: nat, f: nat, failures: nat, streak: nat)
    requires failures < f && streak < s
    ensures Budget(s, f, failures, streak) > 0
    ensures Budget(s, f, failures, streak + 1) == Budget(s, f, failures, streak) - 1
    ensures Budget(s, f, failures + 1, 0) <= Budget(s, f, failures, streak) - 1
    ensures Budget(s, f, failures + 1, 0) >= 0
  {
    assert (f - failures) * s == (f - failures - 1) * s + s;
    assert (f - failures - 1) * s >= 0;
  }

  /** The loop stopped rightly: at the first probe after which the answer is known, or at the cancellation, and after at
      most f * s probes; not cancelled, it found the sandbox ready if and only if s consecutive successes come before
      the f-th failure. */
  ghost predicate Answers(o: Stream, cancelAt: Option<nat>, s: nat, f: nat, verdict: Verdict, probes: nat) {
    && probes <= f * s
    && (forall n: nat :: n < probes ==> !Decided(o, n, s, f))
    && (verdict == Cancelled <==> !Decided(o, probes, s, f))
    && (verdict == Cancelled ==> cancelAt == Some(probes))
    && (verdict == IsReady ==> Streak(o, probes, s) && Failures(o, probes) < f)
    && (verdict == GaveUp ==> Failures(o, probes) == f)
    && (cancelAt == None ==> (verdict == IsReady <==> exists n: nat :: Streak(o, n, s) && Failures(o, n) < f))
  }

  /** WaitForReady on any stream of answers. `cancelAt` is the number of probes after which the context
      is cancelled, if it is. */
  method WaitForReady(o: Stream, cancelAt: Option<nat>, successThreshold: int, failureThreshold: int)
    returns (verdict: Verdict, probes: nat)
    ensures var s := if successThreshold > 0 then successThreshold else 1;
            var f := if failureThreshold > 0 then failureThreshold else 30;
            Answers(o, cancelAt, s, f, verdict, probes)
  {
    hide Answers;
    var s, f := successThreshold, failureThreshold;
    if s <= 0 {
      s := 1;
    }
    if f <= 0 {
      f := 30;
    }
    verdict, probes := ProbeUntilDecided(o, cancelAt, s, f);
  }

  /** The loop, with the thresholds after defaults. */
  method ProbeUntilDecided(o: Stream, cancelAt: Option<nat>, s: nat, f: nat) returns (verdict: Verdict, probes: nat)
    requires s > 0 && f > 0
    ensures Answers(o, cancelAt, s, f, verdict, probes)
  {
    var consecutiveSuccess, failures: nat := 0, 0;
    probes := 0;
    while true
      invariant consecutiveSuccess < s && failures < f && failures == Failures(o, probes)
      invariant consecutiveSuccess <= probes <= f * s - Budget(s, f, failures, consecutiveSuccess)
      invariant forall i: nat :: probes - consecutiveSuccess <= i < probes ==> o(i)
      invariant consecutiveSuccess < probes ==> !o(probes - consecutiveSuccess - 1)
      invariant forall n: nat :: n <= probes ==> !Decided(o, n, s, f)
      decreases Budget(s, f, failures, consecutiveSuccess)
    {
      hide Budget;
      BudgetDrops(s, f, failures, consecutiveSuccess);
      if cancelAt == Some(probes) {
        return Cancelled, probes;
      }
      var passed := o(probes);
      probes := probes + 1;
      if passed {
        consecutiveSuccess := consecutiveSuccess + 1;
        if consecutiveSuccess >= s {
          assert Streak(o, probes, s);
          return IsReady, probes;
        }
        ShortStreak(o, probes, consecutiveSuccess, s);
      } else {
        consecutiveSuccess := 0;
        failures := failures + 1;
        ShortStreak(o, probes, 0, s);
        if failures >= f {
          NeverReady(o, probes, s, f);
          return GaveUp, probes;
        }
      }
    }
  }

  /** A failure too close rules the streak out. */
  lemma ShortStreak(o: Stream, n: nat, run: nat, s: nat)
    requires run < s && run <= n && (run < n ==> !o(n - run - 1))
    ensures !Streak(o, n, s)
  {
  }

  /** Once the failures reach the threshold undecided, no later streak comes in time. */
  lemma NeverReady(o: Stream, probes: nat, s: nat, f: nat)
    requires Failures(o, probes) >= f
    requires forall n: nat :: n < probes ==> !Decided(o, n, s, f)
    ensures forall n: nat :: !(Streak(o, n, s) && Failures(o, n) < f)
  {
    forall n: nat
      ensures !(Streak(o, n, s) && Failures(o, n) < f)
    {
      if n >= probes {
        FailuresGrow(o, probes, n);
      } else {
        assert !Decided(o, n, s, f);
      }
    }
  }

  // ---- The bound is reached ----

  /** One failure after every s - 1 successes. */
  function Stubborn(s: nat): Stream
    requires s > 0
  {
    (i: nat) => i % s != s - 1
  }

  lemma {:induction false} StubbornFailures(s: nat, n: nat)
    requires s > 0
    ensures Failures(Stubborn(s), n) == n / s
    decreases n
  {
    if n > 0 {
      StubbornFailures(s, n - 1);
      DivModNext(n - 1, s);
    }
  }

  /** F * S probes are really needed on some stream, whatever the thresholds. */
  lemma BoundIsTight(s: nat, f: nat, n: nat)
    requires s > 0 && n < f * s
    ensures !Decided(Stubborn(s), n, s, f)
  {
    StubbornFailures(s, n);
    DivBelow(n, f, s);
    if s <= n {
      LastOfBlock(s, n);
    }
  }

  /** Every window of s probes contains the failure that ends a block. */
  lemma LastOfBlock(s: nat, n: nat)
    requires 0 < s <= n
    ensures exists i: nat :: n - s <= i < n && !Stubborn(s)(i)
  {
    var q, r := n / s, n % s;
    assert n == q * s + r;
    var i := n - r - 1;
    assert i == (q - 1) * s + (s - 1);
    DivModUnique(i, s, q - 1, s - 1);
    assert !Stubborn(s)(i);
  }
}
