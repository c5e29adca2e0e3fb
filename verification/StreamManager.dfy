/** The reconnection loop (stream_manager.go:135-159) over a script of outcomes. */
module StreamManagers {
  import opened Backoffs

  /** One attempt to resume: it works, or fails, with an error marked permanent or not. */
  datatype Attempt = Works | Fails(permanent: bool)

  /** `StillTrying` is the loop at the point where the script runs out. */
  datatype Result = Connected | Unrecoverable | StillTrying

  predicate Temporary(a: Attempt) {
    a == Fails(false)
  }

  /** How many attempts fail temporarily before the first that does not. */
  function TemporaryFailures(outcomes: seq<Attempt>): (n: nat)
    ensures n <= |outcomes|
    ensures forall i :: 0 <= i < n ==> Temporary(outcomes[i])
    ensures n < |outcomes| ==> !Temporary(outcomes[n])
  {
    if outcomes == [] || !Temporary(outcomes[0]) then 0 else 1 + TemporaryFailures(outcomes[1..])
  }

  function Sum(sleeps: seq<nat>): nat {
    if sleeps == [] then 0 else Sum(sleeps[..|sleeps| - 1]) + sleeps[|sleeps| - 1]
  }

  /** Each sleep is drawn from below its own exponentially growing bound. */
  ghost predicate Jittered(sleeps: seq<nat>) {
    forall k :: 0 <= k < |sleeps| ==> sleeps[k] < DefaultBound(k)
  }

  class StreamManager {
    var attempts: nat
    var metricsStarted: nat
    var postConnects: nat

    constructor ()
      ensures attempts == metricsStarted == postConnects == 0
    {
      attempts, metricsStarted, postConnects := 0, 0, 0;
    }

    method Resume(outcomes: seq<Attempt>) returns (result: Result, sleeps: seq<nat>)
      modifies this
      ensures var n := TemporaryFailures(outcomes);
              && |sleeps| == n && Jittered(sleeps)
              && result == (if n == |outcomes| then StillTrying
                            else if outcomes[n].Works? then Connected else Unrecoverable)
              && attempts - old(attempts) == n + (if n == |outcomes| then 0 else 1)
              && metricsStarted - old(metricsStarted) == attempts - old(attempts)
              && postConnects - old(postConnects) == (if result.Connected? then 1 else 0)
    {
      var backoff := new Backoff();
      sleeps := [];
      for i := 0 to |outcomes|
        invariant |sleeps| == i && Jittered(sleeps)
        invariant TemporaryFailures(outcomes) == i + TemporaryFailures(outcomes[i..])
        invariant attempts == old(attempts) + i && metricsStarted == old(metricsStarted) + i
        invariant postConnects == old(postConnects)
        invariant !backoff.noJitter && backoff.attempt == i
        invariant backoff.CurrentBound() == DefaultBound(i)
        invariant backoff.base in {0, DEFAULT_BASE} && backoff.factor in {0, DEFAULT_FACTOR}
        invariant backoff.cap in {0, DEFAULT_CAP}
        invariant fresh(backoff)
      {
        assert outcomes[i..][0] == outcomes[i] && outcomes[i..][1..] == outcomes[i + 1..];
        metricsStarted := metricsStarted + 1;
        attempts := attempts + 1;
        if outcomes[i].Works? {
          postConnects := postConnects + 1;
          return Connected, sleeps;
        }
        if outcomes[i].permanent {
          return Unrecoverable, sleeps;
        }
        var d := backoff.Duration();
        sleeps := sleeps + [d];
      }
      return StillTrying, sleeps;
    }
  }

  lemma {:induction false} SumBelowTotal(sleeps: seq<nat>)
    requires Jittered(sleeps)
    ensures Sum(sleeps) + |sleeps| <= TotalBound(|sleeps|)
  {
    if sleeps != [] {
      SumBelowTotal(sleeps[..|sleeps| - 1]);
    }
  }

  /**
   After `n` temporary failures the loop has waited less than 20 * (2^n - 1)
   ms while the delays still double, and three minutes more for each later one.
   */
  lemma WaitingIsBounded(sleeps: seq<nat>)
    requires Jittered(sleeps)
    ensures var n := |sleeps|;
            Sum(sleeps) + n <= 20 * (Pow(2, if n <= 14 then n else 14) - 1) + 180000 * (if n <= 14 then 0 else n - 14)
    ensures forall k :: 0 <= k < |sleeps| ==> sleeps[k] < 180000 && sleeps[k] < 20 * Pow(2, k)
  {
    SumBelowTotal(sleeps);
    TotalBoundClosed(|sleeps|);
  }
}
