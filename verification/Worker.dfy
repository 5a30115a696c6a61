/** Starting the collector with retries, and the worker's clean-up. */
module Worker {
  import opened Wrappers

  datatype RetrySettings = RetrySettings(attempts: int, baseDelay: real, maxDelay: real)

  /** What the settings validators let through. */
  predicate ValidSettings(s: RetrySettings) {
    s.attempts > 0 && s.baseDelay > 0.0 && s.maxDelay > 0.0
  }

  /** How one attempt goes; `built` says whether the container existed when it failed. */
  datatype Attempt = Starts | ConnectionFails(built: bool) | FailsOtherwise(built: bool)

  datatype StartError = ConnectionError | OtherError

  /** A dependency container. It enters itself into the ledger of the start-up that builds it. */
  class Container {
    var closes: nat

    constructor (ledger: Startup)
      modifies ledger`containers
      ensures closes == 0 && ledger.containers == old(ledger.containers) + [this]
    {
      closes := 0;
      new;
      ledger.containers := ledger.containers + [this];
    }

    method Close()
      modifies this
      ensures closes == old(closes) + 1
    {
      closes := closes + 1;
    }
  }

  function Min(a: real, b: real): real {
    if a <= b then a else b
  }

  /** The first sleep is the base delay; each further one is twice the one before, or the maximum if that is less. */
  predicate BacksOff(s: RetrySettings, sleeps: seq<real>) {
    && (sleeps != [] ==> sleeps[0] == s.baseDelay)
    && forall i :: 0 < i < |sleeps| ==>
         sleeps[i] == if sleeps[i - 1] * 2.0 <= s.maxDelay then sleeps[i - 1] * 2.0 else s.maxDelay
  }

  function NextSleep(s: RetrySettings, sleeps: seq<real>): real {
    if sleeps == [] then s.baseDelay else Min(sleeps[|sleeps| - 1] * 2.0, s.maxDelay)
  }

  lemma {:induction false} OneMoreSleep(s: RetrySettings, sleeps: seq<real>, delay: real)
    requires BacksOff(s, sleeps) && delay == NextSleep(s, sleeps)
    ensures BacksOff(s, sleeps + [delay]) && NextSleep(s, sleeps + [delay]) == Min(delay * 2.0, s.maxDelay)
  {
  }

  function Pow2(n: nat): int {
    if n == 0 then 1 else 2 * Pow2(n - 1)
  }

  /** Length of the k-th sleep, k from 1. */
  function Delay(s: RetrySettings, k: nat): real
    requires k > 0
  {
    if k == 1 then s.baseDelay else Min(s.baseDelay * Pow2(k - 1) as real, s.maxDelay)
  }

  predicate AreDelays(s: RetrySettings, sleeps: seq<real>) {
    forall i :: 0 <= i < |sleeps| ==> sleeps[i] == Delay(s, i + 1)
  }

  function Sum(xs: seq<real>): real {
    if xs == [] then 0.0 else Sum(xs[..|xs| - 1]) + xs[|xs| - 1]
  }

  /** Doubling and capping the previous delay gives the next one of the closed form. */
  lemma {:induction false} DelayDoubles(s: RetrySettings, k: nat)
    requires ValidSettings(s) && k > 0
    ensures Delay(s, k + 1) == Min(Delay(s, k) * 2.0, s.maxDelay)
  {
    assert Pow2(k) == 2 * Pow2(k - 1);
    assert s.baseDelay * Pow2(k) as real == s.baseDelay * Pow2(k - 1) as real * 2.0;
    assert Pow2(0) == 1;
  }

  lemma {:induction false} DelayIsBounded(s: RetrySettings, k: nat)
    requires ValidSettings(s) && k > 0
    ensures Delay(s, k) <= s.baseDelay * Pow2(k - 1) as real
    ensures k > 1 ==> Delay(s, k) <= s.maxDelay
  {
    assert Pow2(0) == 1;
  }

  function TotalDelay(s: RetrySettings, n: nat): real {
    if n == 0 then 0.0 else TotalDelay(s, n - 1) + Delay(s, n)
  }

  lemma {:induction false} SumOfDelays(s: RetrySettings, sleeps: seq<real>)
    requires AreDelays(s, sleeps)
    ensures Sum(sleeps) == TotalDelay(s, |sleeps|)
  {
    if sleeps != [] {
      SumOfDelays(s, sleeps[..|sleeps| - 1]);
    }
  }

  /** The k-th sleep is the base delay times a power of two, capped from the second on. */
  lemma {:induction false} BackOffIsClosedForm(s: RetrySettings, sleeps: seq<real>)
    requires ValidSettings(s) && BacksOff(s, sleeps)
    ensures AreDelays(s, sleeps)
  {
    if sleeps != [] {
      var n := |sleeps| - 1;
      BackOffIsClosedForm(s, sleeps[..n]);
      if n > 0 {
        assert sleeps[n - 1] == sleeps[..n][n - 1] == Delay(s, n);
        DelayDoubles(s, n);
      }
      forall i | 0 <= i < |sleeps| ensures sleeps[i] == Delay(s, i + 1) {
        assert i < n ==> sleeps[i] == sleeps[..n][i];
      }
    }
  }

  /** The delay without the cap. */
  function Uncapped(s: RetrySettings, k: nat): real
    requires k > 0
  {
    if k == 1 then s.baseDelay else 2.0 * Uncapped(s, k - 1)
  }

  lemma {:induction false} TwiceProduct(b: real, p: int, q: int)
    requires q == 2 * p
    ensures 2.0 * (b * p as real) == b * q as real
    ensures b * q as real - b == b * (q - 1) as real
  {
    assert q as real == 2.0 * p as real;
    assert (q - 1) as real == q as real - 1.0;
  }

  lemma {:induction false} UncappedIsPower(s: RetrySettings, k: nat)
    requires k > 0
    ensures Uncapped(s, k) == s.baseDelay * Pow2(k - 1) as real
  {
    if k > 1 {
      UncappedIsPower(s, k - 1);
      TwiceProduct(s.baseDelay, Pow2(k - 2), Pow2(k - 1));
    } else {
      assert Pow2(0) == 1;
    }
  }

  lemma {:induction false} DelaysDouble(s: RetrySettings, n: nat)
    requires ValidSettings(s) && n > 0
    ensures TotalDelay(s, n) <= 2.0 * Uncapped(s, n) - s.baseDelay
  {
    assert Delay(s, n) <= Uncapped(s, n) by {
      DelayIsBounded(s, n);
      UncappedIsPower(s, n);
    }
    if n > 1 {
      DelaysDouble(s, n - 1);
    } else {
      assert TotalDelay(s, 0) == 0.0;
    }
  }

  lemma {:induction false} DelaysAreCapped(s: RetrySettings, n: nat)
    requires ValidSettings(s) && n > 0
    ensures TotalDelay(s, n) <= s.baseDelay + (n - 1) as real * s.maxDelay
  {
    if n == 1 {
      assert TotalDelay(s, 0) == 0.0;
    } else {
      DelaysAreCapped(s, n - 1);
      DelayIsBounded(s, n);
      assert (n - 1) as real * s.maxDelay == (n - 2) as real * s.maxDelay + s.maxDelay;
    }
  }

  /** The total sleep is below the doubling sum. */
  lemma {:induction false} TotalSleepDoubles(s: RetrySettings, sleeps: seq<real>)
    requires ValidSettings(s) && BacksOff(s, sleeps)
    ensures Sum(sleeps) <= s.baseDelay * (Pow2(|sleeps|) - 1) as real
  {
    BackOffIsClosedForm(s, sleeps);
    SumOfDelays(s, sleeps);
    var n := |sleeps|;
    if n > 0 {
      DelaysDouble(s, n);
      UncappedIsPower(s, n);
      TwiceProduct(s.baseDelay, Pow2(n - 1), Pow2(n));
    }
  }

  /** The total sleep is below the base delay and the cap for every further one. */
  lemma {:induction false} TotalSleepIsCapped(s: RetrySettings, sleeps: seq<real>)
    requires ValidSettings(s) && BacksOff(s, sleeps) && sleeps != []
    ensures Sum(sleeps) <= s.baseDelay + (|sleeps| - 1) as real * s.maxDelay
  {
    BackOffIsClosedForm(s, sleeps);
    SumOfDelays(s, sleeps);
    DelaysAreCapped(s, |sleeps|);
  }

  /** The attempts made: up to the first that is not a connection failure, and no more than allowed. */
  predicate StopsAt(s: RetrySettings, attempts: nat -> Attempt, n: nat) {
    && 1 <= n <= s.attempts
    && (forall i: nat :: 1 <= i < n ==> attempts(i).ConnectionFails?)
    && (attempts(n).ConnectionFails? ==> n == s.attempts)
  }

  /** Whether an attempt got as far as having a container. */
  predicate Builds(a: Attempt) {
    a.Starts? || a.built
  }

  /** The number of containers built in the first `n` attempts. */
  function Built(attempts: nat -> Attempt, n: nat): nat {
    if n == 0 then 0 else Built(attempts, n - 1) + if Builds(attempts(n)) then 1 else 0
  }

  /** The attempts among the first `n` that got as far as having a container. */
  function Builders(attempts: nat -> Attempt, n: nat): set<nat> {
    set i: nat | 1 <= i <= n && (match attempts(i)
                                 case Starts => true
                                 case ConnectionFails(built) => built
                                 case FailsOtherwise(built) => built)
  }

  /** One container for each of them. */
  lemma {:induction false} BuiltIsCount(attempts: nat -> Attempt, n: nat)
    ensures Built(attempts, n) == |Builders(attempts, n)|
  {
    if n == 0 {
      assert Builders(attempts, 0) == {};
    } else {
      BuiltIsCount(attempts, n - 1);
      OneMoreBuilder(attempts, n);
    }
  }

  lemma {:induction false} OneMoreBuilder(attempts: nat -> Attempt, n: nat)
    requires n > 0
    ensures n !in Builders(attempts, n - 1)
    ensures Builders(attempts, n) == Builders(attempts, n - 1) + if Builds(attempts(n)) then {n} else {}
  {
    forall i: nat ensures i in Builders(attempts, n) <==> i in Builders(attempts, n - 1) || (i == n && Builds(attempts(n))) {
    }
  }

  /** What the process did while starting: attempts made, sleeps taken and containers built, in order. */
  class Startup {
    var made: nat
    var sleeps: seq<real>
    var containers: seq<Container>

    constructor ()
      ensures made == 0 && sleeps == [] && containers == []
    {
      made, sleeps, containers := 0, [], [];
    }

    /** Every attempt up to the last has its container here, if it built one, and no two share one. */
    ghost predicate Accounted(attempts: nat -> Attempt)
      reads this
    {
      |containers| == Built(attempts, made)
      && forall i, j :: 0 <= i < j < |containers| ==> containers[i] != containers[j]
    }

    ghost predicate AllClosed()
      reads this, containers
    {
      forall i :: 0 <= i < |containers| ==> containers[i].closes == 1
    }

    /** All containers are closed exactly once, but for the last one, closed `last` times. */
    ghost predicate ClosedBut(last: nat)
      reads this, containers
    {
      && containers != []
      && (forall i :: 0 <= i < |containers| - 1 ==> containers[i].closes == 1)
      && containers[|containers| - 1].closes == last
    }

    /** Sleeps, and doubles the delay up to the maximum. */
    method Sleep(settings: RetrySettings, delay: real) returns (next: real)
      requires BacksOff(settings, sleeps) && delay == NextSleep(settings, sleeps)
      modifies this`sleeps
      ensures |sleeps| == old(|sleeps|) + 1 && BacksOff(settings, sleeps) && next == NextSleep(settings, sleeps)
    {
      OneMoreSleep(settings, sleeps, delay);
      sleeps := sleeps + [delay];
      return Min(delay * 2.0, settings.maxDelay);
    }

    /** The start of an attempt: a new container, entered in the ledger, unless making it fails. */
    method MakeContainer(outcome: Attempt) returns (container: Container?)
      modifies this`containers
      ensures if outcome.Starts? || outcome.built then
                container != null && fresh(container) && container.closes == 0 && containers == old(containers) + [container]
              else container == null && containers == old(containers)
    {
      if !outcome.Starts? && !outcome.built {
        return null;
      }
      container := new Container(this);
    }

    /**
      At most the allowed attempts are made, one sleep between two of them. Of the containers built, those of
      attempts that failed to connect are closed exactly once; the one returned is open; one left by another
      error is not closed.
     */
    method BuildAndStartSchedulerWithRetry(settings: RetrySettings, attempts: nat -> Attempt)
      returns (r: Result<Container, StartError>)
      requires ValidSettings(settings) && made == 0 && sleeps == [] && containers == []
      modifies this
      ensures StopsAt(settings, attempts, made)
      ensures |sleeps| == made - 1 && BacksOff(settings, sleeps)
      ensures fresh(containers) && Accounted(attempts)
      ensures match attempts(made)
              case Starts => ClosedBut(0) && r == Success(containers[|containers| - 1])
              case ConnectionFails(_) => r == Failure(ConnectionError) && AllClosed()
              case FailsOtherwise(built) =>
                && r == Failure(OtherError)
                && if built then ClosedBut(0) else AllClosed()
    {
      var delay := settings.baseDelay;
      var attempt := 1;
      while attempt <= settings.attempts
        invariant 1 <= attempt <= settings.attempts
        invariant made == attempt - 1 == |sleeps| && BacksOff(settings, sleeps)
        invariant delay == NextSleep(settings, sleeps)
        invariant forall i: nat :: 1 <= i < attempt ==> attempts(i).ConnectionFails?
        invariant forall i :: 0 <= i < |containers| ==> fresh(containers[i])
        invariant AllClosed()
        invariant Accounted(attempts)
        decreases settings.attempts - attempt
      {
        made := attempt;
        var outcome := attempts(attempt);
        var container := MakeContainer(outcome);
        assert Accounted(attempts);
        if outcome.Starts? {
          return Success(container);
        }
        if outcome.FailsOtherwise? {
          return Failure(OtherError);
        }
        if container != null {
          container.Close();
        }
        if attempt >= settings.attempts {
          return Failure(ConnectionError);
        }
        delay := Sleep(settings, delay);
        attempt := attempt + 1;
      }
      // The loop always returns: the error after the loop in worker.py is never reached.
      assert false;
    }

    /** After a start, the container is closed exactly once when the stop event comes, unless the shutdown before it raises. */
    method RunWorker(enabled: bool, settings: RetrySettings, attempts: nat -> Attempt, shutdownRaises: bool)
      returns (r: Result<Option<Container>, StartError>, shutdowns: nat)
      requires ValidSettings(settings) && made == 0 && sleeps == [] && containers == []
      modifies this
      ensures !enabled ==> r == Success(None) && shutdowns == 0 && made == 0 && sleeps == [] && containers == []
      ensures enabled ==>
                && StopsAt(settings, attempts, made)
                && |sleeps| == made - 1 && BacksOff(settings, sleeps)
                && fresh(containers) && Accounted(attempts)
                && match attempts(made)
                   case Starts =>
                     && shutdowns == 1 && ClosedBut(if shutdownRaises then 0 else 1)
                     && r == if shutdownRaises then Failure(OtherError) else Success(Some(containers[|containers| - 1]))
                   case ConnectionFails(_) =>
                     && shutdowns == 0 && r == Failure(ConnectionError)
                     && AllClosed()
                   case FailsOtherwise(built) =>
                     && shutdowns == 0 && r == Failure(OtherError)
                     && if built then ClosedBut(0) else AllClosed()
    {
      shutdowns := 0;
      if !enabled {
        return Success(None), 0;
      }
      var started := BuildAndStartSchedulerWithRetry(settings, attempts);
      if started.Failure? {
        return Failure(started.error), 0;
      }
      shutdowns := 1;
      if shutdownRaises {
        return Failure(OtherError), shutdowns;
      }
      started.value.Close();
      return Success(Some(started.value)), shutdowns;
    }
  }

  /** An attempt that builds its container and then fails with anything but a connection error leaves it open. */
  method UnexpectedErrorLeaksContainer() returns (startup: Startup, r: Result<Container, StartError>)
    ensures fresh(startup) && r == Failure(OtherError)
    ensures |startup.containers| == 1 && startup.containers[0].closes == 0
  {
    startup := new Startup();
    var attempts: nat -> Attempt := n => FailsOtherwise(true);
    r := startup.BuildAndStartSchedulerWithRetry(RetrySettings(3, 1.0, 5.0), attempts);
    assert Built(attempts, 0) == 0 && Built(attempts, 1) == 1;
    assert startup.made == 1;
  }
}
