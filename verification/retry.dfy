/** The retry gate: one request, retried with exponential backoff. */
module Retry {
  import opened Wrappers
  import opened Api

  /** Attempts made before giving up. */
  const MAX_RETRIES: nat := 3
  /** First backoff delay, in seconds; it doubles after every wait. */
  const RETRY_DELAY: nat := 1

  /** What the gate does, in order: a call, or a sleep of some seconds. */
  datatype Event = Request | Sleep(seconds: nat)

  function Pow2(n: nat): (p: nat)
    ensures p >= 1
  {
    if n == 0 then 1 else 2 * Pow2(n - 1)
  }

  /** The number of attempts made when attempt i is the next one: up to and including
      the first that succeeds, and never more than MAX_RETRIES. */
  function AttemptsFrom(attempt: nat -> Outcome, i: nat): (n: nat)
    requires i < MAX_RETRIES
    decreases MAX_RETRIES - i
    ensures i < n <= MAX_RETRIES
    ensures forall j :: i <= j < n - 1 ==> !Succeeded(attempt(j))
    ensures Succeeded(attempt(n - 1)) || n == MAX_RETRIES
  {
    if Succeeded(attempt(i)) || i + 1 == MAX_RETRIES then i + 1 else AttemptsFrom(attempt, i + 1)
  }

  /** The number of attempts the gate makes against the given oracle. */
  function AttemptsMade(attempt: nat -> Outcome): (n: nat)
    ensures 1 <= n <= MAX_RETRIES
    ensures forall j :: 0 <= j < n - 1 ==> !Succeeded(attempt(j))
    ensures Succeeded(attempt(n - 1)) || n == MAX_RETRIES
  {
    AttemptsFrom(attempt, 0)
  }

  /** Every one of the MAX_RETRIES attempts failed. */
  predicate GaveUp(attempt: nat -> Outcome)
  {
    forall i :: 0 <= i < MAX_RETRIES ==> !Succeeded(attempt(i))
  }

  /** The first attempt the gate returns from got JSON `null`. */
  predicate AnsweredNull(attempt: nat -> Outcome)
  {
    exists i :: 0 <= i < MAX_RETRIES && Succeeded(attempt(i)) && attempt(i).payload.JsonNull? &&
                forall j :: 0 <= j < i ==> !Succeeded(attempt(j))
  }

  /** What the gate returns: what `response.json()` handed back at the first of
      MAX_RETRIES attempts that got status 200 with a decodable body, or None when none
      of them did. So None means the gate gave up or the server answered `null`. */
  function GateResult(attempt: nat -> Outcome): (r: Option<Body>)
    ensures r.None? <==> GaveUp(attempt) || AnsweredNull(attempt)
  {
    var n := AttemptsMade(attempt);
    if Succeeded(attempt(n - 1)) then Answer(attempt(n - 1)) else None
  }

  /** Unless it gave up, the gate hands back what `response.json()` gave at the first
      attempt that got status 200 with a decodable body. */
  lemma GateReturnsFirstAnswer(attempt: nat -> Outcome)
    ensures !GaveUp(attempt) ==>
              exists i :: 0 <= i < MAX_RETRIES && Succeeded(attempt(i)) && GateResult(attempt) == Answer(attempt(i)) &&
                          forall j :: 0 <= j < i ==> !Succeeded(attempt(j))
  {
    var n := AttemptsMade(attempt);
    if !GaveUp(attempt) {
      assert Succeeded(attempt(n - 1));
    }
  }

  /** The events of k failed attempts that were each followed by a backoff wait. */
  function Retries(k: nat): seq<Event>
  {
    if k == 0 then [] else Retries(k - 1) + [Request, Sleep(RETRY_DELAY * Pow2(k - 1))]
  }

  /** The events of a gate that makes n attempts: no wait after the last one. */
  function Trace(n: nat): seq<Event>
    requires n >= 1
  {
    Retries(n - 1) + [Request]
  }

  /** `call_api_with_retry`: the gate as a loop over attempts, recording each call and
      each sleep in the log instead of sleeping. */
  method CallApiWithRetry(attempt: nat -> Outcome) returns (result: Option<Body>, log: seq<Event>)
    ensures result == GateResult(attempt)
    ensures log == Trace(AttemptsMade(attempt))
  {
    var retries: nat := 0;
    var delay: nat := RETRY_DELAY;
    log := [];
    while retries < MAX_RETRIES
      invariant retries <= MAX_RETRIES
      invariant forall j :: 0 <= j < retries ==> !Succeeded(attempt(j))
      invariant retries < MAX_RETRIES ==> delay == RETRY_DELAY * Pow2(retries)
      invariant log == if retries < MAX_RETRIES then Retries(retries) else Trace(MAX_RETRIES)
    {
      log := log + [Request];
      var outcome := attempt(retries);
      if outcome.Response? && outcome.status == 200 {
        // `return response.json()`; a decoding error is caught below like any failure
        if !outcome.payload.Undecodable? {
          result := Answer(outcome);
          return;
        }
      }
      retries := retries + 1;
      if retries < MAX_RETRIES {
        log := log + [Sleep(delay)];
        delay := delay * 2;
      }
    }
    result := None;
  }

  /** The number of calls in a log. */
  function CallCount(log: seq<Event>): nat
  {
    if log == [] then 0 else CallCount(log[..|log| - 1]) + (if log[|log| - 1].Request? then 1 else 0)
  }

  /** The total time slept in a log. */
  function SleptFor(log: seq<Event>): nat
  {
    if log == [] then 0 else SleptFor(log[..|log| - 1]) + (if log[|log| - 1].Sleep? then log[|log| - 1].seconds else 0)
  }

  lemma {:induction false} CountsAppend(a: seq<Event>, b: seq<Event>)
    ensures CallCount(a + b) == CallCount(a) + CallCount(b)
    ensures SleptFor(a + b) == SleptFor(a) + SleptFor(b)
    decreases |b|
  {
    if b != [] {
      assert (a + b)[..|a + b| - 1] == a + b[..|b| - 1];
      assert (a + b)[|a + b| - 1] == b[|b| - 1];
      CountsAppend(a, b[..|b| - 1]);
    } else {
      assert a + b == a;
    }
  }

  lemma {:induction false} RetriesShape(k: nat)
    ensures |Retries(k)| == 2 * k
    ensures forall i :: 0 <= i < k ==> Retries(k)[2 * i] == Request && Retries(k)[2 * i + 1] == Sleep(RETRY_DELAY * Pow2(i))
    ensures CallCount(Retries(k)) == k
    ensures SleptFor(Retries(k)) == RETRY_DELAY * (Pow2(k) - 1)
  {
    if k > 0 {
      RetriesShape(k - 1);
      CountsAppend(Retries(k - 1), [Request, Sleep(RETRY_DELAY * Pow2(k - 1))]);
      assert [Request, Sleep(RETRY_DELAY * Pow2(k - 1))][..1] == [Request];
      assert [Request][..0] == [];
    }
  }

  /** A gate making n attempts calls n times, alternates calls with waits of 1, 2, 4, ...
      seconds, starts and ends with a call (never waits after the last attempt), and
      sleeps 2^(n-1) - 1 seconds in all. */
  lemma {:induction false} TraceShape(n: nat)
    requires n >= 1
    ensures |Trace(n)| == 2 * n - 1
    ensures forall i :: 0 <= i < n ==> Trace(n)[2 * i] == Request
    ensures forall i :: 0 <= i < n - 1 ==> Trace(n)[2 * i + 1] == Sleep(RETRY_DELAY * Pow2(i))
    ensures CallCount(Trace(n)) == n
    ensures SleptFor(Trace(n)) == RETRY_DELAY * (Pow2(n - 1) - 1)
  {
    RetriesShape(n - 1);
    CountsAppend(Retries(n - 1), [Request]);
    assert [Request][..0] == [];
  }

  /** The gate returns on the first success and makes no further attempt. */
  lemma StopsAtFirstSuccess(attempt: nat -> Outcome, i: nat)
    requires i < MAX_RETRIES && Succeeded(attempt(i))
    requires forall j :: 0 <= j < i ==> !Succeeded(attempt(j))
    ensures AttemptsMade(attempt) == i + 1
    ensures GateResult(attempt) == Answer(attempt(i))
  {
  }

  /** A first answer of JSON `null` is returned as it is: the gate yields None after a
      single attempt, without retrying. */
  lemma NullNotRetried(attempt: nat -> Outcome)
    requires attempt(0) == Response(200, JsonNull)
    ensures AttemptsMade(attempt) == 1 && Trace(AttemptsMade(attempt)) == [Request]
    ensures GateResult(attempt) == None && AnsweredNull(attempt) && !GaveUp(attempt)
  {
    assert Retries(0) == [];
  }

  /** A 200 whose body is not JSON counts as a failed attempt: the gate waits a second
      and tries again. */
  lemma UndecodableRetried(attempt: nat -> Outcome, b: Body)
    requires attempt(0) == Response(200, Undecodable) && attempt(1) == Response(200, Document(b))
    ensures GateResult(attempt) == Some(b)
    ensures Trace(AttemptsMade(attempt)) == [Request, Sleep(1), Request]
  {
    TraceShape(2);
  }

  /** After MAX_RETRIES failures the gate returns None, having waited twice, for 1 and
      then 2 seconds, 3 seconds in all. */
  lemma {:induction false} FullFailure(attempt: nat -> Outcome)
    requires GaveUp(attempt)
    ensures GateResult(attempt) == None
    ensures Trace(AttemptsMade(attempt)) == [Request, Sleep(1), Request, Sleep(2), Request]
    ensures SleptFor(Trace(AttemptsMade(attempt))) == 3
  {
    TraceShape(MAX_RETRIES);
  }

  /** Two failures then a success: the third answer, after waits of 1 and 2 seconds. */
  lemma {:induction false} SucceedsOnThird(attempt: nat -> Outcome)
    requires !Succeeded(attempt(0)) && !Succeeded(attempt(1)) && Succeeded(attempt(2))
    ensures GateResult(attempt) == Answer(attempt(2))
    ensures Trace(AttemptsMade(attempt)) == [Request, Sleep(1), Request, Sleep(2), Request]
  {
    TraceShape(3);
  }

  /** Every failed attempt is treated alike: a non-200 status, whatever its code, a body
      that is not JSON and a RequestException are interchangeable. Two oracles that agree
      on which attempts succeed, and on what those hand back, give the same result after
      the same attempts. */
  lemma FailuresIndistinguishable(a: nat -> Outcome, b: nat -> Outcome)
    requires forall i :: Succeeded(a(i)) <==> Succeeded(b(i))
    requires forall i :: Succeeded(a(i)) ==> Answer(a(i)) == Answer(b(i))
    ensures AttemptsMade(a) == AttemptsMade(b)
    ensures GateResult(a) == GateResult(b)
  {
  }
}
