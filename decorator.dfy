/** The `retry` decorator of src/_decorator.py.

    The decorated callable is an operation on some state `S` (the arguments and
    everything the call can change): one call maps the state before it to its
    outcome and the state after it. `RetrySpec` says what the wrapper does with
    such an operation; `Retry` is the wrapper's `while` loop, proved to do it. */
module Decorator {
  import opened Outcomes

  /** The `exceptions` argument: `Exception` catches every error this model
      raises; a tuple of classes catches exactly those class names. */
  datatype Catches = AnyException | Kinds(kinds: set<string>)

  predicate Matches(c: Catches, e: Error)
  {
    c.AnyException? || e.kind in c.kinds
  }

  /** The keyword arguments of `retry`. */
  datatype Policy = Policy(exceptions: Catches, nTries: int, delay: nat, maxDelay: nat, backoff: nat)

  /** `retry` with no arguments: catch `Exception`, three tries, a delay of 1
      that never grows (backoff 1), capped at 5. */
  const Default := Policy(AnyException, 3, 1, 5, 1)

  /** What `raise err` raises when the loop never ran and `err` was never bound. */
  const Unbound := Error("UnboundLocalError", "cannot access local variable 'err' where it is not associated with a value")

  function Pow(b: nat, e: nat): nat
  {
    if e == 0 then 1 else b * Pow(b, e - 1)
  }

  /** `min(delay*(backoff**n), max_delay)`: the sleep after failed attempt `n`. */
  function SleepTime(p: Policy, n: nat): (t: nat)
    ensures t <= p.maxDelay && t <= p.delay * Pow(p.backoff, n)
    ensures t == p.maxDelay || t == p.delay * Pow(p.backoff, n)
  {
    var grown := p.delay * Pow(p.backoff, n);
    if grown <= p.maxDelay then grown else p.maxDelay
  }

  /** The wrapper catches this outcome and tries again (while tries remain). */
  predicate Retries<T>(p: Policy, a: Attempt<T>)
  {
    a.Err? && Matches(p.exceptions, a.error)
  }

  /** What one run of the wrapper did: its outcome, the state it left, how many
      times it called the operation and the sleeps it made, in order. */
  datatype Execution<S, T> = Execution(result: Attempt<T>, state: S, calls: nat, sleeps: seq<nat>)

  /** `e`, preceded by `calls` earlier calls that slept `sleeps`. */
  function After<S, T>(calls: nat, sleeps: seq<nat>, e: Execution<S, T>): Execution<S, T>
  {
    Execution(e.result, e.state, calls + e.calls, sleeps + e.sleeps)
  }

  /** The wrapper from the top of its loop with counter `n`, state `s` and
      stored error `err`. */
  function RetryFrom<S, T>(p: Policy, op: S -> (Attempt<T>, S), s: S, n: nat, err: Error): Execution<S, T>
    decreases p.nTries + 1 - n
  {
    if n > p.nTries then
      Execution(Err(err), s, 0, [])
    else
      var (a, s') := op(s);
      if Retries(p, a) then After(1, [SleepTime(p, n)], RetryFrom(p, op, s', n + 1, a.error))
      else Execution(a, s', 1, [])
  }

  /** One turn of the wrapper's loop: a call whose outcome the policy
      retries sleeps and moves on to the next counter; any other outcome ends
      the run with that outcome. */
  lemma RetryFromStep<S, T>(p: Policy, op: S -> (Attempt<T>, S), s: S, n: nat, err: Error, a: Attempt<T>, s': S)
    requires n <= p.nTries && op(s) == (a, s')
    ensures Retries(p, a) ==> RetryFrom(p, op, s, n, err) == After(1, [SleepTime(p, n)], RetryFrom(p, op, s', n + 1, a.error))
    ensures !Retries(p, a) ==> RetryFrom(p, op, s, n, err) == Execution(a, s', 1, [])
  {
  }

  /** Earlier calls and sleeps add up. */
  lemma AfterAfter<S, T>(c1: nat, s1: seq<nat>, c2: nat, s2: seq<nat>, e: Execution<S, T>)
    ensures After(c1, s1, After(c2, s2, e)) == After(c1 + c2, s1 + s2, e)
  {
    assert s1 + (s2 + e.sleeps) == (s1 + s2) + e.sleeps;
  }

  /** A call of the decorated operation: the loop starts with `n = 1` and no stored error. */
  function RetrySpec<S, T>(p: Policy, op: S -> (Attempt<T>, S), s: S): Execution<S, T>
  {
    RetryFrom(p, op, s, 1, Unbound)
  }

  /** `wrapper`: call `op` until it returns or raises something `exceptions`
      does not catch, sleeping after each caught exception, and re-raise the
      last caught one once `nTries` calls are used up. */
  method Retry<S, T>(p: Policy, op: S -> (Attempt<T>, S), s0: S)
    returns (r: Attempt<T>, s: S, calls: nat, sleeps: seq<nat>)
    ensures Execution(r, s, calls, sleeps) == RetrySpec(p, op, s0)
  {
    var n: nat := 1;
    var err := Unbound;
    s, calls, sleeps := s0, 0, [];
    while n <= p.nTries
      invariant calls == n - 1
      invariant RetrySpec(p, op, s0) == After(calls, sleeps, RetryFrom(p, op, s, n, err))
      decreases p.nTries + 1 - n
    {
      var (a, s') := op(s);
      s, calls := s', calls + 1;
      if !Retries(p, a) {
        r := a;
        return;
      }
      err := a.error;
      sleeps := sleeps + [SleepTime(p, n)];
      n := n + 1;
    }
    r := Err(err);
  }

  // ---------------------------------------------------------------------
  // The calls the wrapper makes, counted from 1, as if nothing stopped it.

  /** The state after `k` calls of `op` from `s`. */
  function StateAfter<S, T>(op: S -> (Attempt<T>, S), s: S, k: nat): S
  {
    if k == 0 then s else op(StateAfter(op, s, k - 1)).1
  }

  /** The outcome of call number `k`. */
  function AttemptAt<S, T>(op: S -> (Attempt<T>, S), s: S, k: nat): Attempt<T>
    requires k >= 1
  {
    op(StateAfter(op, s, k - 1)).0
  }

  /** The wrapper from counter `n` on, in terms of the calls numbered `n` and up. */
  lemma {:induction false} RetryFromShape<S, T>(p: Policy, op: S -> (Attempt<T>, S), s: S, n: nat, err: Error)
    requires 1 <= n <= p.nTries
    ensures var e := RetryFrom(p, op, StateAfter(op, s, n - 1), n, err);
      && 1 <= e.calls <= p.nTries - n + 1
      && e.result == AttemptAt(op, s, n - 1 + e.calls)
      && e.state == StateAfter(op, s, n - 1 + e.calls)
      && (forall k :: n <= k < n - 1 + e.calls ==> Retries(p, AttemptAt(op, s, k)))
      && (n - 1 + e.calls < p.nTries ==> !Retries(p, e.result))
      && |e.sleeps| == (if Retries(p, e.result) then e.calls else e.calls - 1)
      && (forall j :: 0 <= j < |e.sleeps| ==> e.sleeps[j] == SleepTime(p, n + j))
    decreases p.nTries - n
  {
    var s0 := StateAfter(op, s, n - 1);
    var (a, s') := op(s0);
    assert StateAfter(op, s, n) == s';
    if Retries(p, a) && n < p.nTries {
      RetryFromShape(p, op, s, n + 1, a.error);
    }
  }

  /** Everything a call of the decorated operation does. With at least one try:
      it calls the operation between 1 and `nTries` times; every call but the
      last raised a caught exception; the last call's outcome is the result,
      unchanged; it stops early only on a return or an exception it does not
      catch; and it slept `SleepTime(p, 1), SleepTime(p, 2), ...` once per
      caught exception. With no tries it never calls the operation and raises
      `UnboundLocalError`. */
  lemma RetryContract<S, T>(p: Policy, op: S -> (Attempt<T>, S), s: S)
    ensures var e := RetrySpec(p, op, s);
      && (p.nTries < 1 ==> e == Execution(Err(Unbound), s, 0, []))
      && (p.nTries >= 1 ==>
            && 1 <= e.calls <= p.nTries
            && e.result == AttemptAt(op, s, e.calls)
            && e.state == StateAfter(op, s, e.calls)
            && (forall k :: 1 <= k < e.calls ==> Retries(p, AttemptAt(op, s, k)))
            && (e.calls < p.nTries ==> !Retries(p, e.result))
            && |e.sleeps| == (if Retries(p, e.result) then e.calls else e.calls - 1)
            && (forall j :: 0 <= j < |e.sleeps| ==> e.sleeps[j] == SleepTime(p, j + 1)))
  {
    if p.nTries >= 1 {
      RetryFromShape(p, op, s, 1, Unbound);
    }
  }

  /** A return, or an exception the wrapper does not catch, at call `k` after
      `k - 1` caught exceptions: the wrapper returns (or raises) exactly that
      outcome after exactly `k` calls, having slept `k - 1` times. */
  lemma FirstStopIsFinal<S, T>(p: Policy, op: S -> (Attempt<T>, S), s: S, k: nat)
    requires 1 <= k <= p.nTries
    requires forall j :: 1 <= j < k ==> Retries(p, AttemptAt(op, s, j))
    requires !Retries(p, AttemptAt(op, s, k))
    ensures var e := RetrySpec(p, op, s);
      e.calls == k && e.result == AttemptAt(op, s, k) && |e.sleeps| == k - 1
  {
    RetryContract(p, op, s);
    var e := RetrySpec(p, op, s);
  }

  /** An exception the wrapper does not catch, raised by the first call,
      escapes at once: one call, no sleep, the same exception. */
  lemma UncaughtEscapes<S, T>(p: Policy, op: S -> (Attempt<T>, S), s: S)
    requires p.nTries >= 1
    requires AttemptAt(op, s, 1).Err? && !Matches(p.exceptions, AttemptAt(op, s, 1).error)
    ensures RetrySpec(p, op, s) == Execution(AttemptAt(op, s, 1), StateAfter(op, s, 1), 1, [])
  {
    assert StateAfter(op, s, 0) == s;
  }

  /** Every call raises a caught exception: the wrapper calls the operation
      exactly `nTries` times, sleeps after every call including the last, and
      re-raises the last call's exception unchanged. */
  lemma ExhaustedReraisesLast<S, T>(p: Policy, op: S -> (Attempt<T>, S), s: S)
    requires p.nTries >= 1
    requires forall j :: 1 <= j <= p.nTries ==> Retries(p, AttemptAt(op, s, j))
    ensures var e := RetrySpec(p, op, s);
      && e.calls == p.nTries
      && e.result == AttemptAt(op, s, p.nTries) && e.result.Err?
      && |e.sleeps| == p.nTries
      && (forall j :: 0 <= j < p.nTries ==> e.sleeps[j] == SleepTime(p, j + 1))
  {
    RetryContract(p, op, s);
    var e := RetrySpec(p, op, s);
  }

  // ---------------------------------------------------------------------
  // The delays.

  lemma {:induction false} PowMonotone(b: nat, i: nat, j: nat)
    requires b >= 1 && i <= j
    ensures Pow(b, i) <= Pow(b, j)
    decreases j - i
  {
    if i < j {
      PowMonotone(b, i, j - 1);
      assert Pow(b, j - 1) <= b * Pow(b, j - 1);
    }
  }

  lemma MulMonotone(a: nat, x: nat, y: nat)
    requires x <= y
    ensures a * x <= a * y
  {
  }

  /** With `backoff >= 1` a later attempt never sleeps less than an earlier one. */
  lemma SleepNonDecreasing(p: Policy, i: nat, j: nat)
    requires p.backoff >= 1 && i <= j
    ensures SleepTime(p, i) <= SleepTime(p, j)
  {
    PowMonotone(p.backoff, i, j);
    MulMonotone(p.delay, Pow(p.backoff, i), Pow(p.backoff, j));
  }

  /** The sleeps of one call of the decorated operation: each is at most
      `maxDelay`, and with `backoff >= 1` they never decrease. */
  lemma SleepsCappedAndOrdered<S, T>(p: Policy, op: S -> (Attempt<T>, S), s: S)
    ensures var e := RetrySpec(p, op, s);
      && (forall j :: 0 <= j < |e.sleeps| ==> e.sleeps[j] <= p.maxDelay)
      && (p.backoff >= 1 ==> forall i, j :: 0 <= i <= j < |e.sleeps| ==> e.sleeps[i] <= e.sleeps[j])
  {
    RetryContract(p, op, s);
    var e := RetrySpec(p, op, s);
    if p.backoff >= 1 {
      forall i, j | 0 <= i <= j < |e.sleeps|
        ensures e.sleeps[i] <= e.sleeps[j]
      {
        SleepNonDecreasing(p, i + 1, j + 1);
      }
    }
  }

  lemma {:induction false} PowOne(n: nat)
    ensures Pow(1, n) == 1
  {
    if n > 0 {
      PowOne(n - 1);
    }
  }

  /** The default policy sleeps one second after every caught exception. */
  lemma DefaultSleepsOneSecond(n: nat)
    ensures SleepTime(Default, n) == 1
  {
    PowOne(n);
  }
}
