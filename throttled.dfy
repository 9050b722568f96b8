/**
 * The throttle composables of packages/use-throttled/lib/index.ts.
 * `useThrottledFn` runs `fn` only when `delay` ms have passed since the
 * last run (or since it was created); `useThrottledRef` accepts an
 * assignment under the same rule. The clock is a parameter: `now` is what
 * `Date.now()` returns for the test, `after` what it returns when the
 * start time is reset, once `fn` or `trigger` has returned.
 */
module UseThrottled {
  import opened Traces

  /** The test both throttles make: `Date.now() - startTime >= delay`. */
  predicate Ready(startTime: int, delay: int, now: int) {
    now - startTime >= delay
  }

  /** One call of the throttled function, or one assignment of the ref, with the two clock readings it makes. */
  datatype Attempt<A> = Attempt(args: A, now: int, after: int)

  /** The calls that run, from start time `startTime` on: each is recorded with its `now`. */
  function Executions<A>(delay: int, startTime: int, attempts: seq<Attempt<A>>): (r: seq<Invocation<A>>)
    ensures |r| <= |attempts|
    decreases |attempts|
  {
    if attempts == [] then []
    else
      var a := attempts[0];
      if Ready(startTime, delay, a.now) then [Invocation(a.args, a.now)] + Executions(delay, a.after, attempts[1..])
      else Executions(delay, startTime, attempts[1..])
  }

  /** The start time after the attempts `attempts`, from start time `startTime` on. */
  function StartAfter<A>(delay: int, startTime: int, attempts: seq<Attempt<A>>): int
    decreases |attempts|
  {
    if attempts == [] then startTime
    else
      var a := attempts[0];
      StartAfter(delay, if Ready(startTime, delay, a.now) then a.after else startTime, attempts[1..])
  }

  /** Attempts `a` then `b` run what `a` runs, then what `b` runs from the start time `a` leaves behind. */
  lemma {:induction false} ExecutionsAppend<A>(delay: int, startTime: int, a: seq<Attempt<A>>, b: seq<Attempt<A>>)
    ensures Executions(delay, startTime, a + b)
      == Executions(delay, startTime, a) + Executions(delay, StartAfter(delay, startTime, a), b)
    ensures StartAfter(delay, startTime, a + b) == StartAfter(delay, StartAfter(delay, startTime, a), b)
    decreases |a|
  {
    if a == [] {
      assert a + b == b;
    } else {
      assert (a + b)[0] == a[0] && (a + b)[1..] == a[1..] + b;
      var next := if Ready(startTime, delay, a[0].now) then a[0].after else startTime;
      ExecutionsAppend(delay, next, a[1..], b);
    }
  }

  /** The clock readings never go back: from the start time, through each attempt's two readings, to the next attempt. */
  predicate Monotone<A>(startTime: int, attempts: seq<Attempt<A>>) {
    (attempts != [] ==> startTime <= attempts[0].now)
    && (forall i :: 0 <= i < |attempts| ==> attempts[i].now <= attempts[i].after)
    && (forall i :: 0 < i < |attempts| ==> attempts[i - 1].after <= attempts[i].now)
  }

  lemma MonotoneTail<A>(startTime: int, attempts: seq<Attempt<A>>)
    requires attempts != [] && Monotone(startTime, attempts)
    ensures Monotone(attempts[0].after, attempts[1..])
    ensures Monotone(startTime, attempts[1..])
  {
    var rest := attempts[1..];
    forall i | 0 < i < |rest| ensures rest[i - 1].after <= rest[i].now {
      assert rest[i - 1] == attempts[i] && rest[i] == attempts[i + 1];
    }
    if rest != [] {
      assert rest[0] == attempts[1];
    }
  }

  /** Every run happens no earlier than the start time plus `delay`, and no earlier than the first attempt. */
  lemma {:induction false} ExecutionsAfterStart<A>(delay: int, startTime: int, attempts: seq<Attempt<A>>)
    requires Monotone(startTime, attempts)
    ensures forall i :: 0 <= i < |Executions(delay, startTime, attempts)| ==>
      Executions(delay, startTime, attempts)[i].time - startTime >= delay
    ensures attempts != [] ==> forall i :: 0 <= i < |Executions(delay, startTime, attempts)| ==>
      Executions(delay, startTime, attempts)[i].time >= attempts[0].now
    decreases |attempts|
  {
    if attempts != [] {
      var a := attempts[0];
      MonotoneTail(startTime, attempts);
      if Ready(startTime, delay, a.now) {
        ExecutionsAfterStart(delay, a.after, attempts[1..]);
      } else {
        ExecutionsAfterStart(delay, startTime, attempts[1..]);
      }
      if |attempts| > 1 {
        assert attempts[1..][0] == attempts[1];
      }
    }
  }

  /** Consecutive runs in `ex` are at least `delay` apart. */
  predicate Spaced<A>(ex: seq<Invocation<A>>, delay: int) {
    forall i :: 0 < i < |ex| ==> ex[i].time - ex[i - 1].time >= delay
  }

  /** With a clock that never goes back, any two consecutive runs are at least `delay` apart. */
  lemma {:induction false} ExecutionsSpaced<A>(delay: int, startTime: int, attempts: seq<Attempt<A>>)
    requires Monotone(startTime, attempts)
    ensures Spaced(Executions(delay, startTime, attempts), delay)
    decreases |attempts|
  {
    if attempts != [] {
      var a := attempts[0];
      MonotoneTail(startTime, attempts);
      if Ready(startTime, delay, a.now) {
        var rest := Executions(delay, a.after, attempts[1..]);
        ExecutionsSpaced(delay, a.after, attempts[1..]);
        ExecutionsAfterStart(delay, a.after, attempts[1..]);
        var ex := [Invocation(a.args, a.now)] + rest;
        assert ex == Executions(delay, startTime, attempts);
        assert a.now <= a.after;
        forall i | 0 < i < |ex| ensures ex[i].time - ex[i - 1].time >= delay {
          if i == 1 {
            assert ex[1] == rest[0] && ex[0].time == a.now;
            assert rest[0].time - a.after >= delay;
          } else {
            var j := i - 1;
            assert ex[i] == rest[j] && ex[i - 1] == rest[j - 1];
            assert rest[j].time - rest[j - 1].time >= delay;
          }
        }
      } else {
        ExecutionsSpaced(delay, startTime, attempts[1..]);
        assert Executions(delay, startTime, attempts) == Executions(delay, startTime, attempts[1..]);
      }
    }
  }

  /** With no delay and a clock that never goes back, every call runs, with its own arguments, in order. */
  lemma {:induction false} NoDelayRunsAll<A>(delay: int, startTime: int, attempts: seq<Attempt<A>>)
    requires delay <= 0 && Monotone(startTime, attempts)
    ensures var ex := Executions(delay, startTime, attempts);
      |ex| == |attempts| && forall i :: 0 <= i < |ex| ==> ex[i] == Invocation(attempts[i].args, attempts[i].now)
    decreases |attempts|
  {
    if attempts != [] {
      var a := attempts[0];
      MonotoneTail(startTime, attempts);
      NoDelayRunsAll(delay, a.after, attempts[1..]);
      var ex := Executions(delay, startTime, attempts);
      assert ex == [Invocation(a.args, a.now)] + Executions(delay, a.after, attempts[1..]);
      forall i | 0 < i < |ex| ensures ex[i] == Invocation(attempts[i].args, attempts[i].now) {
        assert attempts[1..][i - 1] == attempts[i];
      }
    }
  }

  /** With a positive delay, a call made at the creation time is dropped. */
  lemma CreationCallDropped<A>(delay: int, created: int, args: A, after: int)
    requires delay > 0
    ensures Executions(delay, created, [Attempt(args, created, after)]) == []
  {
  }

  /** The closure of `useThrottledFn(fn, delay)`, with the calls `fn` received. */
  class ThrottledFn<A> {
    const delay: int
    var startTime: int
    var log: seq<Invocation<A>>
    /** The creation time, and every call made so far. */
    ghost const created: int
    ghost var attempts: seq<Attempt<A>>

    /** The log and the start time are those the calls so far leave, from the creation time. */
    ghost predicate Valid()
      reads this
    {
      log == Executions(delay, created, attempts) && startTime == StartAfter(delay, created, attempts)
    }

    /** `startTime` is the creation time. */
    constructor (delay: int, now: int)
      ensures this.delay == delay && startTime == now && log == []
      ensures created == now && attempts == [] && Valid()
    {
      this.delay := delay;
      startTime := now;
      log := [];
      created := now;
      attempts := [];
    }

    /** `throttled(...args)`; `fired` tells whether `fn` ran. */
    method Call(args: A, now: int, after: int) returns (fired: bool)
      modifies this
      ensures fired == Ready(old(startTime), delay, now)
      ensures fired ==> startTime == after && log == old(log) + [Invocation(args, now)]
      ensures !fired ==> startTime == old(startTime) && log == old(log)
      ensures log == old(log) + Executions(delay, old(startTime), [Attempt(args, now, after)])
      ensures attempts == old(attempts) + [Attempt(args, now, after)]
      ensures old(Valid()) ==> Valid()
    {
      fired := now - startTime >= delay;
      if fired {
        log := log + [Invocation(args, now)];
        startTime := after;
      }
      ExecutionsAppend(delay, created, attempts, [Attempt(args, now, after)]);
      attempts := attempts + [Attempt(args, now, after)];
    }
  }

  /** Whatever calls a throttled function received, with a clock that never goes back, its runs are at least `delay` apart. */
  lemma LogSpaced<A>(f: ThrottledFn<A>)
    requires f.Valid() && Monotone(f.created, f.attempts)
    ensures Spaced(f.log, f.delay)
  {
    ExecutionsSpaced(f.delay, f.created, f.attempts);
  }

  // ---------------------------------------------------------------------------
  // useThrottledRef
  // ---------------------------------------------------------------------------

  /** The value of the ref after the assignments `sets`: the last one accepted, or `initial` when none was. */
  function Committed<T>(initial: T, delay: int, startTime: int, sets: seq<Attempt<T>>): T
    decreases |sets|
  {
    if sets == [] then initial
    else
      var a := sets[0];
      if Ready(startTime, delay, a.now) then Committed(a.args, delay, a.after, sets[1..])
      else Committed(initial, delay, startTime, sets[1..])
  }

  /** `get` returns the newest accepted assignment, or the initial value while none has been accepted. */
  lemma {:induction false} CommittedIsLastAccepted<T>(initial: T, delay: int, startTime: int, sets: seq<Attempt<T>>)
    ensures var ex := Executions(delay, startTime, sets);
      Committed(initial, delay, startTime, sets) == if ex == [] then initial else ex[|ex| - 1].args
    decreases |sets|
  {
    if sets != [] {
      var a := sets[0];
      if Ready(startTime, delay, a.now) {
        CommittedIsLastAccepted(a.args, delay, a.after, sets[1..]);
        var rest := Executions(delay, a.after, sets[1..]);
        if rest != [] {
          assert ([Invocation(a.args, a.now)] + rest)[|rest|] == rest[|rest| - 1];
        }
      } else {
        CommittedIsLastAccepted(initial, delay, startTime, sets[1..]);
      }
    }
  }

  /** Assignments `a` then `b` leave what `b` leaves, starting from the value and the start time `a` leaves. */
  lemma {:induction false} CommittedAppend<T>(initial: T, delay: int, startTime: int, a: seq<Attempt<T>>, b: seq<Attempt<T>>)
    ensures Committed(initial, delay, startTime, a + b)
      == Committed(Committed(initial, delay, startTime, a), delay, StartAfter(delay, startTime, a), b)
    decreases |a|
  {
    if a == [] {
      assert a + b == b;
    } else {
      assert (a + b)[0] == a[0] && (a + b)[1..] == a[1..] + b;
      if Ready(startTime, delay, a[0].now) {
        CommittedAppend(a[0].args, delay, a[0].after, a[1..], b);
      } else {
        CommittedAppend(initial, delay, startTime, a[1..], b);
      }
    }
  }

  /** The closure of `useThrottledRef(initalValue, delay)`, with a count of `trigger()` calls. */
  class ThrottledRef<T> {
    const delay: int
    var startTime: int
    var value: T
    var triggers: nat
    /** The initial value, the creation time, and every assignment made so far. */
    ghost const initial: T
    ghost const created: int
    ghost var sets: seq<Attempt<T>>

    /** The value, the trigger count and the start time are those the assignments so far leave. */
    ghost predicate Valid()
      reads this
    {
      value == Committed(initial, delay, created, sets)
      && triggers == |Executions(delay, created, sets)|
      && startTime == StartAfter(delay, created, sets)
    }

    constructor (initial: T, delay: int, now: int)
      ensures this.delay == delay && startTime == now && value == initial && triggers == 0
      ensures this.initial == initial && created == now && sets == [] && Valid()
    {
      this.delay := delay;
      startTime := now;
      value := initial;
      triggers := 0;
      this.initial := initial;
      created := now;
      sets := [];
    }

    /** The `get` of the custom ref: the current value; nothing changes. */
    method Get() returns (v: T)
      ensures v == value
    {
      v := value;
    }

    /** The `set` of the custom ref; `accepted` tells whether the value changed. */
    method Set(newValue: T, now: int, after: int) returns (accepted: bool)
      modifies this
      ensures accepted == Ready(old(startTime), delay, now)
      ensures accepted ==> value == newValue && triggers == old(triggers) + 1 && startTime == after
      ensures !accepted ==> value == old(value) && triggers == old(triggers) && startTime == old(startTime)
      ensures value == Committed(old(value), delay, old(startTime), [Attempt(newValue, now, after)])
      ensures sets == old(sets) + [Attempt(newValue, now, after)]
      ensures old(Valid()) ==> Valid()
    {
      accepted := now - startTime >= delay;
      if accepted {
        value := newValue;
        triggers := triggers + 1;
        startTime := after;
      }
      ExecutionsAppend(delay, created, sets, [Attempt(newValue, now, after)]);
      CommittedAppend(initial, delay, created, sets, [Attempt(newValue, now, after)]);
      sets := sets + [Attempt(newValue, now, after)];
    }
  }
}
