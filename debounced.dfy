/**
 * The debounce composables of packages/use-debounced/lib/index.ts.
 * `useDebouncedFn` delays each call of `fn` until `delay` ms have passed
 * without another call; `useDebouncedRef` delays each assignment of its
 * value in the same way. Both keep one timeout, cleared and re-armed on
 * every call, and a flag (`cancelled`, `blocked`) that switches them off.
 *
 * Time is explicit: a clock advances by `Advance` events, and an armed
 * timeout fires, at its due time, when the clock reaches it.
 */
module UseDebounced {
  import opened Wrappers
  import opened Traces

  // ---------------------------------------------------------------------------
  // The timeout both composables share
  // ---------------------------------------------------------------------------

  /** An armed timeout: what it will deliver when it fires, and when it is due. */
  datatype Pending<A> = Pending(payload: A, due: int)

  /**
   * The timer state of a debounced function or ref: its delay, the clock,
   * the flag `cancel` or `block` sets, and the armed timeout, if any. There
   * is a single slot, so at most one invocation is ever pending.
   */
  datatype Timer<A> = Timer(delay: nat, clock: int, stopped: bool, pending: Option<Pending<A>>)

  /** A stopped timer has nothing armed; an armed timeout is due no earlier than now and no later than one delay ahead. */
  predicate TimerValid<A>(t: Timer<A>) {
    (t.stopped ==> t.pending.None?)
    && (t.pending.Some? ==> t.clock <= t.pending.value.due <= t.clock + t.delay)
  }

  /** `clearTimeout(timeout); timeout = setTimeout(…, delay)`, skipped once stopped. */
  function Arm<A>(t: Timer<A>, payload: A): Timer<A> {
    if t.stopped then t else t.(pending := Some(Pending(payload, t.clock + t.delay)))
  }

  /** `clearTimeout(timeout)`. */
  function Disarm<A>(t: Timer<A>): Timer<A> {
    t.(pending := None)
  }

  /** `cancelled = true` or `blocked = true`, then `clearTimeout(timeout)`. */
  function Stop<A>(t: Timer<A>): Timer<A> {
    t.(stopped := true, pending := None)
  }

  /**
   * The clock moves on to `time` (it never goes back); the armed timeout
   * fires if it is due by then, and is returned.
   */
  function Expire<A>(t: Timer<A>, time: int): (Timer<A>, Option<Pending<A>>) {
    var now := if time < t.clock then t.clock else time;
    match t.pending
    case Some(p) =>
      if p.due <= now then (t.(clock := now, pending := None), Some(p)) else (t.(clock := now), None)
    case None => (t.(clock := now), None)
  }

  lemma ArmKeepsValid<A>(t: Timer<A>, payload: A)
    requires TimerValid(t)
    ensures TimerValid(Arm(t, payload))
  {
  }

  lemma ExpireKeepsValid<A>(t: Timer<A>, time: int)
    requires TimerValid(t)
    ensures TimerValid(Expire(t, time).0)
    ensures Expire(t, time).0.stopped == t.stopped
    ensures Expire(t, time).1.Some? ==> Expire(t, time).1 == t.pending && Expire(t, time).0.pending.None?
  {
  }

  /** Nothing armed in `t` would fire before the clock reaches `time`. */
  predicate QuietUntil<A>(t: Timer<A>, time: int) {
    t.clock <= time && (t.pending.Some? ==> time < t.pending.value.due)
  }

  /** Each item of a burst comes at or after the one before it, and before that one's timeout is due. */
  predicate Dense<A>(burst: seq<(A, int)>, delay: nat)
    decreases |burst|
  {
    |burst| <= 1 || (burst[0].1 <= burst[1].1 < burst[0].1 + delay && Dense(burst[1..], delay))
  }

  /** The clock reaching `time` and then a call re-arming the timeout, with nothing due in between. */
  lemma ArmAt<A>(t: Timer<A>, payload: A, time: int)
    requires !t.stopped && QuietUntil(t, time)
    ensures Expire(t, time) == (t.(clock := time), None)
    ensures Arm(Expire(t, time).0, payload) == t.(clock := time, pending := Some(Pending(payload, time + t.delay)))
  {
  }

  // ---------------------------------------------------------------------------
  // useDebouncedFn
  // ---------------------------------------------------------------------------

  /** The state of a debounced function, and every call of `fn` so far. */
  datatype FnState<A> = FnState(timer: Timer<A>, log: seq<Invocation<A>>)

  /** Calling the debounced function, `flush`, `cancel`, or time passing. */
  datatype FnEvent<A> = Call(args: A) | Flush(args: A) | Cancel | Advance(time: int)

  /** A fired timeout calls `fn` with the arguments it holds. */
  function Fired<A>(f: Option<Pending<A>>): seq<Invocation<A>> {
    match f
    case Some(p) => [Invocation(p.payload, p.due)]
    case None => []
  }

  function FnStep<A>(s: FnState<A>, e: FnEvent<A>): FnState<A> {
    match e
    case Call(args) => s.(timer := Arm(s.timer, args))
    case Flush(args) => FnState(Disarm(s.timer), s.log + [Invocation(args, s.timer.clock)])
    case Cancel => s.(timer := Stop(s.timer))
    case Advance(time) =>
      var (t, f) := Expire(s.timer, time);
      FnState(t, s.log + Fired(f))
  }

  function FnRun<A>(s: FnState<A>, es: seq<FnEvent<A>>): FnState<A>
    decreases |es|
  {
    if es == [] then s else FnRun(FnStep(s, es[0]), es[1..])
  }

  /** Every event keeps the timer valid, and only `cancel` sets the flag, which nothing clears. */
  lemma FnStepKeepsValid<A>(s: FnState<A>, e: FnEvent<A>)
    requires TimerValid(s.timer)
    ensures TimerValid(FnStep(s, e).timer)
    ensures FnStep(s, e).timer.stopped == (s.timer.stopped || e.Cancel?)
    ensures |FnStep(s, e).log| >= |s.log| && FnStep(s, e).log[..|s.log|] == s.log
  {
    if e.Advance? {
      ExpireKeepsValid(s.timer, e.time);
    }
  }

  lemma {:induction false} FnRunAppend<A>(s: FnState<A>, es: seq<FnEvent<A>>, more: seq<FnEvent<A>>)
    ensures FnRun(s, es + more) == FnRun(FnRun(s, es), more)
    decreases |es|
  {
    if es == [] {
      assert es + more == more;
    } else {
      assert (es + more)[0] == es[0];
      assert (es + more)[1..] == es[1..] + more;
      FnRunAppend(FnStep(s, es[0]), es[1..], more);
      assert FnRun(s, es + more) == FnRun(FnStep(s, es[0]), es[1..] + more);
      assert FnRun(s, es) == FnRun(FnStep(s, es[0]), es[1..]);
    }
  }

  /** The clock reaching each call's time, then the call `debounced(...args)`. */
  function CallBurst<A>(calls: seq<(A, int)>): seq<FnEvent<A>> {
    if calls == [] then [] else [FnEvent.Advance(calls[0].1), Call(calls[0].0)] + CallBurst(calls[1..])
  }

  /**
   * During a burst of calls each closer than `delay` to the one before,
   * `fn` is not called, and the one armed timeout holds the last call's
   * arguments, due one delay after it.
   */
  lemma {:induction false} FnBurst<A>(s: FnState<A>, calls: seq<(A, int)>)
    requires calls != [] && !s.timer.stopped
    requires QuietUntil(s.timer, calls[0].1) && Dense(calls, s.timer.delay)
    ensures var last := calls[|calls| - 1];
      FnRun(s, CallBurst(calls)) == FnState(
        s.timer.(clock := last.1, pending := Some(Pending(last.0, last.1 + s.timer.delay))), s.log)
    decreases |calls|
  {
    var t0 := calls[0].1;
    var s1 := FnState(s.timer.(clock := t0, pending := Some(Pending(calls[0].0, t0 + s.timer.delay))), s.log);
    ArmAt(s.timer, calls[0].0, t0);
    var es := CallBurst(calls);
    assert es[0] == FnEvent.Advance(t0) && es[1..][0] == Call(calls[0].0);
    assert es[1..][1..] == CallBurst(calls[1..]);
    var sa := FnStep(s, es[0]);
    assert sa == FnState(s.timer.(clock := t0), s.log);
    assert FnStep(sa, es[1..][0]) == s1;
    assert FnRun(s, es) == FnRun(sa, es[1..]);
    assert FnRun(sa, es[1..]) == FnRun(s1, es[1..][1..]);
    if |calls| > 1 {
      assert calls[1] == calls[1..][0];
      assert calls[1..][|calls[1..]| - 1] == calls[|calls| - 1];
      FnBurst(s1, calls[1..]);
    } else {
      assert CallBurst(calls[1..]) == [];
    }
  }

  /** Only the last call of the burst reaches `fn`, with its own arguments, one delay after it was made. */
  lemma FnBurstThenWait<A>(s: FnState<A>, calls: seq<(A, int)>, time: int)
    requires calls != [] && !s.timer.stopped
    requires QuietUntil(s.timer, calls[0].1) && Dense(calls, s.timer.delay)
    requires time >= calls[|calls| - 1].1 + s.timer.delay
    ensures var last := calls[|calls| - 1];
      FnRun(s, CallBurst(calls) + [FnEvent.Advance(time)]).log == s.log + [Invocation(last.0, last.1 + s.timer.delay)]
  {
    var burst := CallBurst(calls);
    FnBurst(s, calls);
    FnRunAppend(s, burst, [FnEvent.Advance(time)]);
    WaitFires(FnRun(s, burst), time);
  }

  /** Once the clock reaches the due time of the armed timeout, `fn` runs with its arguments. */
  lemma WaitFires<A>(s: FnState<A>, time: int)
    requires s.timer.pending.Some? && s.timer.pending.value.due <= time
    ensures var p := s.timer.pending.value;
      FnRun(s, [FnEvent.Advance(time)]).log == s.log + [Invocation(p.payload, p.due)]
  {
    assert FnRun(s, [FnEvent.Advance(time)]) == FnStep(s, FnEvent.Advance(time));
  }

  /** Calls at 0, 50 and 100 with a 200 ms delay: `fn` runs once, at 300, with the arguments of the call at 100. */
  lemma FnBurstExample<A>(a0: A, a1: A, a2: A)
    ensures var s := FnState(Timer(200, 0, false, None), []);
      FnRun(s, CallBurst([(a0, 0), (a1, 50), (a2, 100)]) + [FnEvent.Advance(300)]).log == [Invocation(a2, 300)]
  {
    var s: FnState<A> := FnState(Timer(200, 0, false, None), []);
    FnBurstThenWait(s, [(a0, 0), (a1, 50), (a2, 100)], 300);
  }

  /** The arguments of the `flush` events among `es`, in order. */
  function FlushedArgs<A>(es: seq<FnEvent<A>>): seq<A> {
    if es == [] then []
    else (if es[0].Flush? then [es[0].args] else []) + FlushedArgs(es[1..])
  }

  /**
   * Once cancelled, a debounced function stays cancelled with nothing
   * armed, and `fn` runs only through `flush`, with the arguments given to
   * each flush, in order.
   */
  lemma {:induction false} CancelIsFinal<A>(s: FnState<A>, es: seq<FnEvent<A>>)
    requires s.timer.stopped && s.timer.pending.None?
    ensures FnRun(s, es).timer.stopped && FnRun(s, es).timer.pending.None?
    ensures |FnRun(s, es).log| >= |s.log| && FnRun(s, es).log[..|s.log|] == s.log
    ensures ArgsOf(FnRun(s, es).log) == ArgsOf(s.log) + FlushedArgs(es)
    decreases |es|
  {
    if es != [] {
      var s1 := FnStep(s, es[0]);
      var added := CancelledStep(s, es[0]);
      ArgsOfAppend(s.log, added);
      CancelIsFinal(s1, es[1..]);
      var r := FnRun(s1, es[1..]);
      assert FnRun(s, es) == r;
      assert FlushedArgs(es) == ArgsOf(added) + FlushedArgs(es[1..]);
      PrefixOfPrefix(r.log, s1.log, s.log);
    }
  }

  /** One event after `cancel`: nothing is armed, and only a flush adds a call. */
  lemma CancelledStep<A>(s: FnState<A>, e: FnEvent<A>) returns (added: seq<Invocation<A>>)
    requires s.timer.stopped && s.timer.pending.None?
    ensures FnStep(s, e).timer.stopped && FnStep(s, e).timer.pending.None?
    ensures FnStep(s, e).log == s.log + added
    ensures ArgsOf(added) == if e.Flush? then [e.args] else []
  {
    added := if e.Flush? then [Invocation(e.args, s.timer.clock)] else [];
    assert ArgsOf(added) == if e.Flush? then [e.args] else [];
  }

  lemma PrefixOfPrefix<X>(x: seq<X>, y: seq<X>, z: seq<X>)
    requires |x| >= |y| && x[..|y|] == y
    requires |y| >= |z| && y[..|z|] == z
    ensures x[..|z|] == z
  {
    assert x[..|z|] == x[..|y|][..|z|];
  }

  /** Cancelling a second time, whatever happened in between, changes nothing. */
  lemma CancelTwice<A>(s: FnState<A>, es: seq<FnEvent<A>>)
    ensures FnRun(s, [Cancel] + es + [Cancel]) == FnRun(s, [Cancel] + es)
  {
    FnRunAppend(s, [Cancel] + es, [Cancel]);
    assert ([Cancel] + es)[1..] == es;
    CancelIsFinal(FnStep(s, Cancel), es);
  }

  /**
   * `flush(args)` calls `fn` at once with its own arguments, drops the call
   * that was pending, and leaves the cancelled flag as it was.
   */
  lemma FlushDropsPending<A>(s: FnState<A>, args: A, time: int)
    ensures var r := FnStep(FnStep(s, Flush(args)), FnEvent.Advance(time));
      r.log == s.log + [Invocation(args, s.timer.clock)] && r.timer.pending.None? && r.timer.stopped == s.timer.stopped
  {
  }

  /** The closure of `useDebouncedFn(fn, delay)`, with its clock and the calls `fn` received. */
  class DebouncedFn<A> {
    const delay: nat
    var clock: int
    var cancelled: bool
    var timeout: Option<Pending<A>>
    var log: seq<Invocation<A>>

    function State(): FnState<A>
      reads this
    {
      FnState(Timer(delay, clock, cancelled, timeout), log)
    }

    ghost predicate Valid()
      reads this
    {
      TimerValid(State().timer)
    }

    constructor (delay: nat, now: int)
      ensures State() == FnState(Timer(delay, now, false, None), []) && Valid()
    {
      this.delay := delay;
      clock := now;
      cancelled := false;
      timeout := None;
      log := [];
    }

    /** `debounced(...args)`. */
    method Call(args: A)
      requires Valid()
      modifies this
      ensures State() == FnStep(old(State()), FnEvent.Call(args)) && Valid()
    {
      if cancelled {
        return;
      }
      timeout := Some(Pending(args, clock + delay));
    }

    /** `debounced.flush(...args)`. */
    method Flush(args: A)
      requires Valid()
      modifies this
      ensures State() == FnStep(old(State()), FnEvent.Flush(args)) && Valid()
    {
      timeout := None;
      log := log + [Invocation(args, clock)];
    }

    /** `debounced.cancel()`. */
    method Cancel()
      requires Valid()
      modifies this
      ensures State() == FnStep(old(State()), FnEvent.Cancel) && Valid()
    {
      cancelled := true;
      timeout := None;
    }

    /** The clock reaches `time`; the armed timeout runs `fn` if it is due. */
    method Advance(time: int)
      requires Valid()
      modifies this
      ensures State() == FnStep(old(State()), FnEvent.Advance(time)) && Valid()
    {
      var now := if time < clock then clock else time;
      match timeout {
        case Some(p) =>
          if p.due <= now {
            log := log + [Invocation(p.payload, p.due)];
            timeout := None;
          }
        case None =>
      }
      clock := now;
    }
  }

  // ---------------------------------------------------------------------------
  // useDebouncedRef
  // ---------------------------------------------------------------------------

  /** The state of a debounced ref: its timer, its value and how many times it triggered. */
  datatype RefState<T> = RefState(timer: Timer<T>, value: T, triggers: nat)

  /** Setting the ref, `block`, or time passing. */
  datatype RefEvent<T> = Set(newValue: T) | Block | Advance(time: int)

  function RefStep<T>(s: RefState<T>, e: RefEvent<T>): RefState<T> {
    match e
    case Set(v) => s.(timer := Arm(s.timer, v))
    case Block => s.(timer := Stop(s.timer))
    case Advance(time) =>
      var (t, f) := Expire(s.timer, time);
      match f
      case Some(p) => RefState(t, p.payload, s.triggers + 1)
      case None => s.(timer := t)
  }

  function RefRun<T>(s: RefState<T>, es: seq<RefEvent<T>>): RefState<T>
    decreases |es|
  {
    if es == [] then s else RefRun(RefStep(s, es[0]), es[1..])
  }

  /** Every event keeps the timer valid, and the value changes only when a due timeout fires, with a trigger. */
  lemma RefStepKeepsValid<T>(s: RefState<T>, e: RefEvent<T>)
    requires TimerValid(s.timer)
    ensures TimerValid(RefStep(s, e).timer)
    ensures RefStep(s, e).timer.stopped == (s.timer.stopped || e.Block?)
    ensures RefStep(s, e).value != s.value ==>
      e.Advance? && s.timer.pending.Some? && RefStep(s, e).value == s.timer.pending.value.payload
      && RefStep(s, e).triggers == s.triggers + 1
  {
    if e.Advance? {
      ExpireKeepsValid(s.timer, e.time);
    }
  }

  lemma {:induction false} RefRunAppend<T>(s: RefState<T>, es: seq<RefEvent<T>>, more: seq<RefEvent<T>>)
    ensures RefRun(s, es + more) == RefRun(RefRun(s, es), more)
    decreases |es|
  {
    if es == [] {
      assert es + more == more;
    } else {
      assert (es + more)[0] == es[0];
      assert (es + more)[1..] == es[1..] + more;
      RefRunAppend(RefStep(s, es[0]), es[1..], more);
      assert RefRun(s, es + more) == RefRun(RefStep(s, es[0]), es[1..] + more);
      assert RefRun(s, es) == RefRun(RefStep(s, es[0]), es[1..]);
    }
  }

  /** The clock reaching each assignment's time, then `ref.value = newValue`. */
  function SetBurst<T>(sets: seq<(T, int)>): seq<RefEvent<T>> {
    if sets == [] then [] else [RefEvent.Advance(sets[0].1), Set(sets[0].0)] + SetBurst(sets[1..])
  }

  /**
   * During a burst of assignments each closer than `delay` to the one
   * before, the value does not change and nothing is triggered; the armed
   * timeout holds the newest value.
   */
  lemma {:induction false} RefBurst<T>(s: RefState<T>, sets: seq<(T, int)>)
    requires sets != [] && !s.timer.stopped
    requires QuietUntil(s.timer, sets[0].1) && Dense(sets, s.timer.delay)
    ensures var last := sets[|sets| - 1];
      RefRun(s, SetBurst(sets)) == s.(timer :=
        s.timer.(clock := last.1, pending := Some(Pending(last.0, last.1 + s.timer.delay))))
    decreases |sets|
  {
    var t0 := sets[0].1;
    var s1 := s.(timer := s.timer.(clock := t0, pending := Some(Pending(sets[0].0, t0 + s.timer.delay))));
    ArmAt(s.timer, sets[0].0, t0);
    var es := SetBurst(sets);
    assert es[0] == RefEvent.Advance(t0) && es[1..][0] == Set(sets[0].0);
    assert es[1..][1..] == SetBurst(sets[1..]);
    var sa := RefStep(s, es[0]);
    assert sa == s.(timer := s.timer.(clock := t0));
    assert RefStep(sa, es[1..][0]) == s1;
    assert RefRun(s, es) == RefRun(sa, es[1..]);
    assert RefRun(sa, es[1..]) == RefRun(s1, es[1..][1..]);
    if |sets| > 1 {
      assert sets[1] == sets[1..][0];
      assert sets[1..][|sets[1..]| - 1] == sets[|sets| - 1];
      RefBurst(s1, sets[1..]);
    } else {
      assert SetBurst(sets[1..]) == [];
    }
  }

  /** When its timeout fires, the ref takes the newest value of the burst and triggers once. */
  lemma RefBurstThenWait<T>(s: RefState<T>, sets: seq<(T, int)>, time: int)
    requires sets != [] && !s.timer.stopped
    requires QuietUntil(s.timer, sets[0].1) && Dense(sets, s.timer.delay)
    requires time >= sets[|sets| - 1].1 + s.timer.delay
    ensures var r := RefRun(s, SetBurst(sets) + [RefEvent.Advance(time)]);
      r.value == sets[|sets| - 1].0 && r.triggers == s.triggers + 1 && r.timer.pending.None?
  {
    RefBurst(s, sets);
    RefRunAppend(s, SetBurst(sets), [RefEvent.Advance(time)]);
  }

  /** Once blocked with nothing armed, a ref's value never changes and it never triggers again. */
  lemma {:induction false} BlockIsFinal<T>(s: RefState<T>, es: seq<RefEvent<T>>)
    requires s.timer.stopped && s.timer.pending.None?
    ensures RefRun(s, es).value == s.value && RefRun(s, es).triggers == s.triggers
    ensures RefRun(s, es).timer.stopped && RefRun(s, es).timer.pending.None?
    decreases |es|
  {
    if es != [] {
      BlockIsFinal(RefStep(s, es[0]), es[1..]);
    }
  }

  /** `block()` makes the value final, whatever was pending and whatever comes after. */
  lemma BlockFreezes<T>(s: RefState<T>, es: seq<RefEvent<T>>)
    ensures RefRun(s, [Block] + es).value == s.value
    ensures RefRun(s, [Block] + es).triggers == s.triggers
  {
    assert ([Block] + es)[1..] == es;
    BlockIsFinal(RefStep(s, Block), es);
  }

  /** The closure of `useDebouncedRef(initalValue, delay)`, with its clock and a count of `trigger()` calls. */
  class DebouncedRef<T> {
    const delay: nat
    var clock: int
    var blocked: bool
    var timeout: Option<Pending<T>>
    var value: T
    var triggers: nat

    function State(): RefState<T>
      reads this
    {
      RefState(Timer(delay, clock, blocked, timeout), value, triggers)
    }

    ghost predicate Valid()
      reads this
    {
      TimerValid(State().timer)
    }

    constructor (initial: T, delay: nat, now: int)
      ensures State() == RefState(Timer(delay, now, false, None), initial, 0) && Valid()
    {
      this.delay := delay;
      clock := now;
      blocked := false;
      timeout := None;
      value := initial;
      triggers := 0;
    }

    /** The `get` of the custom ref: the current value; nothing changes. */
    method Get() returns (v: T)
      ensures v == value
    {
      v := value;
    }

    /** The `set` of the custom ref: the value itself does not change yet. */
    method Set(newValue: T)
      requires Valid()
      modifies this
      ensures State() == RefStep(old(State()), RefEvent.Set(newValue)) && Valid()
      ensures value == old(value) && triggers == old(triggers)
    {
      if blocked {
        return;
      }
      timeout := Some(Pending(newValue, clock + delay));
    }

    /** `debouncedRef.block()`. */
    method Block()
      requires Valid()
      modifies this
      ensures State() == RefStep(old(State()), RefEvent.Block) && Valid()
    {
      blocked := true;
      timeout := None;
    }

    /** The clock reaches `time`; a due timeout commits its value and triggers. */
    method Advance(time: int)
      requires Valid()
      modifies this
      ensures State() == RefStep(old(State()), RefEvent.Advance(time)) && Valid()
    {
      var now := if time < clock then clock else time;
      match timeout {
        case Some(p) =>
          if p.due <= now {
            value := p.payload;
            triggers := triggers + 1;
            timeout := None;
          }
        case None =>
      }
      clock := now;
    }
  }
}
