/** `throttle` and `debounce` (src/utils/utils.ts) as deterministic transition
    systems. The clock (`Date.now()`) becomes a `now` parameter, and the host's timer
    service becomes an explicit pending timer that the host fires with `Tick`. Each
    wrapper records the calls its wrapped function receives in `ran`, so that "the
    function runs once with these arguments" can be stated. */
module RateLimiters {
  import opened Wrappers

  /** One run of the wrapped function: when it ran and with which arguments. */
  datatype Invocation<A> = Invocation(at: int, args: A)

  /** A call of a wrapper: the clock reading and the arguments. */
  datatype Call<A> = Call(now: int, args: A)

  predicate Nondecreasing<A>(calls: seq<Call<A>>) {
    forall i, j :: 0 <= i < j < |calls| ==> calls[i].now <= calls[j].now
  }

  // ================================================================ throttle

  /** The default of `throttle`'s `limit` parameter, in milliseconds. */
  const DefaultLimit := 300

  /** The state a `throttle` wrapper closes over, with the record of runs. */
  datatype ThrottleState<A> = ThrottleState(limit: int, lastCall: int, ran: seq<Invocation<A>>)

  /** A fresh wrapper: `lastCall` starts at 0, not at "never". */
  function ThrottleInit<A>(limit: int): ThrottleState<A> {
    ThrottleState(limit, 0, [])
  }

  /** The test the wrapper applies to a call at time `now`. */
  predicate Accepts<A>(s: ThrottleState<A>, now: int) {
    now - s.lastCall >= s.limit
  }

  /** One call of the wrapper: an accepted call records its time and runs the function
      once with its arguments; a dropped call changes nothing. */
  function ThrottleStep<A>(s: ThrottleState<A>, now: int, args: A): ThrottleState<A> {
    if Accepts(s, now) then s.(lastCall := now, ran := s.ran + [Invocation(now, args)]) else s
  }

  /** A series of calls, in order. */
  function ThrottleRun<A>(s: ThrottleState<A>, calls: seq<Call<A>>): ThrottleState<A>
    decreases |calls|
  {
    if calls == [] then s else ThrottleRun(ThrottleStep(s, calls[0].now, calls[0].args), calls[1..])
  }

  /** The wrapper `throttle(fn, limit)` returns, as an object. */
  class Throttler<A> {
    const limit: int
    var lastCall: int
    var ran: seq<Invocation<A>>

    function State(): ThrottleState<A>
      reads this
    {
      ThrottleState(limit, lastCall, ran)
    }

    /** The object's invariant: the runs so far are spaced at least `limit` apart,
        and before the first run `lastCall` still holds its initial 0. */
    ghost predicate Valid()
      reads this
    {
      Spaced(State()) && (ran == [] ==> lastCall == 0)
    }

    constructor (limit: int := DefaultLimit)
      ensures this.limit == limit && lastCall == 0 && ran == []
      ensures State() == ThrottleInit(limit)
      ensures Valid()
    {
      this.limit := limit;
      lastCall := 0;
      ran := [];
    }

    /** Calling the wrapper at time `now` with `args`. */
    method Invoke(now: int, args: A)
      requires Valid()
      modifies this
      ensures Valid()
      ensures now - old(lastCall) >= limit ==> lastCall == now && ran == old(ran) + [Invocation(now, args)]
      ensures now - old(lastCall) < limit ==> lastCall == old(lastCall) && ran == old(ran)
      ensures State() == ThrottleStep(old(State()), now, args)
    {
      if now - lastCall >= limit {
        lastCall := now;
        ran := ran + [Invocation(now, args)];
      }
    }
  }

  /** Runs are spaced at least `limit` apart, and `lastCall` is the last run's time. */
  predicate Spaced<A>(s: ThrottleState<A>) {
    && (forall i :: 0 < i < |s.ran| ==> s.ran[i].at - s.ran[i - 1].at >= s.limit)
    && (|s.ran| > 0 ==> s.lastCall == s.ran[|s.ran| - 1].at)
    && (|s.ran| > 0 ==> s.ran[0].at >= s.limit)
  }

  /** The runs are, in order, some of the calls: a subsequence of them. */
  ghost predicate RunsOf<A>(runs: seq<Invocation<A>>, calls: seq<Call<A>>)
    decreases |calls|
  {
    if runs == [] then true
    else if calls == [] then false
    else
      || (runs[0] == Invocation(calls[0].now, calls[0].args) && RunsOf(runs[1..], calls[1..]))
      || RunsOf(runs, calls[1..])
  }

  /** Every run in a subsequence of the calls is one of the calls. */
  lemma {:induction false} RunsOfMembers<A>(runs: seq<Invocation<A>>, calls: seq<Call<A>>)
    requires RunsOf(runs, calls)
    ensures forall i :: 0 <= i < |runs| ==> Call(runs[i].at, runs[i].args) in calls
    decreases |calls|
  {
    if runs != [] {
      if runs[0] == Invocation(calls[0].now, calls[0].args) && RunsOf(runs[1..], calls[1..]) {
        RunsOfMembers(runs[1..], calls[1..]);
        assert forall i :: 1 <= i < |runs| ==> runs[i] == runs[1..][i - 1];
      } else {
        RunsOfMembers(runs, calls[1..]);
      }
    }
  }

  /** A run of calls only appends to the record, and what it appends is a subsequence
      of the calls. */
  lemma {:induction false} ThrottleRunsOf<A>(s: ThrottleState<A>, calls: seq<Call<A>>)
    ensures var r := ThrottleRun(s, calls);
      |s.ran| <= |r.ran| && r.ran[..|s.ran|] == s.ran && RunsOf(r.ran[|s.ran|..], calls)
    decreases |calls|
  {
    if calls != [] {
      var s' := ThrottleStep(s, calls[0].now, calls[0].args);
      ThrottleRunsOf(s', calls[1..]);
      var r := ThrottleRun(s', calls[1..]);
      assert r.ran[..|s.ran|] == r.ran[..|s'.ran|][..|s.ran|];
      if Accepts(s, calls[0].now) {
        var here := r.ran[|s.ran|..];
        assert here[0] == Invocation(calls[0].now, calls[0].args);
        assert here[1..] == r.ran[|s'.ran|..];
      }
    }
  }

  /** A run of calls keeps the runs spaced and only adds as many runs as there are calls. */
  lemma {:induction false} ThrottleRunKeepsSpacing<A>(s: ThrottleState<A>, calls: seq<Call<A>>)
    requires Spaced(s) && (|s.ran| == 0 ==> s.lastCall == 0)
    ensures var r := ThrottleRun(s, calls);
      Spaced(r) && r.limit == s.limit && |r.ran| <= |s.ran| + |calls|
    decreases |calls|
  {
    if calls != [] {
      var s' := ThrottleStep(s, calls[0].now, calls[0].args);
      assert Spaced(s');
      ThrottleRunKeepsSpacing(s', calls[1..]);
    }
  }

  /** Whatever the calls, a fresh throttle runs its function at most once per `limit`
      window: consecutive runs are at least `limit` apart, the first at time `limit` or
      later, and the new runs are some of the calls, in order, each at most once. */
  lemma ThrottleRunSpaced<A>(s: ThrottleState<A>, calls: seq<Call<A>>)
    requires Spaced(s) && (|s.ran| == 0 ==> s.lastCall == 0)
    ensures var r := ThrottleRun(s, calls);
      Spaced(r) && r.limit == s.limit && |s.ran| <= |r.ran| <= |s.ran| + |calls|
      && r.ran[..|s.ran|] == s.ran
      && (forall i :: |s.ran| <= i < |r.ran| ==> Call(r.ran[i].at, r.ran[i].args) in calls)
      && RunsOf(r.ran[|s.ran|..], calls)
  {
    var r := ThrottleRun(s, calls);
    ThrottleRunKeepsSpacing(s, calls);
    ThrottleRunsOf(s, calls);
    RunsOfMembers(r.ran[|s.ran|..], calls);
    assert forall i :: |s.ran| <= i < |r.ran| ==> r.ran[i] == r.ran[|s.ran|..][i - |s.ran|];
  }

  /** `lastCall` never moves back while the clock does not: after an accepted call,
      and whenever the calls come no earlier than the current `lastCall`. */
  lemma {:induction false} ThrottleLastCallMonotone<A>(s: ThrottleState<A>, calls: seq<Call<A>>)
    requires Nondecreasing(calls)
    requires |calls| > 0 ==> s.lastCall <= calls[0].now
    ensures ThrottleRun(s, calls).lastCall >= s.lastCall
    ensures |calls| > 0 ==> ThrottleRun(s, calls).lastCall <= calls[|calls| - 1].now
    decreases |calls|
  {
    if calls != [] {
      var s' := ThrottleStep(s, calls[0].now, calls[0].args);
      assert s'.lastCall <= calls[0].now;
      if |calls| > 1 {
        assert calls[0].now <= calls[1].now;
      }
      ThrottleLastCallMonotone(s', calls[1..]);
    }
  }

  /** With the default limit, the calls at t + 100 and t + 250 after a call accepted at
      t are both dropped, and a call at t + 300 is accepted. */
  lemma ThrottleWindow<A>(s: ThrottleState<A>, t: int, a: A, b: A, c: A, d: A)
    requires s.limit == DefaultLimit && Accepts(s, t)
    ensures var s1 := ThrottleStep(s, t, a);
      ThrottleRun(s1, [Call(t + 100, b), Call(t + 250, c)]) == s1
      && ThrottleRun(s1, [Call(t + 100, b), Call(t + 250, c), Call(t + 300, d)]).ran
         == s.ran + [Invocation(t, a), Invocation(t + 300, d)]
  {
    var s1 := ThrottleStep(s, t, a);
    assert s1.lastCall == t;
    var two := [Call(t + 100, b), Call(t + 250, c)];
    var three := two + [Call(t + 300, d)];
    assert ThrottleStep(s1, t + 100, b) == s1 && ThrottleStep(s1, t + 250, c) == s1;
    assert ThrottleRun(s1, two[1..]) == ThrottleRun(s1, [])
      by { assert two[1..][1..] == []; }
    assert three[1..] == [Call(t + 250, c), Call(t + 300, d)];
    assert three[1..][1..] == [Call(t + 300, d)];
    var s2 := ThrottleStep(s1, t + 300, d);
    assert ThrottleRun(s1, three[1..][1..]) == ThrottleRun(s2, [])
      by { assert three[1..][1..][1..] == []; }
  }

  /** Because `lastCall` starts at 0, a fresh wrapper drops a call made before time
      `limit`: the first call is not always accepted. */
  lemma ThrottleEarlyFirstCallDropped<A>(limit: int, now: int, args: A)
    requires now < limit
    ensures ThrottleStep(ThrottleInit<A>(limit), now, args) == ThrottleInit<A>(limit)
  {
  }

  /** A client of the object: with the default limit, calls at 1000, 1100 and 1250
      run the function once, for the first call. */
  method ThrottlerScenario<A>(a: A, b: A, c: A) returns (ran: seq<Invocation<A>>)
    ensures ran == [Invocation(1000, a)]
  {
    var throttled := new Throttler<A>();
    throttled.Invoke(1000, a);
    throttled.Invoke(1100, b);
    throttled.Invoke(1250, c);
    ran := throttled.ran;
  }

  // ================================================================ debounce

  /** A scheduled call of the wrapped function: when it is due and with which arguments. */
  datatype Timer<A> = Timer(due: int, args: A)

  /** The state a `debounce` wrapper closes over (its single timer handle), with
      the record of runs. */
  datatype DebounceState<A> = DebounceState(wait: int, pending: Option<Timer<A>>, ran: seq<Invocation<A>>)

  function DebounceInit<A>(wait: int): DebounceState<A> {
    DebounceState(wait, None, [])
  }

  /** The delay the timer service applies: a negative delay counts as 0. */
  function Delay(wait: int): (d: nat)
    ensures wait >= 0 ==> d == wait
  {
    if wait < 0 then 0 else wait
  }

  /** A call of the wrapper: `clearTimeout` drops the pending timer, and `setTimeout`
      schedules a new one with the latest arguments. Nothing runs now. */
  function DebounceCall<A>(s: DebounceState<A>, now: int, args: A): DebounceState<A> {
    s.(pending := Some(Timer(now + Delay(s.wait), args)))
  }

  /** The timer service at time `now`: a pending timer that is due fires, running the
      function once with its arguments, and is gone. */
  function DebounceTick<A>(s: DebounceState<A>, now: int): DebounceState<A> {
    match s.pending
    case Some(t) =>
      if t.due <= now then s.(pending := None, ran := s.ran + [Invocation(t.due, t.args)]) else s
    case None => s
  }

  /** The host running a series of calls: before each call, a timer that is due by
      then fires. */
  function DebounceRun<A>(s: DebounceState<A>, calls: seq<Call<A>>): DebounceState<A>
    decreases |calls|
  {
    if calls == [] then s
    else DebounceRun(DebounceCall(DebounceTick(s, calls[0].now), calls[0].now, calls[0].args), calls[1..])
  }

  /** Time passes without further calls: the pending timer, if any, fires. */
  function DebounceSettle<A>(s: DebounceState<A>): DebounceState<A> {
    match s.pending
    case Some(t) => DebounceTick(s, t.due)
    case None => s
  }

  /** The wrapper `debounce(func, wait)` returns, as an object. */
  class Debouncer<A> {
    const wait: int
    var pending: Option<Timer<A>>
    var ran: seq<Invocation<A>>

    function State(): DebounceState<A>
      reads this
    {
      DebounceState(wait, pending, ran)
    }

    constructor (wait: int)
      ensures this.wait == wait && pending == None && ran == []
      ensures State() == DebounceInit(wait)
    {
      this.wait := wait;
      pending := None;
      ran := [];
    }

    /** Calling the wrapper: the pending timer is replaced, nothing runs. */
    method Invoke(now: int, args: A)
      modifies this
      ensures pending == Some(Timer(now + Delay(wait), args)) && ran == old(ran)
      ensures State() == DebounceCall(old(State()), now, args)
    {
      pending := Some(Timer(now + Delay(wait), args));
    }

    /** The timer service at time `now`. */
    method Tick(now: int)
      modifies this
      ensures old(pending).Some? && old(pending).value.due <= now ==>
        pending == None && ran == old(ran) + [Invocation(old(pending).value.due, old(pending).value.args)]
      ensures !(old(pending).Some? && old(pending).value.due <= now) ==>
        pending == old(pending) && ran == old(ran)
      ensures State() == DebounceTick(old(State()), now)
    {
      if pending.Some? && pending.value.due <= now {
        ran := ran + [Invocation(pending.value.due, pending.value.args)];
        pending := None;
      }
    }
  }

  /** Reference definition of what a debounced function delivers. Call i runs at
      `calls[i].now + d` exactly when it is the last call or
      `calls[i + 1].now >= calls[i].now + d`; a timer already pending runs first, at
      its due time, when there is no call or it is due by the first call. The timer
      argument carries the previous call's `(now + d, args)` to the next step. */
  function Delivered<A>(pending: Option<Timer<A>>, calls: seq<Call<A>>, d: nat): seq<Invocation<A>>
    decreases |calls|
  {
    var fired := if pending.Some? && (calls == [] || pending.value.due <= calls[0].now)
                 then [Invocation(pending.value.due, pending.value.args)] else [];
    if calls == [] then fired
    else fired + Delivered(Some(Timer(calls[0].now + d, calls[0].args)), calls[1..], d)
  }

  /** The transition system delivers exactly the reference runs, and afterwards the
      one pending timer belongs to the last call. */
  lemma {:induction false} DebounceRunDelivers<A>(s: DebounceState<A>, calls: seq<Call<A>>)
    ensures DebounceSettle(DebounceRun(s, calls)).ran == s.ran + Delivered(s.pending, calls, Delay(s.wait))
    ensures DebounceSettle(DebounceRun(s, calls)).pending == None
    ensures calls != [] ==>
      DebounceRun(s, calls).pending == Some(Timer(calls[|calls| - 1].now + Delay(s.wait), calls[|calls| - 1].args))
    decreases |calls|
  {
    if calls != [] {
      var s' := DebounceCall(DebounceTick(s, calls[0].now), calls[0].now, calls[0].args);
      DebounceRunDelivers(s', calls[1..]);
      assert s'.ran == s.ran + (if s.pending.Some? && s.pending.value.due <= calls[0].now
        then [Invocation(s.pending.value.due, s.pending.value.args)] else []);
    }
  }

  /** A burst: every call comes before the previous call's timer is due. */
  predicate Burst<A>(calls: seq<Call<A>>, d: nat) {
    forall i :: 0 < i < |calls| ==> calls[i].now < calls[i - 1].now + d
  }

  /** In a burst only the last call's arguments are ever delivered, exactly once, one
      delay after the last call. */
  lemma {:induction false} BurstDeliversLast<A>(pending: Option<Timer<A>>, calls: seq<Call<A>>, d: nat)
    requires calls != [] && Burst(calls, d)
    requires pending.Some? ==> calls[0].now < pending.value.due
    ensures Delivered(pending, calls, d)
      == [Invocation(calls[|calls| - 1].now + d, calls[|calls| - 1].args)]
    decreases |calls|
  {
    if |calls| > 1 {
      assert calls[1..][0] == calls[1];
      assert Burst(calls[1..], d) by {
        forall i | 0 < i < |calls[1..]| ensures calls[1..][i].now < calls[1..][i - 1].now + d {
          assert calls[1..][i] == calls[i + 1] && calls[1..][i - 1] == calls[i];
        }
      }
      BurstDeliversLast(Some(Timer(calls[0].now + d, calls[0].args)), calls[1..], d);
    }
  }

  /** Calls at 0, 50 and 120 with `wait = 100`: the function runs once, at 220, with
      the third call's arguments. */
  lemma DebounceExample<A>(a: A, b: A, c: A)
    ensures DebounceSettle(DebounceRun(DebounceInit<A>(100), [Call(0, a), Call(50, b), Call(120, c)])).ran
      == [Invocation(220, c)]
  {
    var calls := [Call(0, a), Call(50, b), Call(120, c)];
    DebounceRunDelivers(DebounceInit<A>(100), calls);
    BurstDeliversLast(None, calls, 100);
  }

  /** A client of the object: the timer service runs before each call and once more
      at 220; the calls at 0, 50 and 120 with `wait = 100` give one run, at 220, with
      the third call's arguments. */
  method DebouncerScenario<A>(a: A, b: A, c: A) returns (ran: seq<Invocation<A>>)
    ensures ran == [Invocation(220, c)]
  {
    var debounced := new Debouncer<A>(100);
    debounced.Tick(0);
    debounced.Invoke(0, a);
    debounced.Tick(50);
    debounced.Invoke(50, b);
    debounced.Tick(120);
    debounced.Invoke(120, c);
    debounced.Tick(220);
    ran := debounced.ran;
  }
}
