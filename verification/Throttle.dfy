/** `_.throttle` as a timed state machine.  Times are numbers of milliseconds; the clock never goes back and a timer
    never fires early, but it may fire late. */
module Throttle {
  import opened Wrappers

  datatype Options = Options(leading: bool, trailing: bool)

  /** One invocation of the function. */
  datatype Invocation = Invocation(time: int, args: int)

  /** `previous` is the number 0 until it is set; `timeout` is the time for which the timer is set; `args` are those of
      the latest call; `clock` and `invoked` are history. */
  datatype State = State(
    timeout: Option<int>,
    previous: int,
    isSet: bool,
    args: Option<int>,
    clock: int,
    invoked: seq<Invocation>)

  const INITIAL := State(None, 0, false, None, 0, [])

  datatype Event = Call(now: int, args: int) | Fire(now: int)

  predicate Enabled(s: State, e: Event) {
    s.clock <= e.now && (e.Fire? ==> s.timeout.Some? && s.timeout.value <= e.now)
  }

  function Called(s: State, wait: int, o: Options, now: int, args: int): State {
    var previous := if !s.isSet && !o.leading then now else s.previous;
    var isSet := s.isSet || !o.leading;
    var remaining := wait - (now - previous);
    if remaining <= 0 then State(None, now, true, Some(args), now, s.invoked + [Invocation(now, args)])
    else
      State(if s.timeout.None? && o.trailing then Some(now + remaining) else s.timeout,
            previous, isSet, Some(args), now, s.invoked)
  }

  function Fired(s: State, now: int): State
    requires s.args.Some?
  {
    State(None, now, true, s.args, now, s.invoked + [Invocation(now, s.args.value)])
  }

  function Step(s: State, wait: int, o: Options, e: Event): State {
    match e
    case Call(now, args) => Called(s, wait, o, now, args)
    case Fire(now) => if s.args.Some? then Fired(s, now) else s
  }

  // ---------- the invariant ----------

  /** The invocations are in order and at least `wait` apart. */
  ghost predicate Spaced(invoked: seq<Invocation>, wait: int) {
    forall i {:trigger invoked[i]} :: 0 < i < |invoked| ==>
      invoked[i].time - invoked[i - 1].time >= wait && invoked[i].time >= invoked[i - 1].time
  }

  function LastTime(s: State): int
    requires s.invoked != []
  {
    s.invoked[|s.invoked| - 1].time
  }

  ghost predicate Inv(s: State, wait: int, o: Options) {
    && Spaced(s.invoked, wait)
    && (s.invoked != [] ==> s.isSet && s.previous == LastTime(s))
    && (s.isSet ==> s.previous <= s.clock && s.args.Some?)
    && (s.timeout.Some? ==>
            s.timeout.value == s.previous + wait && s.args.Some? && o.trailing && (s.isSet || o.leading))
    && (!s.isSet ==> s.previous == 0)
    && (o.trailing && s.args.Some? ==>
          s.timeout.Some? || (s.invoked != [] && s.invoked[|s.invoked| - 1].args == s.args.value))
  }

  lemma SpacedMore(invoked: seq<Invocation>, wait: int, next: Invocation)
    requires Spaced(invoked, wait)
    requires invoked != [] ==>
      next.time - invoked[|invoked| - 1].time >= wait && next.time >= invoked[|invoked| - 1].time
    ensures Spaced(invoked + [next], wait)
  {
  }

  lemma StepKeepsInv(s: State, wait: int, o: Options, e: Event)
    requires Inv(s, wait, o) && Enabled(s, e)
    ensures Inv(Step(s, wait, o, e), wait, o) && Step(s, wait, o, e).clock == e.now
  {
    var r := Step(s, wait, o, e);
    if r.invoked != s.invoked {
      SpacedMore(s.invoked, wait, r.invoked[|s.invoked|]);
    }
  }

  /** A call is passed on at once exactly if `wait` has passed since the last invocation; a first call is if leading
      calls are wanted and `wait` has passed on the clock, or if there is nothing to wait for. */
  lemma CallPassedOn(s: State, wait: int, o: Options, now: int, args: int)
    requires Inv(s, wait, o) && Enabled(s, Call(now, args))
    ensures var r := Called(s, wait, o, now, args);
      r.invoked == if (if s.isSet || o.leading then now - s.previous >= wait else wait <= 0)
                   then s.invoked + [Invocation(now, args)] else s.invoked
    ensures s.invoked != [] ==> s.isSet && s.previous == LastTime(s)
  {
  }

  /** Without leading calls a call is still passed on at once if and only if there was a call before and `wait` has
      passed since the last invocation, or since that call if there was no invocation. */
  lemma LeadingOffExactly(s: State, wait: int, leadingOff: Options, now: int, args: int)
    requires Inv(s, wait, leadingOff) && Enabled(s, Call(now, args)) && !leadingOff.leading && wait > 0
    ensures Called(s, wait, leadingOff, now, args).invoked != s.invoked <==> s.isSet && now - s.previous >= wait
  {
    CallPassedOn(s, wait, leadingOff, now, args);
  }

  /** So the option does not disable the leading edge: after a quiet time the next call is passed on at once. */
  lemma LeadingOffRuns(wait: int, trailing: bool, x: int, y: int)
    requires wait > 0
    ensures var o := Options(false, trailing);
      var once := Step(INITIAL, wait, o, Call(0, x));
      var quiet := if trailing then Step(once, wait, o, Fire(wait)) else once;
      && Enabled(INITIAL, Call(0, x)) && (trailing ==> Enabled(once, Fire(wait)))
      && Enabled(quiet, Call(3 * wait, y)) && quiet.timeout.None?
      && Step(quiet, wait, o, Call(3 * wait, y)).invoked == quiet.invoked + [Invocation(3 * wait, y)]
  {
  }

  // ---------- runs ----------

  ghost predicate Run(trace: seq<State>, events: seq<Event>, wait: int, o: Options) {
    && |trace| == |events| + 1 && trace[0] == INITIAL
    && forall i {:trigger events[i]} :: 0 <= i < |events| ==>
         Enabled(trace[i], events[i]) && trace[i + 1] == Step(trace[i], wait, o, events[i])
  }

  lemma {:induction false} RunKeepsInv(trace: seq<State>, events: seq<Event>, wait: int, o: Options, k: nat)
    requires Run(trace, events, wait, o) && k < |trace|
    ensures Inv(trace[k], wait, o)
  {
    if k > 0 {
      RunKeepsInv(trace, events, wait, o, k - 1);
      assert trace[k - 1 + 1] == Step(trace[k - 1], wait, o, events[k - 1]);
      StepKeepsInv(trace[k - 1], wait, o, events[k - 1]);
    }
  }

  /** Any two invocations of a run are at least `wait` apart. */
  lemma {:induction false} AtLeastWaitApart(trace: seq<State>, events: seq<Event>, wait: int, o: Options, k: nat,
          i: nat, j: nat)
    requires Run(trace, events, wait, o) && k < |trace|
    requires i < j < |trace[k].invoked|
    ensures trace[k].invoked[j].time - trace[k].invoked[i].time >= wait
    decreases j
  {
    hide Run, Inv;
    RunKeepsInv(trace, events, wait, o, k);
    InvSpaced(trace[k], wait, o);
    var invoked := trace[k].invoked;
    assert invoked[j].time - invoked[j - 1].time >= wait && invoked[j].time >= invoked[j - 1].time;
    if i < j - 1 {
      AtLeastWaitApart(trace, events, wait, o, k, i, j - 1);
    }
  }

  lemma InvSpaced(s: State, wait: int, o: Options)
    requires Inv(s, wait, o)
    ensures Spaced(s.invoked, wait)
  {
  }

  /** A pending timer is due exactly `wait` after `previous`; with trailing calls the arguments of the latest call have
      been passed on or a timer is pending, so that without one nothing is lost. */
  lemma NothingLost(trace: seq<State>, events: seq<Event>, wait: int, o: Options, k: nat)
    requires Run(trace, events, wait, o) && k < |trace|
    ensures trace[k].timeout.Some? ==> trace[k].timeout.value == trace[k].previous + wait
    ensures o.trailing && trace[k].args.Some? && trace[k].timeout.None? ==>
      var invoked := trace[k].invoked; invoked != [] && invoked[|invoked| - 1].args == trace[k].args.value
  {
    RunKeepsInv(trace, events, wait, o, k);
  }

  /** When the timer fires, the function gets the arguments of the latest call, `wait` or more after the invocation
      before. */
  lemma TrailingCall(trace: seq<State>, events: seq<Event>, wait: int, o: Options, k: nat)
    requires Run(trace, events, wait, o) && k < |events| && events[k].Fire?
    ensures trace[k].args.Some?
    ensures trace[k + 1].invoked == trace[k].invoked + [Invocation(events[k].now, trace[k].args.value)]
    ensures trace[k + 1].timeout.None?
  {
    RunKeepsInv(trace, events, wait, o, k);
    assert Enabled(trace[k], events[k]) && trace[k + 1] == Step(trace[k], wait, o, events[k]);
  }

  /** The last call of a run, if any. */
  function LatestArgs(events: seq<Event>): Option<int> {
    if events == [] then None
    else if events[|events| - 1].Call? then Some(events[|events| - 1].args)
    else LatestArgs(events[..|events| - 1])
  }

  lemma {:induction false} ArgsAreLatest(trace: seq<State>, events: seq<Event>, wait: int, o: Options, k: nat)
    requires Run(trace, events, wait, o) && k <= |events|
    ensures trace[k].args == LatestArgs(events[..k])
  {
    if k > 0 {
      ArgsAreLatest(trace, events, wait, o, k - 1);
      assert Enabled(trace[k - 1], events[k - 1]) && trace[k - 1 + 1] == Step(trace[k - 1], wait, o, events[k - 1]);
      assert events[..k][..k - 1] == events[..k - 1];
    }
  }

  // ---------- the closure ----------

  /** The variables that the throttled function keeps. */
  class Throttled {
    const wait: int
    const options: Options
    var timeout: Option<int>
    var previous: int
    var isSet: bool
    var args: Option<int>
    ghost var clock: int
    var invoked: seq<Invocation>   // the calls made to the function

    ghost function View(): State
      reads this
    {
      State(timeout, previous, isSet, args, clock, invoked)
    }

    constructor (wait: int, options: Options)
      ensures View() == INITIAL && this.wait == wait && this.options == options
    {
      this.wait, this.options := wait, options;
      timeout, previous, isSet, args, clock, invoked := None, 0, false, None, 0, [];
    }

    method Later(now: int)
      requires Inv(View(), wait, options) && Enabled(View(), Fire(now))
      modifies this
      ensures View() == Step(old(View()), wait, options, Fire(now)) && Inv(View(), wait, options)
    {
      StepKeepsInv(View(), wait, options, Fire(now));
      previous, isSet := now, true;
      timeout := None;
      clock := now;
      invoked := invoked + [Invocation(now, args.value)];
    }

    method Call(now: int, a: int)
      requires Inv(View(), wait, options) && Enabled(View(), Event.Call(now, a))
      modifies this
      ensures View() == Step(old(View()), wait, options, Event.Call(now, a)) && Inv(View(), wait, options)
    {
      StepKeepsInv(View(), wait, options, Event.Call(now, a));
      if !isSet && !options.leading {
        previous, isSet := now, true;
      }
      var remaining := wait - (now - previous);
      args := Some(a);
      clock := now;
      if remaining <= 0 {
        timeout := None;
        previous, isSet := now, true;
        invoked := invoked + [Invocation(now, a)];
      } else if timeout.None? && options.trailing {
        timeout := Some(now + remaining);
      }
    }
  }
}
