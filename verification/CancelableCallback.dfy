/**
 `CancelableCallbackImpl`: a wrapped callback and the forwarders handed out for it. A forwarder is
 bound to a weak pointer; invalidating the weak pointers starts a new generation, and a forwarder
 does something only in the generation in which it was made.
 */
module CancelableCallbacks {
  import opened Common
  import opened Sequences

  /** Each callback given to the object has its own number. */
  type Callback = nat

  /** `callback()` of an object that wraps nothing is a null callback. */
  datatype Forwarder = NullForwarder | Bound(generation: nat)

  datatype State = State(
    kind: Kind,
    callback: Option<Callback>,
    generation: nat,
    alive: bool,                 // the object has not been destroyed
    handed: seq<Forwarder>,      // every forwarder handed out
    runs: seq<Callback>,         // every run of a wrapped callback
    given: set<Callback>)        // every callback ever wrapped

  datatype Event = Reset(c: Callback) | Cancel | HandOut | Forward(k: nat) | Destroy

  // ---------------------------------------------------------------- operations

  function Cancelled(s: State): State {
    s.(generation := s.generation + 1, callback := None)
  }

  /** The forwarder's weak pointer is valid. */
  predicate Live(s: State, f: Forwarder) {
    f.Bound? && s.alive && f.generation == s.generation
  }

  /** ForwardOnce invalidates and moves the callback out before it runs it; ForwardRepeating runs it. */
  function Forwarded(s: State, f: Forwarder): State {
    if !Live(s, f) then s
    else
      var t := s.(runs := s.runs + if s.callback.Some? then [s.callback.value] else []);
      if s.kind == Once then t.(generation := s.generation + 1, callback := None) else t
  }

  predicate Enabled(s: State, e: Event) {
    match e
    case Reset(c) => s.alive && c !in s.given
    case Cancel => s.alive
    case HandOut => s.alive
    case Forward(k) => k < |s.handed| && s.handed[k].Bound?
    case Destroy => s.alive
  }

  function Step(s: State, e: Event): State
    requires Enabled(s, e)
  {
    match e
    case Reset(c) => Cancelled(s).(callback := Some(c), given := s.given + {c})
    case Cancel => Cancelled(s)
    case HandOut => s.(handed := s.handed + [if s.callback.None? then NullForwarder else Bound(s.generation)])
    case Forward(k) => Forwarded(s, s.handed[k])
    case Destroy => s.(alive := false)
  }

  predicate RunOk(s: State, es: seq<Event>)
    decreases |es|
  {
    es != [] ==> Enabled(s, es[0]) && RunOk(Step(s, es[0]), es[1..])
  }

  function Run(s: State, es: seq<Event>): State
    requires RunOk(s, es)
    decreases |es|
  {
    if es == [] then s else Run(Step(s, es[0]), es[1..])
  }

  /** A new object, with or without a callback. */
  function Init(kind: Kind, c: Option<Callback>): State {
    State(kind, c, 0, true, [], [], if c.Some? then {c.value} else {})
  }

  // ---------------------------------------------------------------- invariant

  ghost predicate Valid(s: State) {
    && (forall f :: f in s.handed && f.Bound? ==>
          f.generation <= s.generation && (f.generation == s.generation ==> s.callback.Some?))
    && (s.callback.Some? ==> s.callback.value in s.given)
    && (forall c :: c in s.runs ==> c in s.given)
    && (s.kind == Once ==> Distinct(s.runs) && (s.callback.Some? ==> s.callback.value !in s.runs))
  }

  lemma StepKeepsValid(s: State, e: Event)
    requires Valid(s) && Enabled(s, e)
    ensures Valid(Step(s, e))
  {
    if e.Forward? {
      assert s.handed[e.k] in s.handed;
    }
  }

  lemma {:induction false} RunIsValid(s: State, es: seq<Event>)
    requires Valid(s) && RunOk(s, es)
    ensures Valid(Run(s, es))
    decreases |es|
  {
    if es != [] {
      StepKeepsValid(s, es[0]);
      RunIsValid(Step(s, es[0]), es[1..]);
    }
  }

  /** In every reachable state a valid forwarder has a callback to run, so no null callback is ever
      run; and a wrapped once-callback has run at most once, however many forwarders there are. */
  lemma ReachableStates(kind: Kind, c: Option<Callback>, es: seq<Event>)
    requires RunOk(Init(kind, c), es)
    ensures var s := Run(Init(kind, c), es);
            && (forall k :: 0 <= k < |s.handed| && Live(s, s.handed[k]) ==> s.callback.Some?)
            && (kind == Once ==> Distinct(s.runs))
  {
    RunIsValid(Init(kind, c), es);
    RunKind(Init(kind, c), es);
    var s := Run(Init(kind, c), es);
    assert forall k :: 0 <= k < |s.handed| ==> s.handed[k] in s.handed;
  }

  lemma {:induction false} RunKind(s: State, es: seq<Event>)
    requires RunOk(s, es)
    ensures Run(s, es).kind == s.kind
    decreases |es|
  {
    if es != [] {
      RunKind(Step(s, es[0]), es[1..]);
    }
  }

  // ---------------------------------------------------------------- how long a forwarder works

  /** The events that invalidate the forwarders: Reset, Cancel, destruction, and for a once-callback
      the run of any forwarder that is still valid. */
  predicate Ends(s: State, e: Event)
    requires Enabled(s, e)
  {
    e.Reset? || e.Cancel? || e.Destroy? || (e.Forward? && s.kind == Once && Live(s, s.handed[e.k]))
  }

  predicate Undisturbed(s: State, es: seq<Event>)
    requires RunOk(s, es)
    decreases |es|
  {
    es == [] || (!Ends(s, es[0]) && Undisturbed(Step(s, es[0]), es[1..]))
  }

  lemma {:induction false} StaysStale(s: State, es: seq<Event>, f: Forwarder)
    requires RunOk(s, es) && f.Bound? && (!s.alive || f.generation < s.generation)
    ensures !Live(Run(s, es), f)
    decreases |es|
  {
    if es != [] {
      StaysStale(Step(s, es[0]), es[1..], f);
    }
  }

  /** A forwarder that is valid at some point is valid later exactly if nothing has ended its
      generation in between; it then runs the callback that was wrapped when it was handed out, and
      otherwise running it changes nothing, ever after. */
  lemma {:induction false} ForwarderLifetime(s: State, es: seq<Event>, f: Forwarder)
    requires Valid(s) && RunOk(s, es) && Live(s, f) && s.callback.Some?
    ensures var t := Run(s, es);
            && (Live(t, f) <==> Undisturbed(s, es))
            && (Live(t, f) ==> t.callback == s.callback && Forwarded(t, f).runs == t.runs + [s.callback.value])
            && (!Live(t, f) ==> Forwarded(t, f) == t)
    decreases |es|
  {
    if es != [] {
      var t := Step(s, es[0]);
      StepKeepsValid(s, es[0]);
      if Ends(s, es[0]) {
        StaysStale(t, es[1..], f);
      } else {
        ForwarderLifetime(t, es[1..], f);
      }
    }
  }

  // ---------------------------------------------------------------- which callback a forwarder runs

  /** While nothing ends the generation, the wrapped callback and the handed out forwarders stay. */
  lemma {:induction false} KeepsWrapped(s: State, es: seq<Event>)
    requires RunOk(s, es) && s.alive && Undisturbed(s, es)
    ensures var t := Run(s, es);
            t.alive && t.callback == s.callback && t.generation == s.generation && s.handed <= t.handed
    decreases |es|
  {
    if es != [] {
      KeepsWrapped(Step(s, es[0]), es[1..]);
    }
  }

  predicate RunOkAfterHandOut(s: State, es: seq<Event>) {
    s.alive && RunOk(Step(s, HandOut), es)
  }

  /** If `s` hands out a forwarder and nothing ends the generation during `es`, running the forwarder
      runs the callback `c`, once. */
  ghost predicate HandsOut(s: State, c: Callback, es: seq<Event>)
    requires RunOkAfterHandOut(s, es)
  {
    Undisturbed(Step(s, HandOut), es) ==>
      var t := Run(Step(s, HandOut), es);
      && Enabled(t, Forward(|s.handed|))
      && Step(t, Forward(|s.handed|)).runs == t.runs + [c]
  }

  lemma ForwardsWrapped(s: State, c: Callback, es: seq<Event>)
    requires s.callback == Some(c) && RunOkAfterHandOut(s, es)
    ensures HandsOut(s, c, es)
  {
    var u := Step(s, HandOut);
    if Undisturbed(u, es) {
      KeepsWrapped(u, es);
      var t := Run(u, es);
      assert t.handed[|s.handed|] == u.handed[|s.handed|] == Bound(s.generation);
    }
  }

  /** After Reset(c) and until the generation ends, every forwarder handed out runs `c`, whatever was
      wrapped before. */
  lemma ResetWraps(s: State, c: Callback, es: seq<Event>, fs: seq<Event>)
    requires Enabled(s, Reset(c)) && RunOk(Step(s, Reset(c)), es) && Undisturbed(Step(s, Reset(c)), es)
    requires RunOkAfterHandOut(Run(Step(s, Reset(c)), es), fs)
    ensures HandsOut(Run(Step(s, Reset(c)), es), c, fs)
  {
    KeepsWrapped(Step(s, Reset(c)), es);
    ForwardsWrapped(Run(Step(s, Reset(c)), es), c, fs);
  }

  /** The same for the callback given to the constructor; without one, only null callbacks are handed
      out. */
  lemma ConstructorWraps(kind: Kind, c: Option<Callback>, es: seq<Event>, fs: seq<Event>)
    requires RunOk(Init(kind, c), es) && Undisturbed(Init(kind, c), es)
    requires RunOkAfterHandOut(Run(Init(kind, c), es), fs)
    ensures var s := Run(Init(kind, c), es);
            if c.Some? then HandsOut(s, c.value, fs)
            else Step(s, HandOut).handed == s.handed + [NullForwarder]
  {
    KeepsWrapped(Init(kind, c), es);
    if c.Some? {
      ForwardsWrapped(Run(Init(kind, c), es), c.value, fs);
    }
  }

  // ---------------------------------------------------------------- the object

  class CancelableCallback {
    const kind: Kind
    var callback: Option<Callback>
    var generation: nat          // of the weak pointer factory
    ghost var view: State

    ghost predicate WellFormed()
      reads this
    {
      && Valid(view) && view.alive
      && view.kind == kind && view.callback == callback && view.generation == generation
    }

    constructor (kind: Kind, c: Option<Callback>)
      ensures WellFormed() && view == Init(kind, c) && callback == c
    {
      this.kind := kind;
      callback, generation := c, 0;
      view := Init(kind, c);
    }

    method Cancel()
      requires WellFormed()
      modifies this
      ensures WellFormed() && view == Step(old(view), Event.Cancel) && IsCancelled()
    {
      StepKeepsValid(view, Event.Cancel);
      view := Cancelled(view);
      generation := generation + 1;
      callback := None;
    }

    predicate IsCancelled()
      reads this
    {
      callback.None?
    }

    /** Outstanding forwarders are cancelled before the new callback is wrapped. */
    method Reset(c: Callback)
      requires WellFormed() && c !in view.given
      modifies this
      ensures WellFormed() && view == Step(old(view), Event.Reset(c)) && callback == Some(c) && !IsCancelled()
    {
      StepKeepsValid(view, Event.Reset(c));
      Cancel();
      callback := Some(c);
      view := view.(callback := Some(c), given := view.given + {c});
    }

    method MakeForwarder() returns (f: Forwarder)
      requires WellFormed()
      modifies this`view
      ensures WellFormed() && view == Step(old(view), HandOut)
      ensures f == view.handed[|view.handed| - 1] && (f.Bound? <==> !IsCancelled())
    {
      StepKeepsValid(view, HandOut);
      f := if callback.None? then NullForwarder else Bound(generation);
      view := view.(handed := view.handed + [f]);
    }

    /** Running the k-th forwarder that was handed out: returns the callback that was run, if any. */
    method RunForwarder(f: Forwarder, ghost k: nat) returns (ran: Option<Callback>)
      requires WellFormed() && k < |view.handed| && view.handed[k] == f && f.Bound?
      modifies this
      ensures WellFormed() && view == Step(old(view), Forward(k))
      ensures ran == if Live(old(view), f) then old(callback) else None
      ensures Live(old(view), f) <==> ran.Some?
    {
      StepKeepsValid(view, Forward(k));
      assert f in view.handed;
      if f.generation != generation {
        return None;
      }
      ran := callback;
      view := Forwarded(view, f);
      if kind == Once {
        generation := generation + 1;
        callback := None;
      }
    }
  }
}
