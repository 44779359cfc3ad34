/**
 The thread-safe observer list as a protocol of atomic steps. A step is what happens under one hold
 of the lock, or one action of a sequence that touches only its own task queue, its own call stack
 and its own thread-local pointer. Steps of different sequences interleave freely.

 Each sequence has a FIFO queue of posted wrappers. A callback may run a nested loop, so the stack
 of a sequence can hold any number of wrappers, of this list and of others.
 */
module ThreadSafeSpec {
  import opened Common
  import opened Sequences

  type Observer = nat
  type Sequence = nat

  /** `list` is the list that is notifying: this one is `SELF`. `sync` says which call issued it. */
  datatype Notification = Notification(list: nat, id: nat, sync: bool)
  const SELF: nat := 0

  datatype Task = Task(observer: Observer, notification: Notification)

  datatype Frame =
    | Entered(task: Task, direct: bool)    // NotifyWrapper is called but has not looked the observer up
    | Found(task: Task, direct: bool)      // the lookup succeeded and the lock is released
    | Calling(task: Task, direct: bool, previous: Option<Notification>)
    | Direct(rest: seq<Observer>, notification: Notification)    // the loop of NotifySynchronously
    | Foreign(notification: Notification, previous: Option<Notification>)  // a callback of another list

  datatype Local = Local(queue: seq<Task>, stack: seq<Frame>, current: Option<Notification>)

  datatype Start = Start(task: Task, direct: bool, where: Sequence)

  datatype State = State(
    policy: Policy,
    observers: map<Observer, Sequence>,
    locals: map<Sequence, Local>,
    issued: set<Notification>,
    log: seq<Start>)           // every callback started, in order

  datatype Event =
    | Add(q: Sequence, o: Observer)
    | Remove(q: Sequence, o: Observer)
    | Notify(n: Notification, order: seq<Observer>)
    | NotifySync(q: Sequence, n: Notification, order: seq<Observer>)
    | NextDirect(q: Sequence)
    | Dequeue(q: Sequence)
    | Lookup(q: Sequence)
    | Invoke(q: Sequence)
    | Return(q: Sequence)
    | EnterForeign(q: Sequence, n: Notification)
    | LeaveForeign(q: Sequence)

  // ---------------------------------------------------------------- local states

  const IDLE: Local := Local([], [], None)

  function At(ls: map<Sequence, Local>, q: Sequence): Local {
    if q in ls then ls[q] else IDLE
  }

  /** Client code is running on `q`: the only moments at which it can call the list. */
  predicate ClientCode(l: Local) {
    l.stack == [] || l.stack[0].Calling? || l.stack[0].Foreign?
  }

  function Post(ls: map<Sequence, Local>, q: Sequence, t: Task): map<Sequence, Local> {
    ls[q := At(ls, q).(queue := At(ls, q).queue + [t])]
  }

  function Push(ls: map<Sequence, Local>, q: Sequence, f: Frame): map<Sequence, Local> {
    ls[q := At(ls, q).(stack := [f] + At(ls, q).stack)]
  }

  // ---------------------------------------------------------------- operations

  /** The posting loop: one task for each observer in the order in which the map enumerates them,
      except for those on the sequence `skip`. */
  function PostAll(ls: map<Sequence, Local>, observers: map<Observer, Sequence>, order: seq<Observer>,
                   n: Notification, skip: Option<Sequence>): map<Sequence, Local>
    requires forall o :: o in order ==> o in observers
    decreases |order|
  {
    if order == [] then ls else
      var q := observers[order[0]];
      PostAll(if skip == Some(q) then ls else Post(ls, q, Task(order[0], n)), observers, order[1..], n, skip)
  }

  /** The observers registered on `q`, in enumeration order. */
  function On(observers: map<Observer, Sequence>, order: seq<Observer>, q: Sequence): seq<Observer>
    requires forall o :: o in order ==> o in observers
  {
    if order == [] then []
    else if observers[order[0]] == q then [order[0]] + On(observers, order[1..], q)
    else On(observers, order[1..], q)
  }

  function AddObserver(s: State, q: Sequence, o: Observer): State {
    var c := At(s.locals, q).current;
    s.(observers := s.observers[o := q],
       locals := if s.policy == All && c.Some? && c.value.list == SELF then Post(s.locals, q, Task(o, c.value))
                 else s.locals)
  }

  ghost predicate Enumerates(observers: map<Observer, Sequence>, order: seq<Observer>) {
    && (forall o :: o in order ==> o in observers)
    && (forall o :: o in observers ==> o in order)
    && Distinct(order)
  }

  /** The observer of a wrapper that has not started its callback yet. */
  predicate Awaits(f: Frame, o: Observer) {
    match f
    case Entered(t, _) => t.observer == o
    case Found(t, _) => t.observer == o
    case Direct(rest, _) => o in rest
    case _ => false
  }

  /** Some notification for `o` is on its way on this sequence. */
  ghost predicate Expects(l: Local, o: Observer) {
    || (exists t :: t in l.queue && t.observer == o)
    || (exists f :: f in l.stack && Awaits(f, o))
  }

  ghost predicate Enabled(s: State, e: Event) {
    match e
    case Add(q, o) =>
      && ClientCode(At(s.locals, q)) && o !in s.observers
      && (forall p :: p in s.locals && p != q ==> !Expects(s.locals[p], o))
    case Remove(q, o) => ClientCode(At(s.locals, q))
    case Notify(n, order) => Enumerates(s.observers, order) && n.list == SELF && !n.sync && n !in s.issued
    case NotifySync(q, n, order) =>
      && ClientCode(At(s.locals, q)) && Enumerates(s.observers, order)
      && n.list == SELF && n.sync && n !in s.issued
    case NextDirect(q) => At(s.locals, q).stack != [] && At(s.locals, q).stack[0].Direct?
    case Dequeue(q) => ClientCode(At(s.locals, q)) && At(s.locals, q).queue != []
    case Lookup(q) => At(s.locals, q).stack != [] && At(s.locals, q).stack[0].Entered?
    case Invoke(q) => At(s.locals, q).stack != [] && At(s.locals, q).stack[0].Found?
    case Return(q) => At(s.locals, q).stack != [] && At(s.locals, q).stack[0].Calling?
    case EnterForeign(q, n) => ClientCode(At(s.locals, q)) && n.list != SELF
    case LeaveForeign(q) => At(s.locals, q).stack != [] && At(s.locals, q).stack[0].Foreign?
  }

  predicate IsLocal(e: Event) {
    !e.Add? && !e.Remove? && !e.Notify? && !e.NotifySync?
  }

  /** The steps of one sequence that do not change the map: what the sequence becomes. */
  function LocalStep(s: State, l: Local, e: Event): Local
    requires IsLocal(e)
    requires e.Dequeue? ==> l.queue != []
    requires e.NextDirect? ==> l.stack != [] && l.stack[0].Direct?
    requires e.Lookup? ==> l.stack != [] && l.stack[0].Entered?
    requires e.Invoke? ==> l.stack != [] && l.stack[0].Found?
    requires e.Return? ==> l.stack != [] && l.stack[0].Calling?
    requires e.LeaveForeign? ==> l.stack != [] && l.stack[0].Foreign?
  {
    match e
    case Dequeue(q) => l.(queue := l.queue[1..], stack := [Entered(l.queue[0], false)] + l.stack)
    case NextDirect(q) =>
      var Direct(rest, n) := l.stack[0];
      if rest == [] then l.(stack := l.stack[1..])
      else l.(stack := [Entered(Task(rest[0], n), true), Direct(rest[1..], n)] + l.stack[1..])
    case Lookup(q) =>
      var Entered(t, direct) := l.stack[0];
      if t.observer in s.observers then l.(stack := [Found(t, direct)] + l.stack[1..])
      else l.(stack := l.stack[1..])
    case Invoke(q) =>
      var Found(t, direct) := l.stack[0];
      Local(l.queue, [Calling(t, direct, l.current)] + l.stack[1..], Some(t.notification))
    case Return(q) => Local(l.queue, l.stack[1..], l.stack[0].previous)
    case EnterForeign(q, n) => Local(l.queue, [Foreign(n, l.current)] + l.stack, Some(n))
    case LeaveForeign(q) => Local(l.queue, l.stack[1..], l.stack[0].previous)
  }

  function LogOf(l: Local, e: Event): seq<Start> {
    if e.Invoke? && l.stack != [] && l.stack[0].Found? then [Start(l.stack[0].task, l.stack[0].direct, e.q)] else []
  }

  ghost function Step(s: State, e: Event): State
    requires Enabled(s, e)
  {
    match e
    case Add(q, o) => AddObserver(s, q, o)
    case Remove(q, o) => s.(observers := s.observers - {o})
    case Notify(n, order) =>
      s.(locals := PostAll(s.locals, s.observers, order, n, None), issued := s.issued + {n})
    case NotifySync(q, n, order) =>
      s.(locals := Push(PostAll(s.locals, s.observers, order, n, Some(q)), q, Direct(On(s.observers, order, q), n)),
         issued := s.issued + {n})
    case _ =>
      var l := At(s.locals, e.q);
      s.(locals := s.locals[e.q := LocalStep(s, l, e)], log := s.log + LogOf(l, e))
  }

  ghost predicate RunOk(s: State, es: seq<Event>)
    decreases |es|
  {
    es != [] ==> Enabled(s, es[0]) && RunOk(Step(s, es[0]), es[1..])
  }

  ghost function Run(s: State, es: seq<Event>): State
    requires RunOk(s, es)
    decreases |es|
  {
    if es == [] then s else Run(Step(s, es[0]), es[1..])
  }

  function Init(policy: Policy): State {
    State(policy, map[], map[], {}, [])
  }

  // ---------------------------------------------------------------- invariants

  /** The thread-local pointer is the notification of the innermost running callback, and each
      callback has saved what was there before it. */
  predicate Nested(stack: seq<Frame>, current: Option<Notification>) {
    if stack == [] then current == None
    else match stack[0]
      case Calling(t, _, previous) => current == Some(t.notification) && Nested(stack[1..], previous)
      case Foreign(n, previous) => current == Some(n) && n.list != SELF && Nested(stack[1..], previous)
      case _ => Nested(stack[1..], current)
  }

  /** Only the innermost wrapper can be short of its callback. */
  ghost predicate Shape(stack: seq<Frame>) {
    forall k :: 0 < k < |stack| ==> !stack[k].Entered? && !stack[k].Found?
  }

  ghost predicate LocalOk(observers: map<Observer, Sequence>, q: Sequence, l: Local) {
    && Nested(l.stack, l.current)
    && Shape(l.stack)
    && (forall o :: o in observers && Expects(l, o) ==> observers[o] == q)
  }

  ghost predicate Valid(s: State) {
    forall q :: q in s.locals ==> LocalOk(s.observers, q, s.locals[q])
  }

  lemma ExpectsPosted(l: Local, t: Task, o: Observer)
    ensures Expects(l.(queue := l.queue + [t]), o) <==> Expects(l, o) || t.observer == o
  {
    var m := l.(queue := l.queue + [t]);
    assert t in m.queue;
    if Expects(l, o) && !(exists f :: f in l.stack && Awaits(f, o)) {
      var u :| u in l.queue && u.observer == o;
      assert u in m.queue;
    }
  }

  lemma PostOk(observers: map<Observer, Sequence>, p: Sequence, l: Local, t: Task)
    requires LocalOk(observers, p, l) && (t.observer in observers ==> observers[t.observer] == p)
    ensures LocalOk(observers, p, l.(queue := l.queue + [t]))
  {
    var m := l.(queue := l.queue + [t]);
    forall o | o in observers && Expects(m, o) ensures observers[o] == p {
      ExpectsPosted(l, t, o);
    }
  }

  ghost predicate AllOk(observers: map<Observer, Sequence>, ls: map<Sequence, Local>) {
    forall q :: q in ls ==> LocalOk(observers, q, ls[q])
  }

  lemma {:induction false} PostAllOk(ls: map<Sequence, Local>, observers: map<Observer, Sequence>, order: seq<Observer>,
                                     n: Notification, skip: Option<Sequence>)
    requires (forall o :: o in order ==> o in observers) && AllOk(observers, ls)
    ensures AllOk(observers, PostAll(ls, observers, order, n, skip))
    decreases |order|
  {
    if order != [] {
      var q := observers[order[0]];
      PostOk(observers, q, At(ls, q), Task(order[0], n));
      PostAllOk(if skip == Some(q) then ls else Post(ls, q, Task(order[0], n)), observers, order[1..], n, skip);
    }
  }

  lemma {:induction false} OnMembers(observers: map<Observer, Sequence>, order: seq<Observer>, q: Sequence)
    requires forall o :: o in order ==> o in observers
    ensures forall o :: o in On(observers, order, q) <==> o in order && observers[o] == q
  {
    if order != [] {
      OnMembers(observers, order[1..], q);
    }
  }

  /** A local step only moves what is expected forward; it never makes `q` expect anything new. */
  lemma LocalStepOk(s: State, e: Event)
    requires Valid(s) && IsLocal(e) && Enabled(s, e)
    ensures LocalOk(s.observers, e.q, LocalStep(s, At(s.locals, e.q), e))
  {
    var l := At(s.locals, e.q);
    var m := LocalStep(s, l, e);
    assert LocalOk(s.observers, e.q, l);
    assert Nested(m.stack, m.current) && Shape(m.stack) by {
      LocalShape(s, l, e);
    }
    forall o | Expects(m, o) ensures Expects(l, o) {
      ExpectsLess(s, l, e, o);
    }
  }

  lemma LocalShape(s: State, l: Local, e: Event)
    requires Nested(l.stack, l.current) && Shape(l.stack)
    requires IsLocal(e) && Enabled(s, e) && l == At(s.locals, e.q)
    ensures Nested(LocalStep(s, l, e).stack, LocalStep(s, l, e).current) && Shape(LocalStep(s, l, e).stack)
  {
    var m := LocalStep(s, l, e);
    if e.NextDirect? && l.stack[0].rest != [] {
      assert m.stack[1..] == [m.stack[1]] + l.stack[1..];
      assert m.stack[1..][1..] == l.stack[1..];
    } else if e.Dequeue? || e.EnterForeign? {
      assert m.stack[1..] == l.stack;
    } else if e.Invoke? || (e.Lookup? && |m.stack| == |l.stack|) {
      assert m.stack[1..] == l.stack[1..];
    }
  }

  lemma ExpectsLess(s: State, l: Local, e: Event, o: Observer)
    requires IsLocal(e) && Enabled(s, e) && l == At(s.locals, e.q)
    requires Expects(LocalStep(s, l, e), o)
    ensures Expects(l, o)
  {
    var m := LocalStep(s, l, e);
    if t :| t in m.queue && t.observer == o {
      assert t in l.queue;
    } else {
      var f :| f in m.stack && Awaits(f, o);
      if f !in l.stack {
        match e
        case Dequeue(_) => assert l.queue[0] in l.queue;
        case NextDirect(_) => assert l.stack[0] in l.stack && Awaits(l.stack[0], o);
        case Lookup(_) => assert l.stack[0] in l.stack && Awaits(l.stack[0], o);
        case _ =>
      }
    }
  }

  lemma DirectOk(observers: map<Observer, Sequence>, order: seq<Observer>, ls: map<Sequence, Local>, q: Sequence,
                 n: Notification)
    requires (forall o :: o in order ==> o in observers) && AllOk(observers, ls) && ClientCode(At(ls, q))
    ensures AllOk(observers, Push(ls, q, Direct(On(observers, order, q), n)))
  {
    OnMembers(observers, order, q);
    var l := At(ls, q);
    var m := Push(ls, q, Direct(On(observers, order, q), n))[q];
    assert LocalOk(observers, q, l);
    assert m.stack[1..] == l.stack;
    forall o | o in observers && Expects(m, o) ensures observers[o] == q {
      if !Awaits(m.stack[0], o) {
        assert Expects(l, o) by {
          if f :| f in m.stack && Awaits(f, o) {
            assert f in l.stack;
          }
        }
      }
    }
    assert forall k :: 0 < k < |m.stack| ==> m.stack[k] == l.stack[k - 1];
    assert Nested(m.stack, m.current);
    assert LocalOk(observers, q, m);
  }

  lemma {:induction false} PostAllStack(ls: map<Sequence, Local>, observers: map<Observer, Sequence>,
                                        order: seq<Observer>, n: Notification, skip: Option<Sequence>, q: Sequence)
    requires forall o :: o in order ==> o in observers
    ensures var m := At(PostAll(ls, observers, order, n, skip), q);
            && m.stack == At(ls, q).stack && m.current == At(ls, q).current
            && m.queue == At(ls, q).queue + Addressed(observers, order, n, skip, q)
    decreases |order|
  {
    if order != [] {
      var p := observers[order[0]];
      PostAllStack(if skip == Some(p) then ls else Post(ls, p, Task(order[0], n)), observers, order[1..], n, skip, q);
    }
  }

  /** The tasks that a posting loop appends to the queue of `q`. */
  function Addressed(observers: map<Observer, Sequence>, order: seq<Observer>, n: Notification,
                     skip: Option<Sequence>, q: Sequence): seq<Task>
    requires forall o :: o in order ==> o in observers
  {
    if order == [] then []
    else if observers[order[0]] == q && skip != Some(q) then
      [Task(order[0], n)] + Addressed(observers, order[1..], n, skip, q)
    else Addressed(observers, order[1..], n, skip, q)
  }

  lemma AddOk(s: State, q: Sequence, o: Observer)
    requires Valid(s) && Enabled(s, Add(q, o))
    ensures Valid(AddObserver(s, q, o))
  {
    var t := AddObserver(s, q, o);
    assert AllOk(t.observers, s.locals);
    var l := At(s.locals, q);
    assert LocalOk(t.observers, q, l);
    if t.locals != s.locals {
      PostOk(t.observers, q, l, Task(o, l.current.value));
    }
  }

  /** The assumption made of additions is what the invariant needs: adding an observer keeps wrappers on
      the sequence of their observer if and only if no other sequence expects it. */
  lemma AddOkIff(s: State, q: Sequence, o: Observer)
    requires Valid(s) && ClientCode(At(s.locals, q)) && o !in s.observers
    ensures Valid(AddObserver(s, q, o)) <==> forall p :: p in s.locals && p != q ==> !Expects(s.locals[p], o)
  {
    var t := AddObserver(s, q, o);
    if p :| p in s.locals && p != q && Expects(s.locals[p], o) {
      assert t.locals[p] == s.locals[p];
      assert !LocalOk(t.observers, p, t.locals[p]);
    } else {
      AddOk(s, q, o);
    }
  }

  lemma StepKeepsValid(s: State, e: Event)
    requires Valid(s) && Enabled(s, e)
    ensures Valid(Step(s, e))
  {
    match e
    case Add(q, o) => AddOk(s, q, o);
    case Remove(q, o) =>
    case Notify(n, order) => PostAllOk(s.locals, s.observers, order, n, None);
    case NotifySync(q, n, order) =>
      PostAllOk(s.locals, s.observers, order, n, Some(q));
      PostAllStack(s.locals, s.observers, order, n, Some(q), q);
      DirectOk(s.observers, order, PostAll(s.locals, s.observers, order, n, Some(q)), q, n);
    case _ => LocalStepOk(s, e);
  }

  lemma {:induction false} RunIsValid(s: State, es: seq<Event>)
    requires Valid(s) && RunOk(s, es)
    ensures Valid(Run(s, es))
    decreases |es|
  {
    if es != [] {
      StepKeepsValid(s, es[0]);
      RunIsValid(Step(s, es[0]), es[1..]);
    }
  }

  /** In every reachable state: the thread-local pointer of each sequence is the notification of its
      innermost running callback or null if there is none, and a wrapper that looks its observer up
      and finds it is on the sequence on which the observer is registered. */
  lemma ReachableStates(policy: Policy, es: seq<Event>, q: Sequence)
    requires RunOk(Init(policy), es)
    ensures var s := Run(Init(policy), es);
            var l := At(s.locals, q);
            && Valid(s)
            && Nested(l.stack, l.current)
            && (Enabled(s, Lookup(q)) && l.stack[0].task.observer in s.observers ==>
                  s.observers[l.stack[0].task.observer] == q)
  {
    RunIsValid(Init(policy), es);
    var s := Run(Init(policy), es);
    var l := At(s.locals, q);
    if Enabled(s, Lookup(q)) {
      assert l.stack[0] in l.stack && Awaits(l.stack[0], l.stack[0].task.observer);
      assert Expects(l, l.stack[0].task.observer);
    }
  }
}
