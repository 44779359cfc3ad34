/**
 Everything that is on its way can be served, and serving it comes to an end: the steps of a sequence
 that do not enter callbacks of other lists use up a measure, and while something is left one of them
 can be made.
 */
module ThreadSafeProgress {
  import Sequences
  import opened ThreadSafeSpec
  import opened ThreadSafeDelivery

  /** The steps that serve what is queued or in progress. */
  predicate Serves(e: Event) {
    IsLocal(e) && !e.EnterForeign?
  }

  /** How many such steps a frame can take at most, with what it calls. */
  function FrameWork(f: Frame): nat {
    match f
    case Entered(_, _) => 3
    case Found(_, _) => 2
    case Calling(_, _, _) => 1
    case Foreign(_, _) => 1
    case Direct(rest, _) => 1 + 4 * |rest|
  }

  function StackWork(stack: seq<Frame>): nat {
    if stack == [] then 0 else FrameWork(stack[0]) + StackWork(stack[1..])
  }

  function Work(l: Local): nat {
    4 * |l.queue| + StackWork(l.stack)
  }

  /** Nothing is queued or in progress. */
  predicate Idle(l: Local) {
    l.queue == [] && l.stack == []
  }

  lemma StackCons(f: Frame, below: seq<Frame>)
    ensures StackWork([f] + below) == FrameWork(f) + StackWork(below)
  {
    assert ([f] + below)[1..] == below;
  }

  lemma ServingShrinks(s: State, e: Event)
    requires Serves(e) && Enabled(s, e)
    ensures var l := At(s.locals, e.q); Work(LocalStep(s, l, e)) < Work(l)
  {
    var l := At(s.locals, e.q);
    var m := LocalStep(s, l, e);
    match e
    case Dequeue(_) => StackCons(Entered(l.queue[0], false), l.stack);
    case NextDirect(_) =>
      var Direct(rest, n) := l.stack[0];
      if rest != [] {
        var loop := Direct(rest[1..], n);
        assert m.stack == [Entered(Task(rest[0], n), true)] + ([loop] + l.stack[1..]);
        StackCons(Entered(Task(rest[0], n), true), [loop] + l.stack[1..]);
        StackCons(loop, l.stack[1..]);
      }
    case Lookup(_) => StackCons(Found(l.stack[0].task, l.stack[0].direct), l.stack[1..]);
    case Invoke(_) => StackCons(Calling(l.stack[0].task, l.stack[0].direct, l.current), l.stack[1..]);
    case Return(_) =>
    case LeaveForeign(_) =>
  }

  /** The step that is next on a sequence with something to do. */
  function NextStep(l: Local, q: Sequence): Event
    requires !Idle(l)
  {
    if l.stack == [] then Dequeue(q)
    else match l.stack[0]
      case Entered(_, _) => Lookup(q)
      case Found(_, _) => Invoke(q)
      case Calling(_, _, _) => Return(q)
      case Foreign(_, _) => LeaveForeign(q)
      case Direct(_, _) => NextDirect(q)
  }

  /** A sequence is idle if and only if it can make no serving step. */
  lemma IdleIffStuck(s: State, q: Sequence)
    ensures Idle(At(s.locals, q)) <==> forall e :: Serves(e) && e.q == q ==> !Enabled(s, e)
  {
    var l := At(s.locals, q);
    if !Idle(l) {
      var e := NextStep(l, q);
      assert Serves(e) && e.q == q && Enabled(s, e);
    }
  }

  function StepsOn(es: seq<Event>, q: Sequence): nat {
    if es == [] then 0 else (if Serves(es[0]) && es[0].q == q then 1 else 0) + StepsOn(es[1..], q)
  }

  /** However the sequences interleave, each can make only so many serving steps. */
  lemma {:induction false} ServingEnds(s: State, es: seq<Event>, q: Sequence)
    requires RunOk(s, es) && forall e :: e in es ==> Serves(e)
    ensures StepsOn(es, q) + Work(At(Run(s, es).locals, q)) <= Work(At(s.locals, q))
    decreases |es|
  {
    if es != [] {
      assert es[0] in es;
      assert forall e :: e in es[1..] ==> e in es;
      ServingShrinks(s, es[0]);
      ServingEnds(Step(s, es[0]), es[1..], q);
    }
  }

  // ---------------------------------------------------------------- a run that serves everything

  ghost predicate AllIdle(s: State) {
    forall q :: q in s.locals ==> Idle(s.locals[q])
  }

  /** `es` serves, and leads to a state that differs from `s` in the log and on the sequences `qs` only. */
  ghost predicate ServingRun(s: State, es: seq<Event>, qs: set<Sequence>) {
    && RunOk(s, es)
    && (forall e :: e in es ==> Serves(e))
    && var t := Run(s, es);
       && t.observers == s.observers && t.issued == s.issued && t.policy == s.policy
       && t.locals.Keys == s.locals.Keys
       && (forall p :: p in s.locals && p !in qs ==> t.locals[p] == s.locals[p])
  }

  lemma {:induction false} RunConcat(s: State, a: seq<Event>, b: seq<Event>)
    requires RunOk(s, a) && RunOk(Run(s, a), b)
    ensures RunOk(s, a + b) && Run(s, a + b) == Run(Run(s, a), b)
    decreases |a|
  {
    if a == [] {
      assert a + b == b;
    } else {
      assert (a + b)[1..] == a[1..] + b;
      RunConcat(Step(s, a[0]), a[1..], b);
    }
  }

  lemma {:induction false} ServeSequence(s: State, q: Sequence) returns (es: seq<Event>)
    requires q in s.locals
    ensures ServingRun(s, es, {q}) && Idle(Run(s, es).locals[q])
    decreases Work(s.locals[q])
  {
    if Idle(s.locals[q]) {
      es := [];
    } else {
      var e := NextStep(s.locals[q], q);
      ServingShrinks(s, e);
      var rest := ServeSequence(Step(s, e), q);
      es := [e] + rest;
      assert es[1..] == rest;
    }
  }

  lemma {:induction false} ServeAll(s: State, qs: set<Sequence>) returns (es: seq<Event>)
    requires qs <= s.locals.Keys && forall q :: q in s.locals && q !in qs ==> Idle(s.locals[q])
    ensures ServingRun(s, es, qs) && AllIdle(Run(s, es))
    decreases |qs|
  {
    if qs == {} {
      es := [];
    } else {
      var q :| q in qs;
      var first := ServeSequence(s, q);
      var t := Run(s, first);
      var rest := ServeAll(t, qs - {q});
      RunConcat(s, first, rest);
      es := first + rest;
    }
  }

  /** From every state, reachable or not, some run of serving steps alone, in which no observer is added
      or removed, leaves every queue and every call stack empty. */
  lemma CanDrain(s: State)
    ensures exists es :: ServingRun(s, es, s.locals.Keys) && AllIdle(Run(s, es))
  {
    var es := ServeAll(s, s.locals.Keys);
  }

  // ---------------------------------------------------------------- what was issued is delivered

  lemma IdleIsDrained(s: State, q: Sequence, o: Observer)
    requires AllIdle(s)
    ensures Due(At(s.locals, q), o) == [] && DirectDue(At(s.locals, q).stack, o) == multiset{}
  {
  }

  lemma {:induction false} ServingIssuesNothing(es: seq<Event>, fs: seq<Event>)
    requires forall e :: e in fs ==> Serves(e)
    ensures AllIssued(es + fs) == AllIssued(es)
    decreases |es|, |fs|
  {
    if es != [] {
      assert (es + fs)[1..] == es[1..] + fs;
      ServingIssuesNothing(es[1..], fs);
    } else if fs != [] {
      assert fs[0] in fs;
      assert [] + fs == fs && [] + fs[1..] == fs[1..];
      assert forall e :: e in fs[1..] ==> e in fs;
      ServingIssuesNothing([], fs[1..]);
    }
  }

  /** The observer is called exactly once for each notification issued during `es`. */
  ghost predicate ServedOnce(s: State, es: seq<Event>, t: State, o: Observer) {
    && s.log <= t.log
    && multiset(AllStarts(NewLog(s, t), o)) == multiset(AllIssued(es))
    && Sequences.Distinct(AllIssued(es))
  }

  /** If what is on its way after `es` is served, in any order, until every sequence is idle, then an
      observer registered throughout was called once for each notification issued. */
  lemma ServedOnceForEach(s: State, es: seq<Event>, fs: seq<Event>, o: Observer)
    requires Valid(s) && RunOk(s, es) && o in s.observers && forall e :: e in es ==> !Removes(e, o)
    requires var l := At(s.locals, s.observers[o]); Due(l, o) == [] && DirectDue(l.stack, o) == multiset{}
    requires RunOk(Run(s, es), fs) && (forall e :: e in fs ==> Serves(e)) && AllIdle(Run(Run(s, es), fs))
    ensures ServedOnce(s, es, Run(Run(s, es), fs), o)
  {
    RunConcat(s, es, fs);
    IdleIsDrained(Run(s, es + fs), s.observers[o], o);
    CalledOnceForEach(s, es + fs, o);
    ServingIssuesNothing(es, fs);
  }

  /** And it can always be served. */
  lemma CanBeServed(s: State, es: seq<Event>, o: Observer)
    requires Valid(s) && RunOk(s, es) && o in s.observers && forall e :: e in es ==> !Removes(e, o)
    requires var l := At(s.locals, s.observers[o]); Due(l, o) == [] && DirectDue(l.stack, o) == multiset{}
    ensures exists fs :: && ServingRun(Run(s, es), fs, Run(s, es).locals.Keys)
                         && ServedOnce(s, es, Run(Run(s, es), fs), o)
  {
    var t := Run(s, es);
    var fs := ServeAll(t, t.locals.Keys);
    ServedOnceForEach(s, es, fs, o);
  }
}
