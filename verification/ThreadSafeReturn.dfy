/**
 Observers that are added while notifications are on their way: inside a callback, or after a removal.
 What an observer is called for after an addition is given exactly, through the queue and directly, and
 from that follows when RemoveObserver has aborted what was pending, as it is documented to do.
 */
module ThreadSafeReturn {
  import opened Common
  import opened Sequences
  import opened ThreadSafeSpec
  import opened ThreadSafeDelivery

  /** What AddObserver posts: the notification of this list being dispatched on the sequence. */
  function Caught(s: State, q: Sequence): seq<Notification> {
    var c := At(s.locals, q).current;
    if s.policy == All && c.Some? && c.value.list == SELF then [c.value] else []
  }

  /** Nothing is on its way to `o` on this sequence, in the queue or in a loop of NotifySynchronously. */
  ghost predicate Drained(l: Local, o: Observer) {
    Due(l, o) == [] && DirectDue(l.stack, o) == multiset{}
  }

  /** Observer `o` is added on `q` in state `s` and kept during `es`, until nothing is on its way to it. */
  ghost predicate AddedAndKept(s: State, q: Sequence, o: Observer, es: seq<Event>) {
    && Enabled(s, Add(q, o))
    && RunOk(Step(s, Add(q, o)), es)
    && (forall e :: e in es ==> !Removes(e, o))
    && Drained(At(Run(Step(s, Add(q, o)), es).locals, q), o)
  }

  ghost function End(s: State, q: Sequence, o: Observer, es: seq<Event>): State
    requires AddedAndKept(s, q, o, es)
  {
    Run(Step(s, Add(q, o)), es)
  }

  // ---------------------------------------------------------------- after an addition

  lemma AddedDue(s: State, q: Sequence, o: Observer)
    requires Enabled(s, Add(q, o))
    ensures var l, m := At(s.locals, q), At(Step(s, Add(q, o)).locals, q);
            Due(m, o) == Due(l, o) + Caught(s, q) && m.stack == l.stack
  {
    var l := At(s.locals, q);
    if Caught(s, q) != [] {
      QueuedConcat(l.queue, [Task(o, l.current.value)], o);
      Assoc(InFlight(l.stack, o), Queued(l.queue, o), Caught(s, q));
    }
  }

  /** An observer that is added and kept is called through the queue for what was left there from an
      earlier registration, then for the notification being dispatched where it was added, then for
      what is posted later, in this order; and directly for what the loops of NotifySynchronously
      below had still to call it for, and for what is sent directly later. */
  lemma AddedObserver(s: State, q: Sequence, o: Observer, es: seq<Event>)
    requires Valid(s) && AddedAndKept(s, q, o, es)
    ensures s.log <= End(s, q, o, es).log
    ensures var started := NewLog(s, End(s, q, o, es));
            && Starts(started, o, false) == Due(At(s.locals, q), o) + Caught(s, q) + Sent(es, q)
            && multiset(Starts(started, o, true)) == DirectDue(At(s.locals, q).stack, o) + DirectSent(es, q)
  {
    var u := Step(s, Add(q, o));
    var t := Run(u, es);
    StepKeepsValid(s, Add(q, o));
    LogGrows(u, es);
    AddedDue(s, q, o);
    PostedLaw(u, es, o);
    NewDue(u, t, q, o, Sent(es, q));
    DirectLaw(u, es, o);
    NewDirect(u, t, q, o, DirectSent(es, q));
  }

  /** The same for all calls together, in whatever order. */
  lemma AddedObserverCalls(s: State, q: Sequence, o: Observer, es: seq<Event>)
    requires Valid(s) && AddedAndKept(s, q, o, es)
    ensures s.log <= End(s, q, o, es).log
    ensures var l := At(s.locals, q);
            multiset(AllStarts(NewLog(s, End(s, q, o, es)), o))
            == multiset(Due(l, o)) + DirectDue(l.stack, o) + multiset(Caught(s, q)) + multiset(AllIssued(es))
  {
    var l, t := At(s.locals, q), End(s, q, o, es);
    AddedObserver(s, q, o, es);
    AllStartsSplit(NewLog(s, t), o);
    SentOrDirect(es, q);
    FiveSum(Due(l, o), Caught(s, q), Sent(es, q), DirectDue(l.stack, o), DirectSent(es, q));
  }

  lemma FiveSum(a: seq<Notification>, b: seq<Notification>, c: seq<Notification>,
                d: multiset<Notification>, e: multiset<Notification>)
    ensures multiset(a + b + c) + (d + e) == multiset(a) + d + multiset(b) + (multiset(c) + e)
  {
  }

  /** An observer added inside a callback of this list and kept: under ALL it is called for the
      notification being dispatched exactly once, and under EXISTING_ONLY not at all, if and only if
      that notification is not still on its way to it, in the queue or in a loop of NotifySynchronously,
      from an earlier registration. */
  lemma AddedInCallback(s: State, q: Sequence, o: Observer, es: seq<Event>)
    requires Valid(s) && Known(s) && AddedAndKept(s, q, o, es)
    requires At(s.locals, q).stack != [] && At(s.locals, q).stack[0].Calling?
    ensures s.log <= End(s, q, o, es).log
    ensures var l := At(s.locals, q);
            var n := l.stack[0].task.notification;
            multiset(AllStarts(NewLog(s, End(s, q, o, es)), o))[n] == (if s.policy == All then 1 else 0)
            <==> n !in Due(l, o) && n !in DirectDue(l.stack, o)
  {
    var l, u := At(s.locals, q), Step(s, Add(q, o));
    var n := l.stack[0].task.notification;
    assert LocalOk(s.observers, q, l) && LocalKnown(s.issued, l) && l.stack[0] in l.stack;
    assert l.current == Some(n) && n.list == SELF && n in s.issued;
    AddedObserverCalls(s, q, o, es);
    AllIssuedOnce(u, es);
    assert Caught(s, q) == if s.policy == All then [n] else [];
    CountOnce(Due(l, o), DirectDue(l.stack, o), Caught(s, q), AllIssued(es), n);
  }

  lemma CountOnce(a: seq<Notification>, b: multiset<Notification>, c: seq<Notification>, d: seq<Notification>,
                  n: Notification)
    requires n !in d
    ensures (multiset(a) + b + multiset(c) + multiset(d))[n] == multiset(c)[n] <==> n !in a && n !in b
  {
    assert multiset(d)[n] == 0;
    assert multiset(a)[n] == 0 <==> n !in a;
  }

  // ---------------------------------------------------------------- while an observer is not registered

  /** `b` is what is left of `a` when elements were taken from the front. */
  ghost predicate EndsWith(a: seq<Notification>, b: seq<Notification>) {
    |b| <= |a| && a[|a| - |b|..] == b
  }

  lemma EndsWithTrans(a: seq<Notification>, b: seq<Notification>, c: seq<Notification>)
    requires EndsWith(a, b) && EndsWith(b, c)
    ensures EndsWith(a, c)
  {
    assert a[|a| - |b|..][|b| - |c|..] == a[|a| - |c|..];
  }

  lemma EndsWithMembers(a: seq<Notification>, b: seq<Notification>)
    requires EndsWith(a, b)
    ensures forall n :: n in b ==> n in a
  {
  }

  /** What is on its way only becomes less. */
  ghost predicate Fades(l: Local, m: Local, o: Observer) {
    EndsWith(Due(l, o), Due(m, o)) && DirectDue(m.stack, o) <= DirectDue(l.stack, o)
  }

  lemma {:induction false} AddressedAbsent(observers: map<Observer, Sequence>, order: seq<Observer>, n: Notification,
                                           skip: Option<Sequence>, q: Sequence, o: Observer)
    requires (forall p :: p in order ==> p in observers) && o !in order
    ensures Queued(Addressed(observers, order, n, skip, q), o) == []
  {
    if order != [] {
      AddressedAbsent(observers, order[1..], n, skip, q, o);
      var rest := Addressed(observers, order[1..], n, skip, q);
      assert ([Task(order[0], n)] + rest)[1..] == rest;
    }
  }

  lemma {:induction false} WaitingAbsent(rest: seq<Observer>, n: Notification, o: Observer)
    requires o !in rest
    ensures Waiting(rest, n, o) == multiset{}
  {
    if rest != [] {
      WaitingAbsent(rest[1..], n, o);
    }
  }

  lemma FadesByLocal(s: State, e: Event, o: Observer)
    requires Valid(s) && o !in s.observers && IsLocal(e) && Enabled(s, e)
    ensures Fades(At(s.locals, e.q), LocalStep(s, At(s.locals, e.q), e), o)
  {
    var l := At(s.locals, e.q);
    assert LocalOk(s.observers, e.q, l);
    DueFades(s, e, l, o);
    DirectFades(s, e, l, o);
  }

  lemma DueFades(s: State, e: Event, l: Local, o: Observer)
    requires o !in s.observers && IsLocal(e) && Enabled(s, e) && l == At(s.locals, e.q) && Shape(l.stack)
    ensures EndsWith(Due(l, o), Due(LocalStep(s, l, e), o))
  {
    if e.Dequeue? {
      assert l.queue == [l.queue[0]] + l.queue[1..];
      assert Due(LocalStep(s, l, e), o) == Due(l, o);
    } else {
      var m := LocalStep(s, l, e);
      assert |l.stack| > 1 ==> !l.stack[1].Entered? && !l.stack[1].Found?;
      assert m.queue == l.queue;
      assert InFlight(m.stack, o) == [] || InFlight(m.stack, o) == InFlight(l.stack, o);
    }
  }

  lemma DirectFades(s: State, e: Event, l: Local, o: Observer)
    requires o !in s.observers && IsLocal(e) && Enabled(s, e) && l == At(s.locals, e.q)
    ensures DirectDue(LocalStep(s, l, e).stack, o) <= DirectDue(l.stack, o)
  {
    if e.Dequeue? || e.EnterForeign? {
      DirectPushed(s, e, l, o);
    } else if e.Invoke? {
      DirectInvoked(s, e, l, o);
    } else if e.NextDirect? {
      DirectNext(s, e, l, o);
    } else if e.Lookup? {
      assert l.stack == [l.stack[0]] + l.stack[1..];
      LookupDue(l.stack[0], l.stack[1..], o);
      DirectCons(l.stack[0], l.stack[1..], o);
    } else {
      DirectKept(s, e, l, o);
    }
  }

  /** Posting loops pass over an observer that is not registered. */
  lemma FadesByNotify(s: State, e: Event, o: Observer, q: Sequence)
    requires o !in s.observers && (e.Notify? || e.NotifySync?) && Enabled(s, e)
    ensures Fades(At(s.locals, q), At(Step(s, e).locals, q), o)
  {
    var l, skip := At(s.locals, q), if e.Notify? then None else Some(e.q);
    var ls := PostAll(s.locals, s.observers, e.order, e.n, skip);
    PostAllStack(s.locals, s.observers, e.order, e.n, skip, q);
    AddressedAbsent(s.observers, e.order, e.n, skip, q, o);
    QueuedConcat(l.queue, Addressed(s.observers, e.order, e.n, skip, q), o);
    assert Queued(l.queue, o) + [] == Queued(l.queue, o);
    assert Due(At(ls, q), o) == Due(l, o);
    if e.NotifySync? {
      var loop := Direct(On(s.observers, e.order, e.q), e.n);
      PostAllStack(s.locals, s.observers, e.order, e.n, skip, e.q);
      PushDirect(ls, e.q, loop, q, o);
      PushCounts(ls, e.q, loop, q, o);
      OnMembers(s.observers, e.order, e.q);
      WaitingAbsent(On(s.observers, e.order, e.q), e.n, o);
    }
  }

  lemma FadesByStep(s: State, e: Event, o: Observer, q: Sequence)
    requires Valid(s) && o !in s.observers && Enabled(s, e) && !(e.Add? && e.o == o)
    ensures o !in Step(s, e).observers && Fades(At(s.locals, q), At(Step(s, e).locals, q), o)
  {
    if IsLocal(e) {
      if e.q == q {
        FadesByLocal(s, e, o);
      } else {
        FadesNot(At(s.locals, q), o);
      }
    } else if e.Notify? || e.NotifySync? {
      FadesByNotify(s, e, o, q);
    } else if e.Add? {
      FadesByAdd(s, e.q, e.o, o, q);
    } else {
      FadesNot(At(s.locals, q), o);
    }
  }

  lemma FadesNot(l: Local, o: Observer)
    ensures Fades(l, l, o)
  {
  }

  lemma FadesByAdd(s: State, p: Sequence, other: Observer, o: Observer, q: Sequence)
    requires other != o
    ensures Fades(At(s.locals, q), At(AddObserver(s, p, other).locals, q), o)
  {
    var l, m := At(s.locals, q), At(AddObserver(s, p, other).locals, q);
    if m != l {
      QueuedConcat(l.queue, [Task(other, l.current.value)], o);
      assert Queued(l.queue, o) + [] == Queued(l.queue, o);
      assert Due(m, o) == Due(l, o);
    }
    FadesNot(l, o);
  }

  lemma {:induction false} FadesByRun(s: State, es: seq<Event>, o: Observer, q: Sequence)
    requires Valid(s) && o !in s.observers && RunOk(s, es) && forall e :: e in es ==> !(e.Add? && e.o == o)
    ensures Fades(At(s.locals, q), At(Run(s, es).locals, q), o)
    decreases |es|
  {
    if es != [] {
      var t := Step(s, es[0]);
      assert es[0] in es;
      StepKeepsValid(s, es[0]);
      FadesByStep(s, es[0], o, q);
      assert forall e :: e in es[1..] ==> e in es;
      FadesByRun(t, es[1..], o, q);
      EndsWithTrans(Due(At(s.locals, q), o), Due(At(t.locals, q), o), Due(At(Run(t, es[1..]).locals, q), o));
    }
  }

  // ---------------------------------------------------------------- removed and added again

  lemma {:induction false} QueuedKnown(queue: seq<Task>, issued: set<Notification>, o: Observer)
    requires forall t :: t in queue ==> t.notification in issued
    ensures forall n :: n in Queued(queue, o) ==> n in issued
  {
    if queue != [] {
      assert queue[0] in queue;
      assert forall t :: t in queue[1..] ==> t in queue;
      QueuedKnown(queue[1..], issued, o);
    }
  }

  lemma {:induction false} WaitingKnown(rest: seq<Observer>, n: Notification, o: Observer)
    ensures forall m :: m in Waiting(rest, n, o) ==> m == n
  {
    if rest != [] {
      WaitingKnown(rest[1..], n, o);
    }
  }

  lemma {:induction false} DirectKnown(stack: seq<Frame>, issued: set<Notification>, o: Observer)
    requires forall f :: f in stack ==> FrameKnown(issued, f)
    ensures forall n :: n in DirectDue(stack, o) ==> n in issued
  {
    if stack != [] {
      assert stack[0] in stack;
      assert forall f :: f in stack[1..] ==> f in stack;
      DirectKnown(stack[1..], issued, o);
      if stack[0].Direct? {
        WaitingKnown(stack[0].rest, stack[0].notification, o);
      }
    }
  }

  lemma PendingKnown(s: State, q: Sequence, o: Observer)
    requires Known(s)
    ensures forall n :: n in Due(At(s.locals, q), o) ==> n in s.issued
    ensures forall n :: n in DirectDue(At(s.locals, q).stack, o) ==> n in s.issued
  {
    var l := At(s.locals, q);
    assert LocalKnown(s.issued, l);
    QueuedKnown(l.queue, s.issued, o);
    DirectKnown(l.stack, s.issued, o);
    assert l.stack != [] ==> l.stack[0] in l.stack;
  }

  lemma {:induction false} IssuedGrows(s: State, es: seq<Event>)
    requires RunOk(s, es)
    ensures s.issued <= Run(s, es).issued
    decreases |es|
  {
    if es != [] {
      IssuedGrows(Step(s, es[0]), es[1..]);
    }
  }

  /** Removed in `s`, not added during `es`: the state in which it can be added again. */
  ghost predicate RemovedDuring(s: State, p: Sequence, o: Observer, es: seq<Event>) {
    && o in s.observers
    && Enabled(s, Remove(p, o))
    && RunOk(Step(s, Remove(p, o)), es)
    && (forall e :: e in es ==> !(e.Add? && e.o == o))
  }

  ghost function Gap(s: State, p: Sequence, o: Observer, es: seq<Event>): State
    requires RemovedDuring(s, p, o, es)
  {
    Run(Step(s, Remove(p, o)), es)
  }

  /** What is on its way to an observer when it is added again was on its way when it was removed. */
  lemma LeftOver(s: State, p: Sequence, o: Observer, es: seq<Event>, q: Sequence)
    requires Valid(s) && Known(s) && RemovedDuring(s, p, o, es)
    ensures var v := Gap(s, p, o, es);
            && Fades(At(s.locals, q), At(v.locals, q), o)
            && (forall n :: n in Due(At(v.locals, q), o) ==> n in s.issued)
            && (forall n :: n in DirectDue(At(v.locals, q).stack, o) ==> n in s.issued)
            && Valid(v) && s.issued <= v.issued
  {
    var u := Step(s, Remove(p, o));
    StepKeepsValid(s, Remove(p, o));
    FadesByRun(u, es, o, q);
    RunIsValid(u, es);
    IssuedGrows(u, es);
    PendingKnown(s, q, o);
    EndsWithMembers(Due(At(s.locals, q), o), Due(At(Run(u, es).locals, q), o));
  }

  /** Remove, any events, add, and keep until nothing is on its way. After the addition the observer is
      called for what AddObserver posts, for what is issued from then on, and for what is left over from
      its earlier registration; the latter is nothing if and only if nothing was on its way to it, in
      the queue or in a loop of NotifySynchronously, when it was added. */
  lemma AddedAfterRemoval(s: State, p: Sequence, o: Observer, es: seq<Event>, q: Sequence, fs: seq<Event>)
    requires Valid(s) && Known(s) && RemovedDuring(s, p, o, es) && AddedAndKept(Gap(s, p, o, es), q, o, fs)
    ensures var v := Gap(s, p, o, es);
            && Fades(At(s.locals, q), At(v.locals, q), o)
            && v.log <= End(v, q, o, fs).log
            && (multiset(AllStarts(NewLog(v, End(v, q, o, fs)), o)) == multiset(Caught(v, q)) + multiset(AllIssued(fs))
                <==> Drained(At(v.locals, q), o))
  {
    var v := Gap(s, p, o, es);
    var l := At(v.locals, q);
    LeftOver(s, p, o, es, q);
    AddedObserverCalls(v, q, o, fs);
    NothingMore(multiset(Due(l, o)), DirectDue(l.stack, o), multiset(Caught(v, q)), multiset(AllIssued(fs)));
    assert multiset(Due(l, o)) == multiset{} <==> Due(l, o) == [] by {
      assert |multiset(Due(l, o))| == |Due(l, o)|;
    }
  }

  lemma NothingMore(a: multiset<Notification>, b: multiset<Notification>,
                    c: multiset<Notification>, d: multiset<Notification>)
    ensures a + b + c + d == c + d <==> a == multiset{} && b == multiset{}
  {
    if a + b + c + d == c + d {
      forall n ensures a[n] == 0 && b[n] == 0 {
        assert (a + b + c + d)[n] == (c + d)[n];
      }
    }
  }

  /** When the documented abort holds: after the addition no callback starts for a notification issued
      before the removal, if and only if nothing was left over and the addition was not made inside the
      callback of such a notification under ALL. */
  lemma AbortedIff(s: State, p: Sequence, o: Observer, es: seq<Event>, q: Sequence, fs: seq<Event>)
    requires Valid(s) && Known(s) && RemovedDuring(s, p, o, es) && AddedAndKept(Gap(s, p, o, es), q, o, fs)
    ensures var v := Gap(s, p, o, es);
            && v.log <= End(v, q, o, fs).log
            && ((forall n :: n in AllStarts(NewLog(v, End(v, q, o, fs)), o) ==> n !in s.issued)
                <==> Drained(At(v.locals, q), o) && forall n :: n in Caught(v, q) ==> n !in s.issued)
  {
    var v := Gap(s, p, o, es);
    var l := At(v.locals, q);
    LeftOver(s, p, o, es, q);
    AddedObserverCalls(v, q, o, fs);
    AllIssuedOnce(Step(v, Add(q, o)), fs);
    var starts := AllStarts(NewLog(v, End(v, q, o, fs)), o);
    OldAmong(starts, Due(l, o), DirectDue(l.stack, o), Caught(v, q), AllIssued(fs), s.issued);
  }

  /** Of these starts the first two kinds are old and the last one is not. */
  lemma OldAmong(starts: seq<Notification>, a: seq<Notification>, b: multiset<Notification>,
                 c: seq<Notification>, d: seq<Notification>, issued: set<Notification>)
    requires multiset(starts) == multiset(a) + b + multiset(c) + multiset(d)
    requires (forall n :: n in a ==> n in issued) && (forall n :: n in b ==> n in issued)
    requires forall n :: n in d ==> n !in issued
    ensures (forall n :: n in starts ==> n !in issued)
            <==> a == [] && b == multiset{} && forall n :: n in c ==> n !in issued
  {
    assert forall n :: n in starts <==> n in multiset(starts);
    assert forall n :: n in starts <==> n in a || n in b || n in c || n in d;
    if a != [] {
      assert a[0] in a;
    } else if b != multiset{} {
      var n :| n in b;
    }
  }
}
