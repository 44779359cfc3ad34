/**
 Who is notified of what, and in which order, over whole runs of the thread-safe observer list.
 The central result is a conservation law: for an observer that stays registered, the callbacks
 started so far followed by the notifications on their way are those of the beginning followed by
 those sent since, as sequences.
 */
module ThreadSafeDelivery {
  import opened Common
  import opened Sequences
  import opened ThreadSafeSpec

  /** The notifications whose callback for `o` was started, through the queue or directly. */
  function Starts(log: seq<Start>, o: Observer, direct: bool): seq<Notification> {
    if log == [] then []
    else if log[0].task.observer == o && log[0].direct == direct then
      [log[0].task.notification] + Starts(log[1..], o, direct)
    else Starts(log[1..], o, direct)
  }

  function Queued(queue: seq<Task>, o: Observer): seq<Notification> {
    if queue == [] then []
    else if queue[0].observer == o then [queue[0].notification] + Queued(queue[1..], o)
    else Queued(queue[1..], o)
  }

  /** A wrapper for `o` taken from the queue whose callback has not started yet. */
  function InFlight(stack: seq<Frame>, o: Observer): seq<Notification> {
    if stack != [] && (stack[0].Entered? || stack[0].Found?) && !stack[0].direct && stack[0].task.observer == o
    then [stack[0].task.notification] else []
  }

  function Due(l: Local, o: Observer): seq<Notification> {
    InFlight(l.stack, o) + Queued(l.queue, o)
  }

  function Started(s: State, o: Observer): seq<Notification> {
    Starts(s.log, o, false)
  }

  /** What has been started for `o`, then what is on its way to it on `q`. */
  function Ledger(s: State, q: Sequence, o: Observer): seq<Notification> {
    Started(s, o) + Due(At(s.locals, q), o)
  }

  /** What an event posts to an observer registered on `q`. */
  function SentBy(e: Event, q: Sequence): seq<Notification> {
    match e
    case Notify(n, _) => [n]
    case NotifySync(p, n, _) => if p == q then [] else [n]
    case _ => []
  }

  function Sent(es: seq<Event>, q: Sequence): seq<Notification> {
    if es == [] then [] else SentBy(es[0], q) + Sent(es[1..], q)
  }

  predicate Removes(e: Event, o: Observer) {
    e.Remove? && e.o == o
  }

  // ---------------------------------------------------------------- sequences

  lemma {:induction false} StartsConcat(a: seq<Start>, b: seq<Start>, o: Observer, direct: bool)
    ensures Starts(a + b, o, direct) == Starts(a, o, direct) + Starts(b, o, direct)
  {
    if a == [] {
      assert a + b == b;
    } else {
      ConsConcat(a, b);
      StartsConcat(a[1..], b, o, direct);
      Assoc([a[0].task.notification], Starts(a[1..], o, direct), Starts(b, o, direct));
    }
  }

  lemma {:induction false} QueuedConcat(a: seq<Task>, b: seq<Task>, o: Observer)
    ensures Queued(a + b, o) == Queued(a, o) + Queued(b, o)
  {
    if a == [] {
      assert a + b == b;
    } else {
      ConsConcat(a, b);
      QueuedConcat(a[1..], b, o);
      Assoc([a[0].notification], Queued(a[1..], o), Queued(b, o));
    }
  }

  /** A posting loop posts exactly one task for each observer it does not skip. */
  lemma {:induction false} AddressedOnce(observers: map<Observer, Sequence>, order: seq<Observer>, n: Notification,
                                         skip: Option<Sequence>, o: Observer)
    requires forall p :: p in order ==> p in observers
    requires Distinct(order)
    requires o in observers
    ensures Queued(Addressed(observers, order, n, skip, observers[o]), o)
            == if o in order && skip != Some(observers[o]) then [n] else []
  {
    if order != [] {
      AddressedOnce(observers, order[1..], n, skip, o);
      var rest := Addressed(observers, order[1..], n, skip, observers[o]);
      assert ([Task(order[0], n)] + rest)[1..] == rest;
      assert order == [order[0]] + order[1..];
    }
  }

  // ---------------------------------------------------------------- the law, step by step

  /** A wrapper on its way for a registered observer is on the observer's own sequence. */
  lemma NotElsewhere(s: State, q: Sequence, o: Observer)
    requires Valid(s) && o in s.observers && s.observers[o] != q
    ensures !Expects(At(s.locals, q), o)
  {
  }

  /** A step of another sequence starts nothing for `o`. */
  lemma NotStartedElsewhere(s: State, e: Event, o: Observer, direct: bool)
    requires Valid(s) && IsLocal(e) && Enabled(s, e) && o in s.observers && s.observers[o] != e.q
    ensures Starts(LogOf(At(s.locals, e.q), e), o, direct) == []
  {
    var l := At(s.locals, e.q);
    NotElsewhere(s, e.q, o);
    if e.Invoke? {
      assert l.stack[0] in l.stack;
      assert !Awaits(l.stack[0], o);
    }
  }

  lemma PostedByLocal(s: State, e: Event, o: Observer)
    requires Valid(s) && IsLocal(e) && Enabled(s, e) && o in s.observers
    ensures Ledger(Step(s, e), s.observers[o], o) == Ledger(s, s.observers[o], o)
  {
    var q, l := s.observers[o], At(s.locals, e.q);
    StartsConcat(s.log, LogOf(l, e), o, false);
    if e.q != q {
      NotStartedElsewhere(s, e, o, false);
      assert Started(s, o) + [] == Started(s, o);
    } else {
      assert LocalOk(s.observers, q, l);
      LocalDue(s, e, l, o);
      Assoc(Started(s, o), Starts(LogOf(l, e), o, false), Due(LocalStep(s, l, e), o));
    }
  }

  lemma LocalDue(s: State, e: Event, l: Local, o: Observer)
    requires IsLocal(e) && Enabled(s, e) && l == At(s.locals, e.q) && Shape(l.stack) && o in s.observers
    ensures Starts(LogOf(l, e), o, false) + Due(LocalStep(s, l, e), o) == Due(l, o)
  {
    if e.Dequeue? {
      assert l.queue == [l.queue[0]] + l.queue[1..];
    } else {
      LocalInFlight(s, e, l, o);
      assert Due(LocalStep(s, l, e), o) == InFlight(LocalStep(s, l, e).stack, o) + Queued(l.queue, o);
      Assoc(Starts(LogOf(l, e), o, false), InFlight(LocalStep(s, l, e).stack, o), Queued(l.queue, o));
    }
  }

  /** Only a call takes a wrapper out of flight while its observer is registered. */
  lemma LocalInFlight(s: State, e: Event, l: Local, o: Observer)
    requires IsLocal(e) && !e.Dequeue? && Enabled(s, e) && l == At(s.locals, e.q) && Shape(l.stack) && o in s.observers
    ensures Starts(LogOf(l, e), o, false) + InFlight(LocalStep(s, l, e).stack, o) == InFlight(l.stack, o)
  {
    if e.Invoke? {
      assert Starts(LogOf(l, e), o, false) == InFlight(l.stack, o);
    } else {
      assert Starts(LogOf(l, e), o, false) == [];
      StaysInFlight(s, e, l, o);
    }
  }

  lemma StaysInFlight(s: State, e: Event, l: Local, o: Observer)
    requires IsLocal(e) && !e.Dequeue? && !e.Invoke? && Enabled(s, e) && l == At(s.locals, e.q)
    requires Shape(l.stack) && o in s.observers
    ensures InFlight(LocalStep(s, l, e).stack, o) == InFlight(l.stack, o)
  {
    assert |l.stack| > 1 ==> !l.stack[1].Entered? && !l.stack[1].Found?;
  }

  lemma PostedByLoop(s: State, order: seq<Observer>, n: Notification, skip: Option<Sequence>, o: Observer)
    requires Enumerates(s.observers, order) && o in s.observers
    ensures var q := s.observers[o];
            Due(At(PostAll(s.locals, s.observers, order, n, skip), q), o)
            == Due(At(s.locals, q), o) + if skip == Some(q) then [] else [n]
  {
    var q := s.observers[o];
    var l := At(s.locals, q);
    PostAllStack(s.locals, s.observers, order, n, skip, q);
    AddressedOnce(s.observers, order, n, skip, o);
    QueuedConcat(l.queue, Addressed(s.observers, order, n, skip, q), o);
    Assoc(InFlight(l.stack, o), Queued(l.queue, o), if skip == Some(q) then [] else [n]);
  }

  /** The loop of NotifySynchronously is pushed where nothing is in flight. */
  lemma PushDirect(ls: map<Sequence, Local>, p: Sequence, f: Frame, q: Sequence, o: Observer)
    requires ClientCode(At(ls, p)) && f.Direct?
    ensures Due(At(Push(ls, p, f), q), o) == Due(At(ls, q), o)
  {
  }

  lemma PostedByNotify(s: State, e: Event, o: Observer)
    requires Enabled(s, e) && (e.Notify? || e.NotifySync?) && o in s.observers
    ensures var q := s.observers[o];
            Due(At(Step(s, e).locals, q), o) == Due(At(s.locals, q), o) + SentBy(e, q)
  {
    match e
    case Notify(n, order) => PostedByLoop(s, order, n, None, o);
    case NotifySync(p, n, order) =>
      PostedByLoop(s, order, n, Some(p), o);
      PostAllStack(s.locals, s.observers, order, n, Some(p), p);
      var ls, loop := PostAll(s.locals, s.observers, order, n, Some(p)), Direct(On(s.observers, order, p), n);
      PushDirect(ls, p, loop, s.observers[o], o);
  }

  lemma PostedByAdd(s: State, p: Sequence, other: Observer, o: Observer)
    requires Enabled(s, Add(p, other)) && o in s.observers
    ensures var q := s.observers[o];
            Due(At(AddObserver(s, p, other).locals, q), o) == Due(At(s.locals, q), o)
  {
    var l := At(s.locals, p);
    if l.current.Some? {
      QueuedConcat(l.queue, [Task(other, l.current.value)], o);
    }
  }

  lemma PostedStep(s: State, e: Event, o: Observer)
    requires Valid(s) && Enabled(s, e) && o in s.observers && !Removes(e, o)
    ensures var t, q := Step(s, e), s.observers[o];
            && o in t.observers && t.observers[o] == q
            && Ledger(t, q, o) == Ledger(s, q, o) + SentBy(e, q)
  {
    var q := s.observers[o];
    match e
    case Add(p, other) => PostedByAdd(s, p, other, o);
    case Remove(_, _) =>
    case Notify(_, _) =>
      PostedByNotify(s, e, o);
      Assoc(Started(s, o), Due(At(s.locals, q), o), SentBy(e, q));
    case NotifySync(_, _, _) =>
      PostedByNotify(s, e, o);
      Assoc(Started(s, o), Due(At(s.locals, q), o), SentBy(e, q));
    case _ => PostedByLocal(s, e, o);
  }

  /** Conservation over any run in which `o` stays registered. */
  lemma {:induction false} PostedLaw(s: State, es: seq<Event>, o: Observer)
    requires Valid(s) && RunOk(s, es) && o in s.observers && forall e :: e in es ==> !Removes(e, o)
    ensures var t, q := Run(s, es), s.observers[o];
            && Valid(t) && o in t.observers && t.observers[o] == q
            && Ledger(t, q, o) == Ledger(s, q, o) + Sent(es, q)
    decreases |es|
  {
    if es != [] {
      assert es[0] in es;
      var u, q := Step(s, es[0]), s.observers[o];
      StepKeepsValid(s, es[0]);
      PostedStep(s, es[0], o);
      assert forall e :: e in es[1..] ==> e in es;
      PostedLaw(u, es[1..], o);
      Assoc(Ledger(s, q, o), SentBy(es[0], q), Sent(es[1..], q));
    }
  }

  /** Every callback for `o` in this log was started on `q`. */
  ghost predicate OnlyOnSequence(log: seq<Start>, o: Observer, q: Sequence) {
    forall x :: x in log && x.task.observer == o ==> x.where == q
  }

  /** An observer that stays registered is called on its registration sequence and nowhere else. */
  lemma {:induction false} OnOwnSequence(s: State, es: seq<Event>, o: Observer)
    requires Valid(s) && RunOk(s, es) && o in s.observers && forall e :: e in es ==> !Removes(e, o)
    requires OnlyOnSequence(s.log, o, s.observers[o])
    ensures OnlyOnSequence(Run(s, es).log, o, s.observers[o])
    decreases |es|
  {
    if es != [] {
      assert es[0] in es;
      StepKeepsValid(s, es[0]);
      PostedStep(s, es[0], o);
      StartedOnOwn(s, es[0], o);
      assert forall e :: e in es[1..] ==> e in es;
      OnOwnSequence(Step(s, es[0]), es[1..], o);
    }
  }

  lemma StartedOnOwn(s: State, e: Event, o: Observer)
    requires Valid(s) && Enabled(s, e) && o in s.observers && OnlyOnSequence(s.log, o, s.observers[o])
    ensures OnlyOnSequence(Step(s, e).log, o, s.observers[o])
  {
    if e.Invoke? {
      var l := At(s.locals, e.q);
      assert l.stack[0] in l.stack && Awaits(l.stack[0], l.stack[0].task.observer);
      if s.observers[o] != e.q {
        NotElsewhere(s, e.q, o);
      }
    }
  }

  // ---------------------------------------------------------------- every Notify, once, in one order

  function Plain(ns: seq<Notification>): seq<Notification> {
    if ns == [] then [] else if ns[0].sync then Plain(ns[1..]) else [ns[0]] + Plain(ns[1..])
  }

  /** The notifications issued by Notify, in the order of the calls. */
  function Issued(es: seq<Event>): seq<Notification> {
    if es == [] then [] else if es[0].Notify? then [es[0].n] + Issued(es[1..]) else Issued(es[1..])
  }

  lemma {:induction false} PlainConcat(a: seq<Notification>, b: seq<Notification>)
    ensures Plain(a + b) == Plain(a) + Plain(b)
  {
    if a == [] {
      assert a + b == b;
    } else {
      ConsConcat(a, b);
      PlainConcat(a[1..], b);
      Assoc([a[0]], Plain(a[1..]), Plain(b));
    }
  }

  lemma {:induction false} SentIsIssued(s: State, es: seq<Event>, q: Sequence)
    requires RunOk(s, es)
    ensures Plain(Sent(es, q)) == Issued(es)
    decreases |es|
  {
    if es != [] {
      SentIsIssued(Step(s, es[0]), es[1..], q);
      PlainConcat(SentBy(es[0], q), Sent(es[1..], q));
    }
  }

  /** Notifications are never issued twice. */
  lemma {:induction false} SentOnce(s: State, es: seq<Event>, q: Sequence)
    requires RunOk(s, es)
    ensures forall n :: n in Sent(es, q) ==> n !in s.issued
    ensures Distinct(Sent(es, q))
    decreases |es|
  {
    if es != [] {
      SentOnce(Step(s, es[0]), es[1..], q);
    }
  }

  /** The callbacks started between `s` and `t`. */
  function NewLog(s: State, t: State): seq<Start>
    requires s.log <= t.log
  {
    t.log[|s.log|..]
  }

  /** The log is only appended to. */
  lemma {:induction false} LogGrows(s: State, es: seq<Event>)
    requires RunOk(s, es)
    ensures s.log <= Run(s, es).log
    decreases |es|
  {
    if es != [] {
      LogGrows(Step(s, es[0]), es[1..]);
    }
  }

  /** If nothing was on its way to `o` at first and its queue has been served at the end, `o` was
      called through the queue for exactly the notifications sent to it, each once and in order. */
  lemma DeliveredExactly(s: State, es: seq<Event>, o: Observer)
    requires Valid(s) && RunOk(s, es) && o in s.observers && forall e :: e in es ==> !Removes(e, o)
    requires Due(At(s.locals, s.observers[o]), o) == []
    requires Due(At(Run(s, es).locals, s.observers[o]), o) == []
    ensures s.log <= Run(s, es).log
    ensures var starts := Starts(NewLog(s, Run(s, es)), o, false);
            && starts == Sent(es, s.observers[o])
            && Plain(starts) == Issued(es)
            && Distinct(starts)
  {
    var t, q := Run(s, es), s.observers[o];
    LogGrows(s, es);
    PostedLaw(s, es, o);
    NewDue(s, t, q, o, Sent(es, q));
    SentIsIssued(s, es, q);
    SentOnce(s, es, q);
  }

  /** What is new in the log is what was due and what was added to the ledger. */
  lemma NewDue(s: State, t: State, q: Sequence, o: Observer, more: seq<Notification>)
    requires s.log <= t.log && Ledger(t, q, o) == Ledger(s, q, o) + more && Due(At(t.locals, q), o) == []
    ensures Starts(NewLog(s, t), o, false) == Due(At(s.locals, q), o) + more
  {
    var before, started := Started(s, o), Starts(NewLog(s, t), o, false);
    assert t.log == s.log + NewLog(s, t);
    StartsConcat(s.log, NewLog(s, t), o, false);
    assert before + started + [] == before + started;
    Assoc(before, Due(At(s.locals, q), o), more);
    CancelPrefix(before, started, Due(At(s.locals, q), o) + more);
  }

  /** Two observers that stay registered, on the same sequence or not, start the notifications
      issued by Notify in the same order: the order in which the calls took the lock. */
  lemma SameOrder(s: State, es: seq<Event>, a: Observer, b: Observer)
    requires Valid(s) && RunOk(s, es) && a in s.observers && b in s.observers
    requires forall e :: e in es ==> !Removes(e, a) && !Removes(e, b)
    requires Due(At(s.locals, s.observers[a]), a) == [] && Due(At(s.locals, s.observers[b]), b) == []
    requires var t := Run(s, es);
             Due(At(t.locals, s.observers[a]), a) == [] && Due(At(t.locals, s.observers[b]), b) == []
    ensures s.log <= Run(s, es).log
    ensures var started := NewLog(s, Run(s, es));
            Plain(Starts(started, a, false)) == Plain(Starts(started, b, false)) == Issued(es)
  {
    DeliveredExactly(s, es, a);
    DeliveredExactly(s, es, b);
  }

  // ---------------------------------------------------------------- synchronous calls

  /** The direct calls for `o` that the loops on this stack have still to make. */
  function DirectDue(stack: seq<Frame>, o: Observer): multiset<Notification> {
    if stack == [] then multiset{}
    else DirectIn(stack[0], o) + DirectDue(stack[1..], o)
  }

  function DirectIn(f: Frame, o: Observer): multiset<Notification> {
    match f
    case Entered(t, direct) => if direct && t.observer == o then multiset{t.notification} else multiset{}
    case Found(t, direct) => if direct && t.observer == o then multiset{t.notification} else multiset{}
    case Direct(rest, n) => Waiting(rest, n, o)
    case _ => multiset{}
  }

  function Waiting(rest: seq<Observer>, n: Notification, o: Observer): multiset<Notification> {
    if rest == [] then multiset{}
    else if rest[0] == o then multiset{n} + Waiting(rest[1..], n, o)
    else Waiting(rest[1..], n, o)
  }

  function DirectBy(e: Event, q: Sequence): multiset<Notification> {
    if e.NotifySync? && e.q == q then multiset{e.n} else multiset{}
  }

  function DirectSent(es: seq<Event>, q: Sequence): multiset<Notification> {
    if es == [] then multiset{} else DirectBy(es[0], q) + DirectSent(es[1..], q)
  }

  lemma DirectCons(f: Frame, below: seq<Frame>, o: Observer)
    ensures DirectDue([f] + below, o) == DirectIn(f, o) + DirectDue(below, o)
  {
    assert ([f] + below)[1..] == below;
  }

  lemma DirectLocal(s: State, e: Event, l: Local, o: Observer)
    requires IsLocal(e) && Enabled(s, e) && l == At(s.locals, e.q) && o in s.observers
    ensures multiset(Starts(LogOf(l, e), o, true)) + DirectDue(LocalStep(s, l, e).stack, o) == DirectDue(l.stack, o)
  {
    if e.Invoke? {
      DirectInvoked(s, e, l, o);
    } else {
      assert Starts(LogOf(l, e), o, true) == [];
      DirectUncalled(s, e, l, o);
    }
  }

  /** Without a call, the direct calls that are due stay due. */
  lemma DirectUncalled(s: State, e: Event, l: Local, o: Observer)
    requires IsLocal(e) && !e.Invoke? && Enabled(s, e) && l == At(s.locals, e.q) && o in s.observers
    ensures DirectDue(LocalStep(s, l, e).stack, o) == DirectDue(l.stack, o)
  {
    if e.Dequeue? || e.EnterForeign? {
      DirectPushed(s, e, l, o);
    } else if e.NextDirect? {
      DirectNext(s, e, l, o);
    } else if e.Lookup? {
      DirectLookup(s, e, l, o);
    } else {
      DirectKept(s, e, l, o);
    }
  }

  lemma DirectPushed(s: State, e: Event, l: Local, o: Observer)
    requires (e.Dequeue? || e.EnterForeign?) && Enabled(s, e) && l == At(s.locals, e.q)
    ensures DirectDue(LocalStep(s, l, e).stack, o) == DirectDue(l.stack, o)
  {
    var top := LocalStep(s, l, e).stack[0];
    assert LocalStep(s, l, e).stack == [top] + l.stack;
    DirectCons(top, l.stack, o);
  }

  lemma DirectInvoked(s: State, e: Event, l: Local, o: Observer)
    requires e.Invoke? && Enabled(s, e) && l == At(s.locals, e.q)
    ensures multiset(Starts(LogOf(l, e), o, true)) + DirectDue(LocalStep(s, l, e).stack, o) == DirectDue(l.stack, o)
  {
    var top, below := l.stack[0], l.stack[1..];
    assert l.stack == [top] + below;
    DirectCons(top, below, o);
    DirectCons(Calling(top.task, top.direct, l.current), below, o);
    assert Starts(LogOf(l, e), o, true) == if top.direct && top.task.observer == o then [top.task.notification] else [];
  }

  lemma DirectKept(s: State, e: Event, l: Local, o: Observer)
    requires (e.Return? || e.LeaveForeign?) && Enabled(s, e) && l == At(s.locals, e.q)
    ensures DirectDue(LocalStep(s, l, e).stack, o) == DirectDue(l.stack, o)
  {
    assert l.stack == [l.stack[0]] + l.stack[1..];
    DirectCons(l.stack[0], l.stack[1..], o);
  }

  lemma DirectNext(s: State, e: Event, l: Local, o: Observer)
    requires e.NextDirect? && Enabled(s, e) && l == At(s.locals, e.q)
    ensures DirectDue(LocalStep(s, l, e).stack, o) == DirectDue(l.stack, o)
  {
    assert l.stack == [l.stack[0]] + l.stack[1..];
    NextDirectDue(l.stack[0].rest, l.stack[0].notification, l.stack[1..], o);
  }

  lemma DirectLookup(s: State, e: Event, l: Local, o: Observer)
    requires e.Lookup? && Enabled(s, e) && l == At(s.locals, e.q) && o in s.observers
    ensures DirectDue(LocalStep(s, l, e).stack, o) == DirectDue(l.stack, o)
  {
    assert l.stack == [l.stack[0]] + l.stack[1..];
    LookupDue(l.stack[0], l.stack[1..], o);
  }

  lemma LookupDue(top: Frame, below: seq<Frame>, o: Observer)
    requires top.Entered?
    ensures DirectDue([Found(top.task, top.direct)] + below, o) == DirectDue([top] + below, o)
    ensures top.task.observer != o ==> DirectDue([top] + below, o) == DirectDue(below, o)
  {
    DirectCons(top, below, o);
    DirectCons(Found(top.task, top.direct), below, o);
  }

  lemma NextDirectDue(rest: seq<Observer>, n: Notification, below: seq<Frame>, o: Observer)
    ensures DirectDue([Direct(rest, n)] + below, o)
            == if rest == [] then DirectDue(below, o)
               else DirectDue([Entered(Task(rest[0], n), true), Direct(rest[1..], n)] + below, o)
  {
    DirectCons(Direct(rest, n), below, o);
    if rest != [] {
      var a, b := Entered(Task(rest[0], n), true), Direct(rest[1..], n);
      assert [a, b] + below == [a] + ([b] + below);
      DirectCons(a, [b] + below, o);
      DirectCons(b, below, o);
    }
  }

  /** Each observer of the sequence is collected once. */
  lemma {:induction false} OnOnce(observers: map<Observer, Sequence>, order: seq<Observer>, n: Notification,
                                  o: Observer)
    requires forall p :: p in order ==> p in observers
    requires Distinct(order)
    requires o in observers
    ensures Waiting(On(observers, order, observers[o]), n, o) == if o in order then multiset{n} else multiset{}
  {
    if order != [] {
      OnOnce(observers, order[1..], n, o);
      assert order == [order[0]] + order[1..];
      var rest := On(observers, order[1..], observers[o]);
      assert ([order[0]] + rest)[1..] == rest;
    }
  }

  function DirectLedger(s: State, q: Sequence, o: Observer): multiset<Notification> {
    multiset(Starts(s.log, o, true)) + DirectDue(At(s.locals, q).stack, o)
  }

  lemma PushCounts(ls: map<Sequence, Local>, p: Sequence, f: Frame, q: Sequence, o: Observer)
    ensures DirectDue(At(Push(ls, p, f), q).stack, o)
            == DirectDue(At(ls, q).stack, o) + if p == q then DirectIn(f, o) else multiset{}
  {
    DirectCons(f, At(ls, q).stack, o);
  }

  lemma DirectByNotify(s: State, e: Event, o: Observer)
    requires Enabled(s, e) && (e.Notify? || e.NotifySync?) && o in s.observers
    ensures var q := s.observers[o];
            DirectDue(At(Step(s, e).locals, q).stack, o) == DirectDue(At(s.locals, q).stack, o) + DirectBy(e, q)
  {
    var q := s.observers[o];
    if e.Notify? {
      PostAllStack(s.locals, s.observers, e.order, e.n, None, q);
    } else {
      DirectBySync(s, e, o);
    }
  }

  lemma DirectBySync(s: State, e: Event, o: Observer)
    requires Enabled(s, e) && e.NotifySync? && o in s.observers
    ensures var q := s.observers[o];
            DirectDue(At(Step(s, e).locals, q).stack, o) == DirectDue(At(s.locals, q).stack, o) + DirectBy(e, q)
  {
    var p, q := e.q, s.observers[o];
    var ls := PostAll(s.locals, s.observers, e.order, e.n, Some(p));
    var loop := Direct(On(s.observers, e.order, p), e.n);
    PostAllStack(s.locals, s.observers, e.order, e.n, Some(p), q);
    assert Step(s, e).locals == Push(ls, p, loop);
    PushCounts(ls, p, loop, q, o);
    SyncLoopDue(s, e, o);
  }

  lemma SyncLoopDue(s: State, e: Event, o: Observer)
    requires Enabled(s, e) && e.NotifySync? && o in s.observers
    ensures (if e.q == s.observers[o] then DirectIn(Direct(On(s.observers, e.order, e.q), e.n), o) else multiset{})
            == DirectBy(e, s.observers[o])
  {
    OnOnce(s.observers, e.order, e.n, o);
  }

  lemma DirectByLocal(s: State, e: Event, o: Observer)
    requires Valid(s) && IsLocal(e) && Enabled(s, e) && o in s.observers
    ensures DirectLedger(Step(s, e), s.observers[o], o) == DirectLedger(s, s.observers[o], o)
  {
    var l, q := At(s.locals, e.q), s.observers[o];
    var more := Starts(LogOf(l, e), o, true);
    StartsConcat(s.log, LogOf(l, e), o, true);
    if e.q == q {
      DirectLocal(s, e, l, o);
      DirectSum(Starts(s.log, o, true), more, DirectDue(LocalStep(s, l, e).stack, o));
    } else {
      NotStartedElsewhere(s, e, o, true);
      assert Starts(s.log, o, true) + [] == Starts(s.log, o, true);
    }
  }

  lemma DirectSum(a: seq<Notification>, b: seq<Notification>, c: multiset<Notification>)
    ensures multiset(a + b) + c == multiset(a) + (multiset(b) + c)
  {
  }

  lemma DirectStep(s: State, e: Event, o: Observer)
    requires Valid(s) && Enabled(s, e) && o in s.observers && !Removes(e, o)
    ensures var t, q := Step(s, e), s.observers[o];
            && o in t.observers && t.observers[o] == q
            && DirectLedger(t, q, o) == DirectLedger(s, q, o) + DirectBy(e, q)
  {
    if IsLocal(e) {
      DirectByLocal(s, e, o);
    } else if e.Notify? || e.NotifySync? {
      DirectByNotify(s, e, o);
      var q := s.observers[o];
      DirectTotal(Starts(s.log, o, true), DirectDue(At(s.locals, q).stack, o), DirectBy(e, q));
    } else {
      DirectQuiet(s, e, o);
    }
  }

  lemma DirectTotal(a: seq<Notification>, b: multiset<Notification>, c: multiset<Notification>)
    ensures multiset(a) + (b + c) == (multiset(a) + b) + c
  {
  }

  lemma DirectQuiet(s: State, e: Event, o: Observer)
    requires Enabled(s, e) && (e.Add? || e.Remove?) && o in s.observers
    ensures DirectLedger(Step(s, e), s.observers[o], o) == DirectLedger(s, s.observers[o], o)
  {
    assert At(Step(s, e).locals, s.observers[o]).stack == At(s.locals, s.observers[o]).stack;
  }

  /** NotifySynchronously calls an observer of its own sequence that stays registered exactly once,
      however the callbacks nest: what has been called and what its loops still have to call is
      conserved. */
  lemma {:induction false} DirectLaw(s: State, es: seq<Event>, o: Observer)
    requires Valid(s) && RunOk(s, es) && o in s.observers && forall e :: e in es ==> !Removes(e, o)
    ensures var t, q := Run(s, es), s.observers[o];
            DirectLedger(t, q, o) == DirectLedger(s, q, o) + DirectSent(es, q)
    decreases |es|
  {
    if es != [] {
      assert es[0] in es;
      StepKeepsValid(s, es[0]);
      DirectStep(s, es[0], o);
      assert forall e :: e in es[1..] ==> e in es;
      DirectLaw(Step(s, es[0]), es[1..], o);
    }
  }

  /** Once the direct loops are done, what is new in the log is what they had to call. */
  lemma NewDirect(s: State, t: State, q: Sequence, o: Observer, more: multiset<Notification>)
    requires s.log <= t.log && DirectLedger(t, q, o) == DirectLedger(s, q, o) + more
    requires DirectDue(At(t.locals, q).stack, o) == multiset{}
    ensures multiset(Starts(NewLog(s, t), o, true)) == DirectDue(At(s.locals, q).stack, o) + more
  {
    var before, started := Starts(s.log, o, true), Starts(NewLog(s, t), o, true);
    assert t.log == s.log + NewLog(s, t);
    StartsConcat(s.log, NewLog(s, t), o, true);
    assert multiset(before + started) == multiset(before) + multiset(started);
    CancelSum(multiset(before), multiset(started), DirectDue(At(s.locals, q).stack, o), more);
  }

  lemma CancelSum(a: multiset<Notification>, b: multiset<Notification>,
                  c: multiset<Notification>, d: multiset<Notification>)
    requires a + b + multiset{} == a + c + d
    ensures b == c + d
  {
    forall n ensures b[n] == (c + d)[n] {
      assert (a + b + multiset{})[n] == (a + c + d)[n];
    }
  }

  /** The notifications issued by either call. */
  function AllIssued(es: seq<Event>): seq<Notification> {
    if es == [] then []
    else if es[0].Notify? || es[0].NotifySync? then [es[0].n] + AllIssued(es[1..])
    else AllIssued(es[1..])
  }

  /** Each is posted to an observer or is due directly, and not both. */
  lemma {:induction false} SentOrDirect(es: seq<Event>, q: Sequence)
    ensures multiset(Sent(es, q)) + DirectSent(es, q) == multiset(AllIssued(es))
  {
    if es != [] {
      SentOrDirect(es[1..], q);
    }
  }

  lemma {:induction false} AllIssuedOnce(s: State, es: seq<Event>)
    requires RunOk(s, es)
    ensures forall n :: n in AllIssued(es) ==> n !in s.issued
    ensures Distinct(AllIssued(es))
    decreases |es|
  {
    if es != [] {
      AllIssuedOnce(Step(s, es[0]), es[1..]);
    }
  }

  // ---------------------------------------------------------------- removal

  /** A wrapper for `o` that has found its observer and is about to call it. */
  function AboutToCall(stack: seq<Frame>, o: Observer): seq<Notification> {
    if stack != [] && stack[0].Found? && stack[0].task.observer == o then [stack[0].task.notification] else []
  }

  function AllStarts(log: seq<Start>, o: Observer): seq<Notification> {
    if log == [] then []
    else if log[0].task.observer == o then [log[0].task.notification] + AllStarts(log[1..], o)
    else AllStarts(log[1..], o)
  }

  lemma {:induction false} AllStartsConcat(a: seq<Start>, b: seq<Start>, o: Observer)
    ensures AllStarts(a + b, o) == AllStarts(a, o) + AllStarts(b, o)
  {
    if a == [] {
      assert a + b == b;
    } else {
      ConsConcat(a, b);
      AllStartsConcat(a[1..], b, o);
      Assoc([a[0].task.notification], AllStarts(a[1..], o), AllStarts(b, o));
    }
  }

  lemma {:induction false} AllStartsSplit(log: seq<Start>, o: Observer)
    ensures multiset(AllStarts(log, o)) == multiset(Starts(log, o, false)) + multiset(Starts(log, o, true))
  {
    if log != [] {
      AllStartsSplit(log[1..], o);
    }
  }

  /** An observer that stays registered is called for every notification issued meanwhile, by Notify
      or by NotifySynchronously on any sequence, exactly once in all. */
  lemma CalledOnceForEach(s: State, es: seq<Event>, o: Observer)
    requires Valid(s) && RunOk(s, es) && o in s.observers && forall e :: e in es ==> !Removes(e, o)
    requires var l := At(s.locals, s.observers[o]); Due(l, o) == [] && DirectDue(l.stack, o) == multiset{}
    requires var l := At(Run(s, es).locals, s.observers[o]); Due(l, o) == [] && DirectDue(l.stack, o) == multiset{}
    ensures s.log <= Run(s, es).log
    ensures multiset(AllStarts(NewLog(s, Run(s, es)), o)) == multiset(AllIssued(es))
    ensures Distinct(AllIssued(es))
  {
    var t, q := Run(s, es), s.observers[o];
    DeliveredExactly(s, es, o);
    DirectLaw(s, es, o);
    NewDirect(s, t, q, o, DirectSent(es, q));
    assert multiset{} + DirectSent(es, q) == DirectSent(es, q);
    AllStartsSplit(NewLog(s, t), o);
    SentOrDirect(es, q);
    AllIssuedOnce(s, es);
  }

  /** Outside `q` nobody is about to call `o`. */
  ghost predicate OnlyOn(s: State, q: Sequence, o: Observer) {
    forall p :: p in s.locals && p != q ==> AboutToCall(s.locals[p].stack, o) == []
  }

  ghost predicate Gone(s: State, q: Sequence, o: Observer) {
    && o !in s.observers
    && OnlyOn(s, q, o)
    && (forall p :: p in s.locals ==> Shape(s.locals[p].stack))
  }

  /** What was called, then what may still be called. */
  function CallLedger(s: State, q: Sequence, o: Observer): seq<Notification> {
    AllStarts(s.log, o) + AboutToCall(At(s.locals, q).stack, o)
  }

  lemma GoneLocal(s: State, e: Event, q: Sequence, o: Observer)
    requires Gone(s, q, o) && IsLocal(e) && Enabled(s, e)
    ensures AboutToCall(LocalStep(s, At(s.locals, e.q), e).stack, o)
            == if e.Invoke? then [] else AboutToCall(At(s.locals, e.q).stack, o)
    ensures AllStarts(LogOf(At(s.locals, e.q), e), o)
            == if e.Invoke? then AboutToCall(At(s.locals, e.q).stack, o) else []
  {
    var l := At(s.locals, e.q);
    assert |l.stack| > 1 ==> !l.stack[1].Found?;
  }

  lemma GoneByLocal(s: State, e: Event, q: Sequence, o: Observer)
    requires Gone(s, q, o) && IsLocal(e) && Enabled(s, e)
    ensures OnlyOn(Step(s, e), q, o) && CallLedger(Step(s, e), q, o) == CallLedger(s, q, o)
  {
    var t, more := Step(s, e), LogOf(At(s.locals, e.q), e);
    GoneLocal(s, e, q, o);
    AllStartsConcat(s.log, more, o);
    assert e.q != q ==> AllStarts(more, o) == [];
    if e.Invoke? && e.q == q {
      assert AllStarts(t.log, o) + [] == AllStarts(t.log, o);
    } else {
      assert AllStarts(s.log, o) + [] == AllStarts(s.log, o);
    }
  }

  lemma GoneByNotify(s: State, e: Event, q: Sequence, o: Observer)
    requires Gone(s, q, o) && (e.Notify? || e.NotifySync?) && Enabled(s, e)
    ensures OnlyOn(Step(s, e), q, o) && CallLedger(Step(s, e), q, o) == CallLedger(s, q, o)
  {
    var t, skip := Step(s, e), if e.Notify? then None else Some(e.q);
    forall p: Sequence ensures AboutToCall(At(t.locals, p).stack, o) == AboutToCall(At(s.locals, p).stack, o) {
      PostAllStack(s.locals, s.observers, e.order, e.n, skip, p);
    }
    forall p | p in t.locals && p != q ensures AboutToCall(t.locals[p].stack, o) == [] {
      assert AboutToCall(At(t.locals, p).stack, o) == AboutToCall(At(s.locals, p).stack, o);
    }
  }

  lemma GoneStep(s: State, e: Event, q: Sequence, o: Observer)
    requires Valid(s) && Gone(s, q, o) && Enabled(s, e) && !(e.Add? && e.o == o)
    ensures Gone(Step(s, e), q, o) && CallLedger(Step(s, e), q, o) == CallLedger(s, q, o)
  {
    var t := Step(s, e);
    StepKeepsValid(s, e);
    forall p | p in t.locals ensures Shape(t.locals[p].stack) {
      assert LocalOk(t.observers, p, t.locals[p]);
    }
    if IsLocal(e) {
      GoneByLocal(s, e, q, o);
    } else if e.Notify? || e.NotifySync? {
      GoneByNotify(s, e, q, o);
    }
  }

  lemma {:induction false} GoneLaw(s: State, es: seq<Event>, q: Sequence, o: Observer)
    requires Valid(s) && Gone(s, q, o) && RunOk(s, es) && forall e :: e in es ==> !(e.Add? && e.o == o)
    ensures CallLedger(Run(s, es), q, o) == CallLedger(s, q, o)
    decreases |es|
  {
    if es != [] {
      assert es[0] in es;
      StepKeepsValid(s, es[0]);
      GoneStep(s, es[0], q, o);
      assert forall e :: e in es[1..] ==> e in es;
      GoneLaw(Step(s, es[0]), es[1..], q, o);
    }
  }

  /** After RemoveObserver, until the observer is added again: the only callback that can still start
      is the one of a wrapper that had already found the observer on its sequence; and none at all
      if the removal was made on that sequence. */
  lemma AfterRemoval(s: State, p: Sequence, o: Observer, es: seq<Event>)
    requires Valid(s) && o in s.observers && Enabled(s, Remove(p, o))
    requires RunOk(Step(s, Remove(p, o)), es) && forall e :: e in es ==> !(e.Add? && e.o == o)
    ensures var t, q := Run(Step(s, Remove(p, o)), es), s.observers[o];
            && CallLedger(t, q, o) == CallLedger(s, q, o)
            && (p == q ==> AllStarts(t.log, o) == AllStarts(s.log, o))
  {
    var u, q := Step(s, Remove(p, o)), s.observers[o];
    StepKeepsValid(s, Remove(p, o));
    forall r | r in u.locals && r != q ensures AboutToCall(u.locals[r].stack, o) == [] {
      NotElsewhere(s, r, o);
      var stack := u.locals[r].stack;
      if stack != [] {
        assert stack[0] in stack;
        assert !Awaits(stack[0], o);
      }
    }
    forall r | r in u.locals ensures Shape(u.locals[r].stack) {
      assert LocalOk(s.observers, r, s.locals[r]);
    }
    GoneLaw(u, es, q, o);
    var t := Run(u, es);
    if p == q {
      assert CallLedger(s, q, o) == AllStarts(s.log, o);
      LogGrows(u, es);
      assert t.log == s.log + NewLog(u, t);
      AllStartsConcat(s.log, NewLog(u, t), o);
      assert |AllStarts(t.log, o)| == |AllStarts(s.log, o)|;
    }
  }

  // ---------------------------------------------------------------- the current notification

  lemma {:induction false} NestedUnique(stack: seq<Frame>, a: Option<Notification>, b: Option<Notification>)
    requires Nested(stack, a) && Nested(stack, b)
    ensures a == b
  {
    if stack != [] && !stack[0].Calling? && !stack[0].Foreign? {
      NestedUnique(stack[1..], a, b);
    }
  }

  /** When a wrapper is done and the frames below it are on top again, the thread-local pointer is
      what it was before the wrapper, whatever was run and nested in between. */
  lemma PointerRestored(s: State, es: seq<Event>, q: Sequence)
    requires Valid(s) && RunOk(s, es) && Enabled(s, Invoke(q))
    requires At(Run(s, es).locals, q).stack == At(s.locals, q).stack[1..]
    ensures At(Run(s, es).locals, q).current == At(s.locals, q).current
  {
    RunIsValid(s, es);
    assert LocalOk(s.observers, q, At(s.locals, q));
    NestedUnique(At(s.locals, q).stack[1..], At(s.locals, q).current, At(Run(s, es).locals, q).current);
  }

  predicate FrameKnown(issued: set<Notification>, f: Frame) {
    match f
    case Entered(t, _) => t.notification in issued && t.notification.list == SELF
    case Found(t, _) => t.notification in issued && t.notification.list == SELF
    case Calling(t, _, _) => t.notification in issued && t.notification.list == SELF
    case Direct(_, n) => n in issued && n.list == SELF
    case Foreign(_, _) => true
  }

  /** Every notification on its way was issued. */
  ghost predicate LocalKnown(issued: set<Notification>, l: Local) {
    && (forall t :: t in l.queue ==> t.notification in issued && t.notification.list == SELF)
    && (forall f :: f in l.stack ==> FrameKnown(issued, f))
  }

  ghost predicate Known(s: State) {
    forall q :: q in s.locals ==> LocalKnown(s.issued, s.locals[q])
  }

  lemma {:induction false} CurrentKnown(issued: set<Notification>, stack: seq<Frame>, current: Option<Notification>)
    requires Nested(stack, current) && forall f :: f in stack ==> FrameKnown(issued, f)
    ensures current.Some? && current.value.list == SELF ==> current.value in issued
  {
    if stack != [] {
      assert stack[0] in stack;
      if !stack[0].Calling? && !stack[0].Foreign? {
        assert forall f :: f in stack[1..] ==> f in stack;
        CurrentKnown(issued, stack[1..], current);
      }
    }
  }

  lemma {:induction false} AddressedKnown(observers: map<Observer, Sequence>, order: seq<Observer>, n: Notification,
                                          skip: Option<Sequence>, q: Sequence)
    requires forall o :: o in order ==> o in observers
    ensures forall t :: t in Addressed(observers, order, n, skip, q) ==> t.notification == n
  {
    if order != [] {
      AddressedKnown(observers, order[1..], n, skip, q);
    }
  }

  lemma LocalStepKnown(s: State, e: Event)
    requires Known(s) && IsLocal(e) && Enabled(s, e)
    ensures LocalKnown(s.issued, LocalStep(s, At(s.locals, e.q), e))
  {
    var l := At(s.locals, e.q);
    var m := LocalStep(s, l, e);
    assert LocalKnown(s.issued, l);
    assert l.stack != [] ==> FrameKnown(s.issued, l.stack[0]);
    forall f | f in m.stack ensures FrameKnown(s.issued, f) {
      if f !in l.stack {
        assert e.Dequeue? ==> l.queue[0] in l.queue;
      }
    }
  }

  lemma NotifyKnown(s: State, e: Event)
    requires Known(s) && Enabled(s, e) && (e.Notify? || e.NotifySync?)
    ensures Known(Step(s, e))
  {
    var ls := PostAll(s.locals, s.observers, e.order, e.n, if e.Notify? then None else Some(e.q));
    forall q: Sequence ensures LocalKnown(s.issued + {e.n}, At(ls, q)) {
      PostedKnown(s, e, q);
    }
    assert forall q :: q in ls ==> At(ls, q) == ls[q];
  }

  lemma PostedKnown(s: State, e: Event, q: Sequence)
    requires Known(s) && Enabled(s, e) && (e.Notify? || e.NotifySync?)
    ensures var skip := if e.Notify? then None else Some(e.q);
            LocalKnown(s.issued + {e.n}, At(PostAll(s.locals, s.observers, e.order, e.n, skip), q))
  {
    var skip := if e.Notify? then None else Some(e.q);
    PostAllStack(s.locals, s.observers, e.order, e.n, skip, q);
    AddressedKnown(s.observers, e.order, e.n, skip, q);
    assert LocalKnown(s.issued, At(s.locals, q));
  }

  lemma StepKeepsKnown(s: State, e: Event)
    requires Valid(s) && Known(s) && Enabled(s, e)
    ensures Known(Step(s, e))
  {
    if IsLocal(e) {
      LocalStepKnown(s, e);
    } else if e.Notify? || e.NotifySync? {
      NotifyKnown(s, e);
    } else if e.Add? {
      var l := At(s.locals, e.q);
      assert LocalOk(s.observers, e.q, l) && LocalKnown(s.issued, l);
      CurrentKnown(s.issued, l.stack, l.current);
    }
  }

  lemma {:induction false} RunIsKnown(s: State, es: seq<Event>)
    requires Valid(s) && Known(s) && RunOk(s, es)
    ensures Known(Run(s, es))
    decreases |es|
  {
    if es != [] {
      StepKeepsValid(s, es[0]);
      StepKeepsKnown(s, es[0]);
      RunIsKnown(Step(s, es[0]), es[1..]);
    }
  }

  /** The invariants of the previous lemmas hold in every reachable state. */
  lemma ReachableIsKnown(policy: Policy, es: seq<Event>)
    requires RunOk(Init(policy), es)
    ensures Valid(Run(Init(policy), es)) && Known(Run(Init(policy), es))
  {
    RunIsValid(Init(policy), es);
    RunIsKnown(Init(policy), es);
  }
}
