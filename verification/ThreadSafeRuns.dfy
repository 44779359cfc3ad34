/**
 Runs from the start in which a notification that is pending when its observer is removed is delivered
 after the observer is added again: through the queue, and by a loop of NotifySynchronously.
 */
module ThreadSafeRuns {
  import opened Common
  import opened ThreadSafeSpec

  /** `t` is where the events `es` lead from `s`. */
  ghost predicate Leads(s: State, es: seq<Event>, t: State) {
    RunOk(s, es) && Run(s, es) == t
  }

  lemma {:induction false} Then(s: State, es: seq<Event>, t: State, e: Event)
    requires Leads(s, es, t) && Enabled(t, e)
    ensures Leads(s, es + [e], Step(t, e))
    decreases |es|
  {
    if es == [] {
      assert [e][1..] == [] && es + [e] == [e];
    } else {
      assert (es + [e])[1..] == es[1..] + [e];
      Then(Step(s, es[0]), es[1..], t, e);
    }
  }

  /** A state in which only the sequence `q` has done anything and one notification was issued. */
  function Single(policy: Policy, observers: map<Observer, Sequence>, q: Sequence, l: Local, n: Notification,
                  log: seq<Start>): State
  {
    State(policy, observers, map[q := l], {n}, log)
  }

  /** A local step of that sequence, from one such state to the next. */
  lemma ThenLocally(s: State, es: seq<Event>, t: State, e: Event, l: Local, m: Local, more: seq<Start>)
    requires Leads(s, es, t) && IsLocal(e) && Enabled(t, e) && t.locals == map[e.q := l]
    requires LocalStep(t, l, e) == m && LogOf(l, e) == more
    ensures Leads(s, es + [e], t.(locals := map[e.q := m], log := t.log + more))
  {
    Then(s, es, t, e);
    assert t.locals[e.q := m] == map[e.q := m];
  }

  /** One wrapper on an otherwise idle sequence: it is taken from the queue, finds its observer and
      calls it. */
  lemma ServeQueued(s: State, es: seq<Event>, t: State, q: Sequence, task: Task)
    requires Leads(s, es, t) && t.locals == map[q := Local([task], [], None)] && task.observer in t.observers
    ensures var l := Local([], [Calling(task, false, None)], Some(task.notification));
            Leads(s, es + [Dequeue(q)] + [Lookup(q)] + [Invoke(q)],
                  t.(locals := map[q := l], log := t.log + [Start(task, false, q)]))
  {
    var l0, l1 := Local([task], [], None), Local([], [Entered(task, false)], None);
    var l2 := Local([], [Found(task, false)], None);
    var l3 := Local([], [Calling(task, false, None)], Some(task.notification));
    assert t.log + [] == t.log;
    assert [task][1..] == [] && [Entered(task, false)] + [] == [Entered(task, false)];
    ThenLocally(s, es, t, Dequeue(q), l0, l1, []);
    assert [Found(task, false)] + l1.stack[1..] == l2.stack;
    var t1 := t.(locals := map[q := l1]);
    ThenLocally(s, es + [Dequeue(q)], t1, Lookup(q), l1, l2, []);
    assert [Calling(task, false, None)] + l2.stack[1..] == l3.stack;
    var t2 := t.(locals := map[q := l2]);
    ThenLocally(s, es + [Dequeue(q)] + [Lookup(q)], t2, Invoke(q), l2, l3, [Start(task, false, q)]);
  }

  /** A run from the start, under either policy, in which a notification that was pending when its
      observer was removed is delivered after the observer is added again. */
  lemma RevivedNotification(policy: Policy, q: Sequence, o: Observer, n: Notification)
    requires n.list == SELF && !n.sync
    ensures var es := [Add(q, o), Notify(n, [o]), Remove(q, o), Add(q, o), Dequeue(q), Lookup(q), Invoke(q)];
            RunOk(Init(policy), es) && Run(Init(policy), es).log == [Start(Task(o, n), false, q)]
  {
    var s, task := Init(policy), Task(o, n);
    var l := Local([task], [], None);
    var s2, s3 := Single(policy, map[o := q], q, l, n, []), Single(policy, map[], q, l, n, []);
    var pre := [Add(q, o)] + [Notify(n, [o])];
    Pending(policy, q, o, n);
    Then(s, pre, s2, Remove(q, o));
    assert Step(s2, Remove(q, o)) == s3;
    Then(s, pre + [Remove(q, o)], s3, Add(q, o));
    assert Step(s3, Add(q, o)) == s2;
    ServeQueued(s, pre + [Remove(q, o)] + [Add(q, o)], s2, q, task);
    assert [Add(q, o), Notify(n, [o]), Remove(q, o), Add(q, o), Dequeue(q), Lookup(q), Invoke(q)]
        == pre + [Remove(q, o)] + [Add(q, o)] + [Dequeue(q)] + [Lookup(q)] + [Invoke(q)];
  }

  /** An observer is added and notified, and the wrapper for it is queued. */
  lemma Pending(policy: Policy, q: Sequence, o: Observer, n: Notification)
    requires n.list == SELF && !n.sync
    ensures Leads(Init(policy), [Add(q, o)] + [Notify(n, [o])],
                  Single(policy, map[o := q], q, Local([Task(o, n)], [], None), n, []))
  {
    var s := Init(policy);
    var s1 := s.(observers := map[o := q]);
    Then(s, [], s, Add(q, o));
    assert Step(s, Add(q, o)) == s1;
    assert [] + [Add(q, o)] == [Add(q, o)];
    PostOne(s1.observers, q, o, n);
    Then(s, [Add(q, o)], s1, Notify(n, [o]));
  }

  lemma PostOne(observers: map<Observer, Sequence>, q: Sequence, o: Observer, n: Notification)
    requires observers == map[o := q]
    ensures PostAll(map[], observers, [o], n, None) == map[q := Local([Task(o, n)], [], None)]
  {
    assert [o][1..] == [];
    assert [] + [Task(o, n)] == [Task(o, n)];
  }

  /** What happens without the assumption made of additions: an observer that is removed on `p` while a
      wrapper for it is queued there, and then added on `q`, is found by that wrapper on `p`. */
  lemma FoundOnWrongSequence(policy: Policy, p: Sequence, q: Sequence, o: Observer, n: Notification)
    requires p != q && n.list == SELF && !n.sync
    ensures var es := [Add(p, o)] + [Notify(n, [o])] + [Remove(p, o)];
            && RunOk(Init(policy), es)
            && var u := AddObserver(Run(Init(policy), es), q, o);
               && RunOk(u, [Dequeue(p)] + [Lookup(p)])
               && var v := Run(u, [Dequeue(p)] + [Lookup(p)]);
                  At(v.locals, p).stack == [Found(Task(o, n), false)] && v.observers == map[o := q]
  {
    var task := Task(o, n);
    var l0, l1 := Local([task], [], None), Local([], [Entered(task, false)], None);
    var l2 := Local([], [Found(task, false)], None);
    Pending(policy, p, o, n);
    var s2 := Single(policy, map[o := p], p, l0, n, []);
    var s3, u := s2.(observers := map[]), s2.(observers := map[o := q]);
    Then(Init(policy), [Add(p, o)] + [Notify(n, [o])], s2, Remove(p, o));
    assert Step(s2, Remove(p, o)) == s3;
    assert AddObserver(s3, q, o) == u;
    assert [task][1..] == [] && [Entered(task, false)] + [] == [Entered(task, false)];
    assert u.log + [] == u.log;
    ThenLocally(u, [], u, Dequeue(p), l0, l1, []);
    assert [Found(task, false)] + l1.stack[1..] == l2.stack;
    assert [] + [Dequeue(p)] == [Dequeue(p)];
    ThenLocally(u, [Dequeue(p)], u.(locals := map[p := l1]), Lookup(p), l1, l2, []);
  }

  // ---------------------------------------------------------------- a direct call

  /** The loop of NotifySynchronously calls its next observer. */
  lemma CallDirectly(s: State, es: seq<Event>, t: State, q: Sequence, queue: seq<Task>, x: Observer,
                     rest: seq<Observer>, n: Notification)
    requires Leads(s, es, t) && t.locals == map[q := Local(queue, [Direct([x] + rest, n)], None)] && x in t.observers
    ensures var l := Local(queue, [Calling(Task(x, n), true, None), Direct(rest, n)], Some(n));
            Leads(s, es + [NextDirect(q)] + [Lookup(q)] + [Invoke(q)],
                  t.(locals := map[q := l], log := t.log + [Start(Task(x, n), true, q)]))
  {
    var task, below := Task(x, n), [Direct(rest, n)];
    var l0, l1 := Local(queue, [Direct([x] + rest, n)], None), Local(queue, [Entered(task, true)] + below, None);
    var l2 := Local(queue, [Found(task, true)] + below, None);
    var l3 := Local(queue, [Calling(task, true, None)] + below, Some(n));
    assert t.log + [] == t.log;
    assert ([x] + rest)[1..] == rest;
    assert [Entered(task, true), Direct(rest, n)] + l0.stack[1..] == l1.stack;
    ThenLocally(s, es, t, NextDirect(q), l0, l1, []);
    assert [Found(task, true)] + l1.stack[1..] == l2.stack;
    var t1 := t.(locals := map[q := l1]);
    ThenLocally(s, es + [NextDirect(q)], t1, Lookup(q), l1, l2, []);
    assert [Calling(task, true, None)] + l2.stack[1..] == l3.stack;
    var t2 := t.(locals := map[q := l2]);
    ThenLocally(s, es + [NextDirect(q)] + [Lookup(q)], t2, Invoke(q), l2, l3, [Start(task, true, q)]);
    assert l3.stack == [Calling(task, true, None), Direct(rest, n)];
  }

  lemma ReturnDirectly(s: State, es: seq<Event>, t: State, q: Sequence, queue: seq<Task>, task: Task,
                       rest: seq<Observer>, n: Notification)
    requires Leads(s, es, t)
    requires t.locals == map[q := Local(queue, [Calling(task, true, None), Direct(rest, n)], Some(n))]
    ensures Leads(s, es + [Return(q)], t.(locals := map[q := Local(queue, [Direct(rest, n)], None)]))
  {
    var l := Local(queue, [Calling(task, true, None), Direct(rest, n)], Some(n));
    var m := Local(queue, [Direct(rest, n)], None);
    assert t.log + [] == t.log;
    assert l.stack[1..] == m.stack;
    ThenLocally(s, es, t, Return(q), l, m, []);
  }

  /** Two observers of `q` are notified synchronously; in its callback the first removes the second. */
  function UntilRemoval(q: Sequence, a: Observer, b: Observer, n: Notification): seq<Event> {
    [Add(q, a)] + [Add(q, b)] + [NotifySync(q, n, [a, b])]
    + [NextDirect(q)] + [Lookup(q)] + [Invoke(q)] + [Remove(q, b)]
  }

  function InCallback(q: Sequence, a: Observer, rest: seq<Observer>, queue: seq<Task>, n: Notification): Local {
    Local(queue, [Calling(Task(a, n), true, None), Direct(rest, n)], Some(n))
  }

  lemma StartDirectly(policy: Policy, q: Sequence, a: Observer, b: Observer, n: Notification)
    requires a != b && n.list == SELF && n.sync
    ensures Leads(Init(policy), [Add(q, a)] + [Add(q, b)] + [NotifySync(q, n, [a, b])],
                  Single(policy, map[a := q, b := q], q, Local([], [Direct([a, b], n)], None), n, []))
  {
    var s, order := Init(policy), [a, b];
    var s1, s2 := s.(observers := map[a := q]), s.(observers := map[a := q, b := q]);
    Then(s, [], s, Add(q, a));
    assert Step(s, Add(q, a)) == s1;
    Then(s, [Add(q, a)], s1, Add(q, b));
    assert s1.observers[b := q] == s2.observers;
    assert Step(s1, Add(q, b)) == s2;
    assert order[0] == a && order[1] == b;
    Then(s, [Add(q, a)] + [Add(q, b)], s2, NotifySync(q, n, order));
    PostNone(s2.observers, q, a, b, n);
    assert [Direct(order, n)] + [] == [Direct(order, n)];
    assert Push(map[], q, Direct(order, n)) == map[q := Local([], [Direct(order, n)], None)];
  }

  lemma PostNone(observers: map<Observer, Sequence>, q: Sequence, a: Observer, b: Observer, n: Notification)
    requires observers == map[a := q, b := q]
    ensures PostAll(map[], observers, [a, b], n, Some(q)) == map[] && On(observers, [a, b], q) == [a, b]
  {
    assert [a, b][1..] == [b] && [b][1..] == [];
    assert On(observers, [b], q) == [b];
    assert PostAll(map[], observers, [b], n, Some(q)) == map[];
  }

  lemma RemovedInCallback(policy: Policy, q: Sequence, a: Observer, b: Observer, n: Notification)
    requires a != b && n.list == SELF && n.sync
    ensures Leads(Init(policy), UntilRemoval(q, a, b, n),
                  Single(policy, map[a := q], q, InCallback(q, a, [b], [], n), n, [Start(Task(a, n), true, q)]))
  {
    var es, log := [Add(q, a)] + [Add(q, b)] + [NotifySync(q, n, [a, b])], [Start(Task(a, n), true, q)];
    var s3 := Single(policy, map[a := q, b := q], q, Local([], [Direct([a, b], n)], None), n, []);
    var s6 := Single(policy, map[a := q, b := q], q, InCallback(q, a, [b], [], n), n, log);
    StartDirectly(policy, q, a, b, n);
    assert [a, b] == [a] + [b];
    CallDirectly(Init(policy), es, s3, q, [], a, [b], n);
    assert [] + log == log;
    var fs := es + [NextDirect(q)] + [Lookup(q)] + [Invoke(q)];
    Then(Init(policy), fs, s6, Remove(q, b));
    assert s6.observers - {b} == map[a := q];
  }

  /** What the second observer is called for after it was added again in the same callback. */
  function Again(policy: Policy, b: Observer, n: Notification): seq<Task> {
    if policy == All then [Task(b, n)] else []
  }

  /** The observer that was removed and added again in a callback of NotifySynchronously is still called
      by the loop below, under either policy: so under EXISTING_ONLY it receives the notification during
      which it was added. */
  lemma RevivedDirectly(policy: Policy, q: Sequence, a: Observer, b: Observer, n: Notification)
    requires a != b && n.list == SELF && n.sync
    ensures Leads(Init(policy),
                  UntilRemoval(q, a, b, n) + [Add(q, b)] + [Return(q)] + [NextDirect(q)] + [Lookup(q)] + [Invoke(q)],
                  Single(policy, map[a := q, b := q], q, InCallback(q, b, [], Again(policy, b, n), n), n,
                         [Start(Task(a, n), true, q), Start(Task(b, n), true, q)]))
  {
    var es, log := UntilRemoval(q, a, b, n), [Start(Task(a, n), true, q)];
    var queue, both := Again(policy, b, n), map[a := q, b := q];
    var s7 := Single(policy, map[a := q], q, InCallback(q, a, [b], [], n), n, log);
    var s8 := Single(policy, both, q, InCallback(q, a, [b], queue, n), n, log);
    RemovedInCallback(policy, q, a, b, n);
    Then(Init(policy), es, s7, Add(q, b));
    assert s7.observers[b := q] == both;
    assert [] + [Task(b, n)] == [Task(b, n)];
    assert Step(s7, Add(q, b)).locals == s8.locals;
    ReturnDirectly(Init(policy), es + [Add(q, b)], s8, q, queue, Task(a, n), [b], n);
    assert [b] == [b] + [];
    var s9 := Single(policy, both, q, Local(queue, [Direct([b], n)], None), n, log);
    CallDirectly(Init(policy), es + [Add(q, b)] + [Return(q)], s9, q, queue, b, [], n);
    assert log + [Start(Task(b, n), true, q)] == [Start(Task(a, n), true, q), Start(Task(b, n), true, q)];
  }

  /** Under ALL the task that AddObserver posted follows, so the observer is called twice. */
  lemma CalledTwice(q: Sequence, a: Observer, b: Observer, n: Notification)
    requires a != b && n.list == SELF && n.sync
    ensures exists es, t :: Leads(Init(All), es, t)
                            && t.log == [Start(Task(a, n), true, q), Start(Task(b, n), true, q),
                                         Start(Task(b, n), false, q)]
  {
    var es := UntilRemoval(q, a, b, n) + [Add(q, b)] + [Return(q)] + [NextDirect(q)] + [Lookup(q)] + [Invoke(q)];
    var both, queue := map[a := q, b := q], [Task(b, n)];
    var log := [Start(Task(a, n), true, q), Start(Task(b, n), true, q)];
    var s12 := Single(All, both, q, InCallback(q, b, [], queue, n), n, log);
    RevivedDirectly(All, q, a, b, n);
    ReturnDirectly(Init(All), es, s12, q, queue, Task(b, n), [], n);
    var l13, l14 := Local(queue, [Direct([], n)], None), Local(queue, [], None);
    var s13, s14 := Single(All, both, q, l13, n, log), Single(All, both, q, l14, n, log);
    assert l13.stack[1..] == [] && log + [] == log;
    ThenLocally(Init(All), es + [Return(q)], s13, NextDirect(q), l13, l14, []);
    ServeQueued(Init(All), es + [Return(q)] + [NextDirect(q)], s14, q, Task(b, n));
    assert log + [Start(Task(b, n), false, q)]
        == [Start(Task(a, n), true, q), Start(Task(b, n), true, q), Start(Task(b, n), false, q)];
  }
}
