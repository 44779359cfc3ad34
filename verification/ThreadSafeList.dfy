/**
 The operations of `ObserverListThreadSafe` that run under the lock, as an object: the map of
 observers and the posting loops over it, in whatever order the map is enumerated. Each method is
 proved to be one step of the protocol. `NotifyWrapper` is three steps of the protocol (lookup, call,
 return), because other sequences run in between.
 */
module ThreadSafeLists {
  import opened Common
  import opened Sequences
  import opened ThreadSafeSpec

  lemma {:induction false} PostAllSnoc(ls: map<Sequence, Local>, observers: map<Observer, Sequence>,
                                       order: seq<Observer>, o: Observer, n: Notification, skip: Option<Sequence>)
    requires (forall p :: p in order ==> p in observers) && o in observers
    ensures var before, q := PostAll(ls, observers, order, n, skip), observers[o];
            PostAll(ls, observers, order + [o], n, skip)
            == if skip == Some(q) then before else Post(before, q, Task(o, n))
    decreases |order|
  {
    if order == [] {
      assert [o][1..] == [] && order + [o] == [o];
    } else {
      var q := observers[order[0]];
      assert (order + [o])[1..] == order[1..] + [o];
      PostAllSnoc(if skip == Some(q) then ls else Post(ls, q, Task(order[0], n)), observers, order[1..], o, n, skip);
    }
  }

  lemma {:induction false} OnSnoc(observers: map<Observer, Sequence>, order: seq<Observer>, o: Observer, q: Sequence)
    requires (forall p :: p in order ==> p in observers) && o in observers
    ensures On(observers, order + [o], q) == On(observers, order, q) + if observers[o] == q then [o] else []
  {
    if order == [] {
      assert [o][1..] == [] && order + [o] == [o];
    } else {
      assert (order + [o])[1..] == order[1..] + [o];
      OnSnoc(observers, order[1..], o, q);
    }
  }

  class ObserverListThreadSafe {
    const policy: Policy
    var observers: map<Observer, Sequence>
    var locals: map<Sequence, Local>     // the queue, the call stack and the pointer of each sequence
    ghost var issued: set<Notification>
    ghost var log: seq<Start>

    ghost function View(): State
      reads this
    {
      State(policy, observers, locals, issued, log)
    }

    constructor (policy: Policy)
      ensures View() == Init(policy)
    {
      this.policy := policy;
      observers, locals := map[], map[];
      issued, log := {}, [];
    }

    method AddObserver(q: Sequence, o: Observer)
      requires Valid(View()) && Enabled(View(), Add(q, o))
      modifies this`observers, this`locals
      ensures View() == Step(old(View()), Add(q, o)) && Valid(View())
    {
      StepKeepsValid(View(), Add(q, o));
      observers := observers[o := q];
      if policy == All {
        var current := At(locals, q).current;
        if current.Some? && current.value.list == SELF {
          locals := Post(locals, q, Task(o, current.value));
        }
      }
    }

    method RemoveObserver(q: Sequence, o: Observer)
      requires Valid(View()) && Enabled(View(), Remove(q, o))
      modifies this`observers
      ensures View() == Step(old(View()), Remove(q, o)) && Valid(View())
    {
      StepKeepsValid(View(), Remove(q, o));
      observers := observers - {o};
    }

    method Notify(n: Notification) returns (order: seq<Observer>)
      requires Valid(View()) && n.list == SELF && !n.sync && n !in issued
      modifies this`locals, this`issued
      ensures Enabled(old(View()), Event.Notify(n, order))
      ensures View() == Step(old(View()), Event.Notify(n, order)) && Valid(View())
    {
      order := [];
      var rest := observers.Keys;
      while rest != {}
        invariant rest <= observers.Keys && issued == old(issued)
        invariant forall o :: o in observers <==> o in rest || o in order
        invariant forall o :: o in order ==> o !in rest
        invariant Distinct(order)
        invariant locals == PostAll(old(locals), observers, order, n, None)
        decreases rest
      {
        var o :| o in rest;
        PostAllSnoc(old(locals), observers, order, o, n, None);
        locals := Post(locals, observers[o], Task(o, n));
        order, rest := order + [o], rest - {o};
      }
      issued := issued + {n};
      StepKeepsValid(old(View()), Event.Notify(n, order));
    }

    method NotifySynchronously(q: Sequence, n: Notification) returns (order: seq<Observer>)
      requires Valid(View()) && ClientCode(At(locals, q)) && n.list == SELF && n.sync && n !in issued
      modifies this`locals, this`issued
      ensures Enabled(old(View()), NotifySync(q, n, order))
      ensures View() == Step(old(View()), NotifySync(q, n, order)) && Valid(View())
    {
      order := [];
      var rest, current := observers.Keys, [];
      while rest != {}
        invariant rest <= observers.Keys && issued == old(issued)
        invariant forall o :: o in observers <==> o in rest || o in order
        invariant forall o :: o in order ==> o !in rest
        invariant Distinct(order)
        invariant locals == PostAll(old(locals), observers, order, n, Some(q))
        invariant current == On(observers, order, q)
        decreases rest
      {
        var o :| o in rest;
        PostAllSnoc(old(locals), observers, order, o, n, Some(q));
        OnSnoc(observers, order, o, q);
        if observers[o] == q {
          current := current + [o];
        } else {
          locals := Post(locals, observers[o], Task(o, n));
        }
        order, rest := order + [o], rest - {o};
      }
      locals := Push(locals, q, Direct(current, n));
      issued := issued + {n};
      StepKeepsValid(old(View()), NotifySync(q, n, order));
    }
  }
}
