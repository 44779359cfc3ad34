/**
 `OnceCallbackList` and `RepeatingCallbackList` as an object with the loop of `Notify` in it. A list node
 is a number handed out once; whether the callback in it is null is in `nulls`. What the callbacks do
 to the list while they run is an arbitrary script, one list of actions for each callback invocation.
 */
module CallbackLists {
  import opened Common
  import opened CallbackListSpec
  import opened CallbackNotify

  type Node = nat
  type Subscription = nat
  type View = State<Subscription, Node>
  type Events = seq<Event<Subscription, Node>>

  datatype Action = Register | Destroy(sub: Subscription)

  /** A list and the number that its next node and subscription will get. */
  datatype Numbered = Numbered(list: View, nextId: nat)

  /** What a callback's actions come to: registrations and destructions in order, where a subscription
      that is not alive cannot be destroyed. */
  function Performed(v: Numbered, actions: seq<Action>): Numbered {
    if actions == [] then v else
      var Numbered(t, id) := Performed(v, actions[..|actions| - 1]);
      match actions[|actions| - 1]
      case Register => Numbered(AddCallback(t, id, id), id + 1)
      case Destroy(sub) => Numbered(if sub in t.subs then CancelCallback(t, sub) else t, id)
  }

  function ActionsAt(script: seq<seq<Action>>, k: nat): seq<Action> {
    if k < |script| then script[k] else []
  }

  /** The list after so many turns of the loop, where the k-th callback to run acts by `script[k]`. */
  function AfterRounds(v: Numbered, script: seq<seq<Action>>, rounds: nat): Numbered {
    if rounds == 0 then v else
      var Numbered(t, id) := AfterRounds(v, script, rounds - 1);
      if Pending(t) == [] || Pending(t)[0] !in t.callbacks then Numbered(t, id)
      else Performed(Numbered(CallbackListSpec.RunCallback(t, Pending(t)[0]), id), ActionsAt(script, rounds - 1))
  }

  lemma AfterNext(v: Numbered, script: seq<seq<Action>>, rounds: nat, t: Numbered, n: Node)
    requires t == AfterRounds(v, script, rounds) && Front(Pending(t.list)) == Some(n) && n in t.list.callbacks
    ensures AfterRounds(v, script, rounds + 1)
            == Performed(Numbered(CallbackListSpec.RunCallback(t.list, n), t.nextId), ActionsAt(script, rounds))
  {
  }

  /** EraseIf on a list: what is not null stays, in order. */
  method Unless(q: seq<Node>, nulls: set<Node>) returns (kept: seq<Node>)
    ensures kept == Keep(q, nulls)
  {
    kept := [];
    for k := 0 to |q|
      invariant Keep(q, nulls) == kept + Keep(q[k..], nulls)
    {
      assert q[k..][0] == q[k] && q[k..][1..] == q[k + 1..];
      if q[k] !in nulls {
        kept := kept + [q[k]];
      }
    }
  }

  class CallbackList {
    const kind: Kind
    var callbacks: seq<Node>
    var nullCallbacks: seq<Node>
    var nulls: set<Node>
    var subscriptions: map<Subscription, Node>   // the live ones, in the hands of the clients
    var iterating: bool
    var nextId: nat                           // nodes and subscriptions are numbered from 0
    ghost var cursor: Option<Node>
    ghost var ran: seq<Node>
    ghost var used: set<Node>

    ghost function View(): View
      reads this
    {
      State(kind, callbacks, nullCallbacks, nulls, subscriptions,
            if iterating then Running(cursor) else Idle, ran, used)
    }

    ghost predicate WellFormed()
      reads this
    {
      && Valid(View())
      && (forall sub :: sub in subscriptions ==> sub < nextId)
      && (forall n :: n in used ==> n < nextId)
    }

    constructor (kind: Kind)
      ensures WellFormed() && View() == Init(kind)
    {
      this.kind := kind;
      callbacks, nullCallbacks, nulls, subscriptions, iterating, nextId := [], [], {}, map[], false, 0;
      cursor, ran, used := None, [], {};
    }

    method Add() returns (sub: Subscription)
      requires WellFormed() && ClientCode(View())
      modifies this`callbacks, this`subscriptions, this`nextId, this`used
      ensures WellFormed() && Enabled(old(View()), Event.Add(sub, sub))
      ensures View() == AddCallback(old(View()), sub, sub)
      ensures sub == old(nextId) && nextId == sub + 1
    {
      AddKeepsValid(View(), nextId, nextId);
      sub := nextId;
      callbacks := callbacks + [sub];
      subscriptions := subscriptions[sub := sub];
      nextId, used := nextId + 1, used + {sub};
    }

    /** The destructor of a subscription. */
    method Cancel(sub: Subscription)
      requires WellFormed() && ClientCode(View()) && sub in subscriptions
      modifies this`callbacks, this`nullCallbacks, this`nulls, this`subscriptions
      ensures WellFormed()
      ensures View() == CancelCallback(old(View()), sub)
    {
      CancelKeepsValid(View(), sub);
      var it := subscriptions[sub];
      subscriptions := subscriptions - {sub};
      if kind == Once && it in nulls {
        nullCallbacks, nulls := Keep(nullCallbacks, {it}), nulls - {it};
      } else if iterating {
        nulls := nulls + {it};
      } else {
        callbacks := Keep(callbacks, {it});
      }
    }

    /** it++ */
    function Successor(it: Node): Option<Node>
      reads this
      requires it in callbacks
    {
      var k := IndexOf(callbacks, it);
      if k + 1 < |callbacks| then Some(callbacks[k + 1]) else None
    }

    /** RunCallback(it++): returns the advanced cursor. */
    method RunCallback(it: Node) returns (next: Option<Node>)
      requires WellFormed() && iterating && it in callbacks && it !in nulls
      modifies this`callbacks, this`nullCallbacks, this`nulls, this`cursor, this`ran
      ensures WellFormed() && next == cursor
      ensures View() == CallbackListSpec.RunCallback(old(View()), it)
    {
      RunKeepsValid(View(), it);
      next := Successor(it);
      assert Front(From(callbacks, Some(it))[1..]) == next;
      if kind == Once {
        callbacks, nullCallbacks := Keep(callbacks, {it}), nullCallbacks + [it];
        nulls := nulls + {it};
      }
      cursor, ran := next, ran + [it];
    }

    /** std::find_if from the cursor to the end. */
    method FindValid(it: Option<Node>) returns (r: Option<Node>)
      requires WellFormed() && iterating && it == cursor
      ensures r == Front(Pending(View()))
    {
      r := None;
      if it.Some? {
        var k := IndexOf(callbacks, it.value);
        assert From(callbacks, it) == callbacks[k..];
        while k < |callbacks|
          invariant k <= |callbacks|
          invariant Keep(callbacks[k..], nulls) == Pending(View())
        {
          assert callbacks[k..][0] == callbacks[k] && callbacks[k..][1..] == callbacks[k + 1..];
          if callbacks[k] !in nulls {
            return Some(callbacks[k]);
          }
          k := k + 1;
        }
      }
    }

    /** What one callback does: register further callbacks, destroy subscriptions, its own included. */
    method Perform(actions: seq<Action>, ghost b: View, ghost past: Events) returns (ghost es: Events)
      requires WellFormed() && iterating && ran != [] && Reached(b, past, View())
      modifies this`callbacks, this`nullCallbacks, this`nulls, this`subscriptions, this`nextId, this`used
      ensures WellFormed() && Reached(b, es, View())
      ensures Numbered(View(), nextId) == Performed(Numbered(old(View()), old(nextId)), actions)
    {
      es := past;
      assert actions[..|actions|] == actions;
      for k := 0 to |actions|
        invariant WellFormed() && Reached(b, es, View())
        invariant Numbered(View(), nextId) == Performed(Numbered(old(View()), old(nextId)), actions[..k])
      {
        ghost var s := View();
        assert actions[..k + 1][..k] == actions[..k];
        match actions[k] {
          case Register =>
            var sub := Add();
            es := Extend(b, es, s, Event.Add(sub, sub));
          case Destroy(sub) =>
            if sub in subscriptions {
              Cancel(sub);
              es := Extend(b, es, s, Event.Cancel(sub));
            }
        }
      }
    }

    /** One turn of the loop: run the callback that was found, let it act, look for the next one. */
    method Round(n: Node, actions: seq<Action>, ghost b: View, ghost past: Events)
      returns (it: Option<Node>, ghost es: Events)
      requires WellFormed() && iterating && Reached(b, past, View()) && Front(Pending(View())) == Some(n)
      modifies this
      ensures WellFormed() && iterating && Reached(b, es, View()) && it == Front(Pending(View()))
      ensures n in old(callbacks)
      ensures Numbered(View(), nextId)
              == Performed(Numbered(CallbackListSpec.RunCallback(old(View()), n), old(nextId)), actions)
      ensures actions == [] ==> |Pending(View())| < |Pending(old(View()))|
    {
      ghost var s := View();
      LoopServesQueue(s);
      FrontIsValid(s);
      it := RunCallback(n);
      es := Extend(b, past, s, Proceed);
      es := Perform(actions, b, es);
      it := FindValid(it);
    }

    /** The events `es` and `round` turns of the loop have led from `b` and the number `id` to here. */
    ghost predicate After(b: View, id: nat, script: seq<seq<Action>>, round: nat, es: Events)
      reads this
    {
      && WellFormed() && iterating && Reached(b, es, View())
      && Numbered(View(), nextId) == AfterRounds(Numbered(b, id), script, round)
    }

    ghost function Left(): nat
      reads this
    {
      |Pending(View())|
    }

    /** The turn after `round` turns, with the actions that the script has for it. */
    method Turn(n: Node, script: seq<seq<Action>>, round: nat, ghost b: View, ghost id: nat, ghost past: Events)
      returns (it: Option<Node>, ghost es: Events)
      requires After(b, id, script, round, past) && Front(Pending(View())) == Some(n)
      modifies this
      ensures After(b, id, script, round + 1, es) && it == Front(Pending(View()))
      ensures round >= |script| ==> Left() < old(Left())
    {
      ghost var t := Numbered(View(), nextId);
      it, es := Round(n, ActionsAt(script, round), b, past);
      AfterNext(Numbered(b, id), script, round, t, n);
    }

    /** The loop of Notify, from the moment it is about to run the first callback. It ends, because
        the script does. */
    method Loop(script: seq<seq<Action>>, first: Node) returns (ghost es: Events, round: nat)
      requires WellFormed() && iterating && Front(Pending(View())) == Some(first)
      modifies this
      ensures After(old(View()), old(nextId), script, round, es) && Pending(View()) == []
    {
      ghost var b, id := View(), nextId;
      var it := Some(first);
      es, round := [], 0;
      while it.Some?
        invariant After(b, id, script, round, es) && it == Front(Pending(View()))
        decreases if round < |script| then |script| - round else 0, Left()
      {
        it, es := Turn(it.value, script, round, b, id, es);
        round := round + 1;
      }
    }

    /** After the loop: the callbacks cancelled meanwhile are erased. */
    method EraseNull()
      requires WellFormed() && iterating
      modifies this`iterating, this`callbacks, this`nulls
      ensures WellFormed() && View() == Finish(old(View()))
    {
      FinishKeepsValid(View());
      var kept := Unless(callbacks, nulls);
      iterating := false;
      nulls, callbacks := nulls - (set n | n in callbacks), kept;
    }

    /** The whole notification; `script[k]` is what the k-th callback to run does. */
    method Notify(script: seq<seq<Action>>) returns (ghost es: Events, round: nat)
      requires WellFormed() && !iterating
      modifies this
      ensures WellFormed() && !iterating
      ensures var b := StartNotify(old(View()));
              && Reached(b, es, View())
              && ran == Keep(old(callbacks) + Enrolled(b, es), Dropped(b, es))
              && (old(callbacks) == [] ==> View() == b)
              && (old(callbacks) != [] ==>
                    View() == Finish(AfterRounds(Numbered(b, old(nextId)), script, round).list))
    {
      ghost var v := View();
      StepKeepsValid(v, Event.Notify);
      StartIsQueue(v);
      ran, es, round := [], [], 0;
      if callbacks != [] {
        iterating, cursor := true, Some(callbacks[0]);
        es, round := Loop(script, callbacks[0]);
        es := Extend(StartNotify(v), es, View(), Proceed);
        EraseNull();
      }
      WholeNotify(v, es);
    }
  }

  lemma FrontIsValid<S, N>(s: State<S, N>)
    requires s.phase.Running? && Pending(s) != []
    ensures Pending(s)[0] in s.callbacks && Pending(s)[0] !in s.nulls
    ensures Resume(s) == CallbackListSpec.RunCallback(s, Pending(s)[0])
  {
    KeepMembers(From(s.callbacks, s.phase.cursor), s.nulls);
    assert Pending(s)[0] in Pending(s);
  }

  /** `s` is where the events `es` of a Notify lead from `b`. */
  ghost predicate Reached<S, N>(b: State<S, N>, es: seq<Event<S, N>>, s: State<S, N>) {
    DuringNotify(b, es) && Run(b, es) == s
  }

  ghost function Extend<S, N>(b: State<S, N>, es: seq<Event<S, N>>, s: State<S, N>, e: Event<S, N>)
    : (r: seq<Event<S, N>>)
    requires Reached(b, es, s) && s.phase.Running? && Enabled(s, e)
    ensures Reached(b, r, Step(s, e))
  {
    Extended(b, es, s, e);
    es + [e]
  }

  lemma {:induction false} Extended<S, N>(b: State<S, N>, es: seq<Event<S, N>>, s: State<S, N>, e: Event<S, N>)
    requires Reached(b, es, s) && s.phase.Running? && Enabled(s, e)
    ensures Reached(b, es + [e], Step(s, e))
    decreases |es|
  {
    if es != [] {
      assert (es + [e])[1..] == es[1..] + [e];
      Extended(Step(b, es[0]), es[1..], s, e);
    }
  }
}
