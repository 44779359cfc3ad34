/**
 The callback list as a value. `N` is the type of list nodes (one per registered callback, never
 reused) and `S` the type of subscriptions. A std::list iterator is a node; end() is `None`.

 While `Notify` runs, `phase` holds the cursor that its loop has already advanced past the callback
 that is being run.
 */
module CallbackListSpec {
  import opened Common
  import opened Sequences

  datatype Phase<N> = Idle | Running(cursor: Option<N>)

  datatype State<S(==), N(==)> = State(
    kind: Kind,
    callbacks: seq<N>,
    nullCallbacks: seq<N>,
    nulls: set<N>,           // the nodes whose callback is null
    subs: map<S, N>,         // the live subscriptions and the node each is bound to
    phase: Phase<N>,
    ran: seq<N>,             // the callbacks run by the current or latest Notify, in order
    used: set<N>)            // every node that was ever allocated

  datatype Event<S, N> =
    | Add(sub: S, node: N)
    | Cancel(sub: S)         // the destructor of a subscription
    | Notify
    | Proceed                // the loop of Notify runs the next valid callback, or ends

  // ---------------------------------------------------------------- list helpers

  function IndexOf<N(==)>(q: seq<N>, n: N): (k: nat)
    requires n in q
    ensures k < |q| && q[k] == n && n !in q[..k]
  {
    if q[0] == n then 0 else
      assert q == [q[0]] + q[1..];
      1 + IndexOf(q[1..], n)
  }

  /** From the cursor to the end. */
  function From<N(==)>(q: seq<N>, cursor: Option<N>): seq<N> {
    if cursor.Some? && cursor.value in q then q[IndexOf(q, cursor.value)..] else []
  }

  /** `q` without the elements of `drop`. */
  function Keep<N(==)>(q: seq<N>, drop: set<N>): seq<N> {
    if q == [] then []
    else if q[0] in drop then Keep(q[1..], drop)
    else [q[0]] + Keep(q[1..], drop)
  }

  function Front<N>(q: seq<N>): Option<N> {
    if q == [] then None else Some(q[0])
  }

  // ---------------------------------------------------------------- operations

  function AddCallback<S, N>(s: State<S, N>, sub: S, node: N): State<S, N> {
    s.(callbacks := s.callbacks + [node], subs := s.subs[sub := node], used := s.used + {node})
  }

  /** CancelCallback, with the CancelNullCallback of the list's kind. */
  function CancelCallback<S, N>(s: State<S, N>, sub: S): State<S, N>
    requires sub in s.subs
  {
    var n := s.subs[sub];
    var t := s.(subs := s.subs - {sub});
    if s.kind == Once && n in s.nulls then t.(nullCallbacks := Keep(s.nullCallbacks, {n}), nulls := s.nulls - {n})
    else if s.phase.Running? then t.(nulls := s.nulls + {n})
    else t.(callbacks := Keep(s.callbacks, {n}))
  }

  /** RunCallback(it++): the cursor moves on first; a once list then splices the node into
      `nullCallbacks`, and running the callback leaves it null. */
  function RunCallback<S, N>(s: State<S, N>, n: N): State<S, N>
    requires n in s.callbacks
  {
    var t := s.(phase := Running(Front(From(s.callbacks, Some(n))[1..])), ran := s.ran + [n]);
    if s.kind == Repeating then t
    else t.(callbacks := Keep(s.callbacks, {n}), nullCallbacks := s.nullCallbacks + [n], nulls := s.nulls + {n})
  }

  /** The start of Notify: the loop is about to run the first callback. */
  function StartNotify<S, N>(s: State<S, N>): State<S, N> {
    s.(ran := [], phase := if s.callbacks == [] then Idle else Running(Front(s.callbacks)))
  }

  /** The end of Notify: what was cancelled during the loop is erased. */
  function Finish<S, N>(s: State<S, N>): State<S, N> {
    s.(phase := Idle, callbacks := Keep(s.callbacks, s.nulls), nulls := s.nulls - (set n | n in s.callbacks))
  }

  /** find_if from the cursor on, and the next round or the end of the loop. At the start of Notify
      every callback is valid, so the first one is found. */
  function Resume<S, N>(s: State<S, N>): State<S, N>
    requires s.phase.Running?
  {
    var rest := Keep(From(s.callbacks, s.phase.cursor), s.nulls);
    KeepMembers(From(s.callbacks, s.phase.cursor), s.nulls);
    if rest == [] then Finish(s) else assert rest[0] in rest; RunCallback(s, rest[0])
  }

  lemma {:induction false} KeepMembers<N>(q: seq<N>, drop: set<N>)
    ensures forall n :: n in Keep(q, drop) ==> n in q && n !in drop
    ensures forall n :: n in q && n !in drop ==> n in Keep(q, drop)
  {
    if q != [] {
      KeepMembers(q[1..], drop);
      assert q == [q[0]] + q[1..];
    }
  }

  /** Clients act outside Notify and inside the callbacks it runs. */
  predicate ClientCode<S, N>(s: State<S, N>) {
    s.phase.Idle? || s.ran != []
  }

  predicate Enabled<S, N>(s: State<S, N>, e: Event<S, N>) {
    match e
    case Add(sub, node) => ClientCode(s) && sub !in s.subs && node !in s.used
    case Cancel(sub) => ClientCode(s) && sub in s.subs
    case Notify => s.phase.Idle?
    case Proceed => s.phase.Running?
  }

  function Step<S, N>(s: State<S, N>, e: Event<S, N>): State<S, N>
    requires Enabled(s, e)
  {
    match e
    case Add(sub, node) => AddCallback(s, sub, node)
    case Cancel(sub) => CancelCallback(s, sub)
    case Notify => StartNotify(s)
    case Proceed => Resume(s)
  }

  predicate RunOk<S, N>(s: State<S, N>, es: seq<Event<S, N>>)
    decreases |es|
  {
    es != [] ==> Enabled(s, es[0]) && RunOk(Step(s, es[0]), es[1..])
  }

  function Run<S, N>(s: State<S, N>, es: seq<Event<S, N>>): State<S, N>
    requires RunOk(s, es)
    decreases |es|
  {
    if es == [] then s else Run(Step(s, es[0]), es[1..])
  }

  function Init<S, N>(kind: Kind): State<S, N> {
    State(kind, [], [], {}, map[], Idle, [], {})
  }

  // ---------------------------------------------------------------- the ownership invariant

  /** The node of a subscription: alive in `callbacks`, or run and parked in `nullCallbacks`. */
  ghost predicate Owned<S, N>(s: State<S, N>, n: N) {
    (n in s.callbacks && n !in s.nulls) || n in s.nullCallbacks
  }

  ghost predicate Bijection<S, N>(s: State<S, N>) {
    && (forall a, b :: a in s.subs && b in s.subs && s.subs[a] == s.subs[b] ==> a == b)
    && (forall a :: a in s.subs ==> Owned(s, s.subs[a]))
    && (forall n :: n in s.callbacks && n !in s.nulls ==> n in s.subs.Values)
    && (forall n :: n in s.nullCallbacks ==> n in s.subs.Values)
  }

  ghost predicate Nodes<S, N>(s: State<S, N>) {
    && Distinct(s.callbacks) && Distinct(s.nullCallbacks)
    && (forall n :: n in s.callbacks ==> n !in s.nullCallbacks && n in s.used)
    && (forall n :: n in s.nullCallbacks ==> n in s.nulls && n in s.used)
    && (forall n :: n in s.nulls ==> n in s.nullCallbacks || n in s.callbacks)
    && (s.kind == Repeating ==> s.nullCallbacks == [])
    && (s.phase.Idle? ==> forall n :: n in s.callbacks ==> n !in s.nulls)
    && (s.phase.Running? && s.phase.cursor.Some? ==> s.phase.cursor.value in s.callbacks)
    && (forall n :: n in s.ran ==> n in s.used)
  }

  ghost predicate Valid<S, N>(s: State<S, N>) {
    Nodes(s) && Bijection(s)
  }

  lemma {:induction false} KeepDistinct<N>(q: seq<N>, drop: set<N>)
    requires Distinct(q)
    ensures Distinct(Keep(q, drop))
  {
    if q != [] {
      assert Distinct(q[1..]) && q[0] !in q[1..];
      KeepDistinct(q[1..], drop);
      KeepMembers(q[1..], drop);
    }
  }

  lemma AddKeepsValid<S, N>(s: State<S, N>, sub: S, node: N)
    requires Valid(s) && sub !in s.subs && node !in s.used
    ensures Valid(AddCallback(s, sub, node))
  {
    var t := AddCallback(s, sub, node);
    assert t.subs[sub] == node;
    forall n | n in t.callbacks && n !in t.nulls ensures n in t.subs.Values {
      if n != node {
        var a :| a in s.subs && s.subs[a] == n;
        assert t.subs[a] == n;
      }
    }
    forall n | n in t.nullCallbacks ensures n in t.subs.Values {
      var a :| a in s.subs && s.subs[a] == n;
      assert t.subs[a] == n;
    }
  }

  lemma CancelKeepsValid<S, N>(s: State<S, N>, sub: S)
    requires Valid(s) && sub in s.subs
    ensures Valid(CancelCallback(s, sub))
  {
    var t := CancelCallback(s, sub);
    var m := s.subs[sub];
    KeepMembers(s.callbacks, {m});
    KeepMembers(s.nullCallbacks, {m});
    KeepDistinct(s.callbacks, {m});
    KeepDistinct(s.nullCallbacks, {m});
    forall n | Owned(t, n) ensures n in t.subs.Values {
      assert Owned(s, n) && n != m;
      var a :| a in s.subs && s.subs[a] == n;
      assert t.subs[a] == n;
    }
  }

  lemma RunKeepsValid<S, N>(s: State<S, N>, n: N)
    requires Valid(s) && n in s.callbacks && n !in s.nulls
    ensures Valid(RunCallback(s, n))
  {
    var rest := From(s.callbacks, Some(n));
    KeepMembers(s.callbacks, {n});
    KeepDistinct(s.callbacks, {n});
    var t := RunCallback(s, n);
    if t.phase.cursor.Some? {
      assert t.phase.cursor.value == rest[1] == s.callbacks[IndexOf(s.callbacks, n) + 1] != n;
    }
    assert t.subs == s.subs;
    assert forall m :: Owned(t, m) <==> Owned(s, m);
  }

  lemma FinishKeepsValid<S, N>(s: State<S, N>)
    requires Valid(s)
    ensures Valid(Finish(s))
  {
    KeepMembers(s.callbacks, s.nulls);
    KeepDistinct(s.callbacks, s.nulls);
    assert forall m :: Owned(Finish(s), m) <==> Owned(s, m);
  }

  /** Every step keeps the correspondence between subscriptions and nodes. */
  lemma StepKeepsValid<S, N>(s: State<S, N>, e: Event<S, N>)
    requires Valid(s) && Enabled(s, e)
    ensures Valid(Step(s, e))
  {
    match e
    case Add(sub, node) => AddKeepsValid(s, sub, node);
    case Cancel(sub) => CancelKeepsValid(s, sub);
    case Notify =>
    case Proceed =>
      var q := From(s.callbacks, s.phase.cursor);
      var rest := Keep(q, s.nulls);
      KeepMembers(q, s.nulls);
      if rest == [] {
        FinishKeepsValid(s);
      } else {
        assert rest[0] in rest;
        RunKeepsValid(s, rest[0]);
      }
  }

  lemma {:induction false} RunIsValid<S, N>(s: State<S, N>, es: seq<Event<S, N>>)
    requires Valid(s) && RunOk(s, es)
    ensures Valid(Run(s, es))
    decreases |es|
  {
    if es != [] {
      StepKeepsValid(s, es[0]);
      RunIsValid(Step(s, es[0]), es[1..]);
    }
  }

  /** In every state of every run: a subscription names a node that is still in a list, in the
      very list from which its cancellation erases it; the repeating variant never cancels a null
      callback; and once all subscriptions are gone and no Notify runs, both lists are empty. */
  lemma ReachableStates<S, N>(kind: Kind, es: seq<Event<S, N>>)
    requires RunOk(Init<S, N>(kind), es)
    ensures var s := Run(Init<S, N>(kind), es);
            && Valid(s)
            && (forall sub :: sub in s.subs ==>
                  var n := s.subs[sub];
                  && (kind == Once && n in s.nulls ==> n in s.nullCallbacks && n !in s.callbacks)
                  && (n !in s.nulls ==> n in s.callbacks && n !in s.nullCallbacks)
                  && (kind == Repeating ==> n !in s.nulls))
            && (s.subs == map[] && s.phase.Idle? ==> s.callbacks == [] && s.nullCallbacks == [])
  {
    RunIsValid(Init<S, N>(kind), es);
    var s := Run(Init<S, N>(kind), es);
    RunKind(Init<S, N>(kind), es);
    forall sub | sub in s.subs
      ensures kind == Once && s.subs[sub] in s.nulls ==> s.subs[sub] in s.nullCallbacks
      ensures s.subs[sub] !in s.nulls ==> s.subs[sub] in s.callbacks
    {
      assert Owned(s, s.subs[sub]);
    }
    if s.phase.Idle? && s.callbacks != [] {
      HasSubscriber(s, s.callbacks[0]);
    }
    if s.nullCallbacks != [] {
      HasSubscriber(s, s.nullCallbacks[0]);
    }
  }

  lemma HasSubscriber<S, N>(s: State<S, N>, n: N)
    requires Valid(s) && Owned(s, n)
    ensures exists sub :: sub in s.subs && s.subs[sub] == n
    ensures s.subs != map[]
  {
    var sub :| sub in s.subs && s.subs[sub] == n;
  }

  lemma {:induction false} RunKind<S, N>(s: State<S, N>, es: seq<Event<S, N>>)
    requires RunOk(s, es)
    ensures Run(s, es).kind == s.kind
    decreases |es|
  {
    if es != [] {
      RunKind(Step(s, es[0]), es[1..]);
    }
  }
}
