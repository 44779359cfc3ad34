/**
 What one whole Notify runs, whatever the callbacks do meanwhile. The loop over the changing
 std::list is shown to serve a simple queue, and the callbacks it runs are then given by one
 equation over the events of the run.
 */
module CallbackNotify {
  import opened Common
  import opened Sequences
  import opened CallbackListSpec

  /** The callbacks the loop has still to run. */
  function Pending<S, N>(s: State<S, N>): seq<N> {
    if s.phase.Running? then Keep(From(s.callbacks, s.phase.cursor), s.nulls) else []
  }

  /** Events that happen while Notify is running, up to and including its end. */
  predicate DuringNotify<S, N>(s: State<S, N>, es: seq<Event<S, N>>): (r: bool)
    ensures r ==> RunOk(s, es)
    decreases |es|
  {
    es != [] ==> s.phase.Running? && Enabled(s, es[0]) && DuringNotify(Step(s, es[0]), es[1..])
  }

  function EnrolledBy<S, N>(s: State<S, N>, e: Event<S, N>): seq<N> {
    if e.Add? && s.phase.Running? && s.phase.cursor.Some? then [e.node] else []
  }

  function DroppedBy<S, N>(s: State<S, N>, e: Event<S, N>): set<N>
    requires Enabled(s, e)
  {
    if e.Cancel? && s.subs[e.sub] in Pending(s) then {s.subs[e.sub]} else {}
  }

  /** The callbacks added while the advanced cursor is not at end(), in order. */
  function Enrolled<S, N>(s: State<S, N>, es: seq<Event<S, N>>): seq<N>
    requires DuringNotify(s, es)
    decreases |es|
  {
    if es == [] then [] else EnrolledBy(s, es[0]) + Enrolled(Step(s, es[0]), es[1..])
  }

  /** The callbacks whose subscription is destroyed before their turn. */
  function Dropped<S, N>(s: State<S, N>, es: seq<Event<S, N>>): set<N>
    requires DuringNotify(s, es)
    decreases |es|
  {
    if es == [] then {} else DroppedBy(s, es[0]) + Dropped(Step(s, es[0]), es[1..])
  }

  // ---------------------------------------------------------------- sequences

  lemma {:induction false} KeepConcat<N>(a: seq<N>, b: seq<N>, drop: set<N>)
    ensures Keep(a + b, drop) == Keep(a, drop) + Keep(b, drop)
  {
    if a == [] {
      assert a + b == b;
    } else {
      ConsConcat(a, b);
      KeepConcat(a[1..], b, drop);
      Assoc([a[0]], Keep(a[1..], drop), Keep(b, drop));
    }
  }

  lemma {:induction false} KeepKeep<N>(q: seq<N>, a: set<N>, b: set<N>)
    ensures Keep(Keep(q, a), b) == Keep(q, a + b)
  {
    if q != [] {
      KeepKeep(q[1..], a, b);
    }
  }

  lemma {:induction false} KeepAll<N>(q: seq<N>, drop: set<N>)
    requires forall n :: n in q ==> n !in drop
    ensures Keep(q, drop) == q
  {
    if q != [] {
      KeepAll(q[1..], drop);
    }
  }

  /** `Keep` depends only on the dropped elements that occur. */
  lemma {:induction false} KeepSame<N>(q: seq<N>, a: set<N>, b: set<N>)
    requires forall n :: n in q ==> (n in a <==> n in b)
    ensures Keep(q, a) == Keep(q, b)
  {
    if q != [] {
      KeepSame(q[1..], a, b);
    }
  }

  lemma IndexOfUnique<N>(q: seq<N>, k: nat)
    requires Distinct(q) && k < |q|
    ensures IndexOf(q, q[k]) == k
  {
    var j := IndexOf(q, q[k]);
    assert q[j] == q[k];
  }

  lemma SuffixAt<N>(q: seq<N>, k: nat)
    requires Distinct(q) && k <= |q|
    ensures From(q, Front(q[k..])) == q[k..]
  {
    if k < |q| {
      assert q[k..][0] == q[k];
      IndexOfUnique(q, k);
    }
  }

  lemma SuffixDistinct<N>(q: seq<N>, k: nat)
    requires Distinct(q) && k <= |q|
    ensures Distinct(q[k..])
  {
    forall i, j | 0 <= i < j < |q[k..]| ensures q[k..][i] != q[k..][j] {
      assert q[k..][i] == q[k + i] && q[k..][j] == q[k + j];
    }
  }

  lemma NotInRest<N>(q: seq<N>, k: nat)
    requires Distinct(q) && k < |q|
    ensures q[k] !in q[..k] && q[k] !in q[k + 1..]
  {
    var rest := q[k + 1..];
    assert forall j :: 0 <= j < |rest| ==> rest[j] == q[k + 1 + j];
  }

  lemma KeepMiddle<N>(pre: seq<N>, n: N, rest: seq<N>)
    requires n !in pre && n !in rest
    ensures Keep(pre + ([n] + rest), {n}) == pre + rest
  {
    KeepConcat(pre, [n] + rest, {n});
    KeepAll(pre, {n});
    KeepAll(rest, {n});
    assert ([n] + rest)[1..] == rest;
  }

  lemma KeepSplit<N>(q: seq<N>, k: nat)
    requires Distinct(q) && k < |q|
    ensures Keep(q, {q[k]}) == q[..k] + q[k + 1..]
  {
    NotInRest(q, k);
    SplitAt(q, k);
    KeepMiddle(q[..k], q[k], q[k + 1..]);
  }

  /** In a list without duplicates, the part after `n` does not change when `n` leaves the list. */
  lemma AfterRemoved<N>(q: seq<N>, n: N)
    requires Distinct(q) && n in q
    ensures var rest := From(q, Some(n))[1..];
            && From(q, Front(rest)) == rest
            && From(Keep(q, {n}), Front(rest)) == rest
            && n !in rest
  {
    var k := IndexOf(q, n);
    var rest := q[k + 1..];
    assert From(q, Some(n))[1..] == rest;
    NotInRest(q, k);
    SuffixAt(q, k + 1);
    assert From(Keep(q, {n}), Front(rest)) == rest by {
      KeepSplit(q, k);
      KeepDistinct(q, {n});
      SuffixAt(Keep(q, {n}), k);
      assert (q[..k] + rest)[k..] == rest;
    }
  }

  /** Dropping `n` from the queue now, or counting it among the dropped, is the same. */
  lemma DropNow<N>(p: seq<N>, en: seq<N>, n: N, drop: set<N>)
    requires n !in en
    ensures Keep(Keep(p, {n}) + en, drop) == Keep(p + en, drop + {n})
    ensures n !in p ==> Keep(Keep(p, {n}) + en, drop) == Keep(p + en, drop)
  {
    KeepConcat(Keep(p, {n}), en, drop);
    KeepConcat(p, en, drop + {n});
    KeepKeep(p, {n}, drop);
    assert {n} + drop == drop + {n};
    KeepSame(en, drop, drop + {n});
    if n !in p {
      KeepAll(p, {n});
    }
  }

  lemma TakeFront<N>(ran: seq<N>, p: seq<N>, en: seq<N>, drop: set<N>)
    requires p != [] && p[0] !in drop
    ensures ran + Keep(p + en, drop) == (ran + [p[0]]) + Keep(p[1..] + en, drop)
  {
    assert (p + en)[1..] == p[1..] + en;
  }

  // ---------------------------------------------------------------- one step of the queue

  /** Running the first callback of the queue takes it from the queue and nothing else. */
  lemma RunTakesFront<S, N>(s: State<S, N>, n: N)
    requires Valid(s) && n in s.callbacks && n !in s.nulls
    ensures Pending(RunCallback(s, n)) == Keep(From(s.callbacks, Some(n))[1..], s.nulls)
  {
    var rest := From(s.callbacks, Some(n))[1..];
    AfterRemoved(s.callbacks, n);
    KeepSame(rest, s.nulls, s.nulls + {n});
  }

  /** The first callback found from the cursor on heads what is left from the cursor on. */
  lemma {:induction false} KeepFirst<N>(q: seq<N>, drop: set<N>)
    requires Distinct(q) && Keep(q, drop) != []
    ensures var n := Keep(q, drop)[0];
            n in q && n !in drop && Keep(q, drop) == [n] + Keep(From(q, Some(n))[1..], drop)
  {
    if q[0] in drop {
      assert Distinct(q[1..]);
      KeepFirst(q[1..], drop);
      var n := Keep(q, drop)[0];
      assert q == [q[0]] + q[1..];
      assert From(q, Some(n)) == From(q[1..], Some(n));
    }
  }

  lemma FromFrom<N>(q: seq<N>, c: N, n: N)
    requires Distinct(q) && c in q && n in From(q, Some(c))
    ensures From(From(q, Some(c)), Some(n)) == From(q, Some(n))
  {
    var k := IndexOf(q, c);
    var r := q[k..];
    var j := IndexOf(r, n);
    FromAt(q, k + j, n);
    DropDrop(q, k, j);
  }

  lemma FromAt<N>(q: seq<N>, k: nat, n: N)
    requires Distinct(q) && k < |q| && q[k] == n
    ensures From(q, Some(n)) == q[k..]
  {
    IndexOfUnique(q, k);
  }

  /** The loop runs the front of the queue, or ends if there is none. */
  lemma LoopServesQueue<S, N>(s: State<S, N>)
    requires Valid(s) && s.phase.Running?
    ensures var t := Resume(s);
            if Pending(s) == [] then t.phase.Idle? && t.ran == s.ran && Pending(t) == []
            else t.phase.Running? && t.ran == s.ran + [Pending(s)[0]] && Pending(t) == Pending(s)[1..]
  {
    if Pending(s) != [] {
      var q := From(s.callbacks, s.phase.cursor);
      var c := s.phase.cursor.value;
      SuffixDistinct(s.callbacks, IndexOf(s.callbacks, c));
      KeepFirst(q, s.nulls);
      var n := Pending(s)[0];
      FromFrom(s.callbacks, c, n);
      assert n in s.callbacks by {
        assert q == s.callbacks[IndexOf(s.callbacks, c)..];
      }
      RunTakesFront(s, n);
    }
  }

  lemma AddJoinsQueue<S, N>(s: State<S, N>, sub: S, node: N)
    requires Valid(s) && s.phase.Running? && sub !in s.subs && node !in s.used
    ensures Pending(AddCallback(s, sub, node)) == Pending(s) + if s.phase.cursor.Some? then [node] else []
  {
    if s.phase.cursor.Some? {
      var c := s.phase.cursor.value;
      var k := IndexOf(s.callbacks, c);
      var q := s.callbacks + [node];
      assert q[k] == c;
      assert Distinct(q);
      IndexOfUnique(q, k);
      assert q[k..] == s.callbacks[k..] + [node];
      KeepConcat(s.callbacks[k..], [node], s.nulls);
      assert node !in s.nulls;
    }
  }

  lemma CancelLeavesQueue<S, N>(s: State<S, N>, sub: S)
    requires Valid(s) && s.phase.Running? && sub in s.subs
    ensures Pending(CancelCallback(s, sub)) == Keep(Pending(s), {s.subs[sub]})
  {
    var n := s.subs[sub];
    var q := From(s.callbacks, s.phase.cursor);
    KeepKeep(q, s.nulls, {n});
    if s.kind == Once && n in s.nulls {
      assert n in s.nullCallbacks && n !in q;
      KeepSame(q, s.nulls - {n}, s.nulls + {n});
    }
  }

  // ---------------------------------------------------------------- the whole Notify

  lemma PendingIsUsed<S, N>(s: State<S, N>)
    requires Valid(s)
    ensures forall n :: n in Pending(s) ==> n in s.used
    ensures Distinct(Pending(s))
  {
    if s.phase.Running? {
      var q := From(s.callbacks, s.phase.cursor);
      KeepMembers(q, s.nulls);
      KeepDistinct(q, s.nulls);
    }
  }

  /** Later additions are new nodes; later drops hit the queue or later additions. */
  lemma {:induction false} LaterNodes<S, N>(s: State<S, N>, es: seq<Event<S, N>>)
    requires Valid(s) && DuringNotify(s, es)
    ensures forall n :: n in Enrolled(s, es) ==> n !in s.used
    ensures forall n :: n in Dropped(s, es) ==> n in Pending(s) || n !in s.used
    ensures Distinct(Enrolled(s, es))
    decreases |es|
  {
    if es != [] {
      var t := Step(s, es[0]);
      StepKeepsValid(s, es[0]);
      LaterNodes(t, es[1..]);
      assert s.used <= t.used;
      match es[0] {
        case Add(sub, node) => AddJoinsQueue(s, sub, node);
        case Cancel(sub) => CancelLeavesQueue(s, sub); KeepMembers(Pending(s), {s.subs[sub]});
        case Proceed => LoopServesQueue(s);
      }
    }
  }

  lemma CancelInQueueLaw<S, N>(s: State<S, N>, sub: S, en: seq<N>, dr: set<N>)
    requires Valid(s) && s.phase.Running? && Enabled(s, Cancel(sub)) && forall n :: n in en ==> n !in s.used
    ensures Keep(Pending(CancelCallback(s, sub)) + en, dr) == Keep(Pending(s) + en, DroppedBy(s, Cancel(sub)) + dr)
  {
    var n := s.subs[sub];
    CancelLeavesQueue(s, sub);
    assert Owned(s, n);
    DropNow(Pending(s), en, n, dr);
    assert {n} + dr == dr + {n};
    assert {} + dr == dr;
  }

  lemma LoopInQueueLaw<S, N>(s: State<S, N>, en: seq<N>, dr: set<N>)
    requires Valid(s) && s.phase.Running?
    requires forall n :: n in dr ==> n in Pending(Resume(s)) || n !in s.used
    ensures Resume(s).ran + Keep(Pending(Resume(s)) + en, dr) == s.ran + Keep(Pending(s) + en, dr)
  {
    var p := Pending(s);
    LoopServesQueue(s);
    PendingIsUsed(s);
    if p != [] {
      assert p[0] in p && p[0] !in p[1..];
      TakeFront(s.ran, p, en, dr);
    }
  }

  lemma StepInQueueLaw<S, N>(s: State<S, N>, e: Event<S, N>, en: seq<N>, dr: set<N>)
    requires Valid(s) && s.phase.Running? && Enabled(s, e)
    requires forall n :: n in en ==> n !in Step(s, e).used
    requires forall n :: n in dr ==> n in Pending(Step(s, e)) || n !in Step(s, e).used
    ensures Step(s, e).ran + Keep(Pending(Step(s, e)) + en, dr)
            == s.ran + Keep(Pending(s) + (EnrolledBy(s, e) + en), DroppedBy(s, e) + dr)
  {
    match e
    case Add(sub, node) =>
      AddInQueueLaw(s, sub, node, en);
      assert {} + dr == dr;
    case Cancel(sub) =>
      CancelInQueueLaw(s, sub, en, dr);
      assert [] + en == en;
    case Proceed =>
      LoopInQueueLaw(s, en, dr);
      assert [] + en == en && {} + dr == dr;
  }

  lemma AddInQueueLaw<S, N>(s: State<S, N>, sub: S, node: N, en: seq<N>)
    requires Valid(s) && s.phase.Running? && sub !in s.subs && node !in s.used
    ensures Pending(AddCallback(s, sub, node)) + en == Pending(s) + (EnrolledBy(s, Add(sub, node)) + en)
  {
    AddJoinsQueue(s, sub, node);
    Assoc(Pending(s), EnrolledBy(s, Add(sub, node)), en);
  }

  /** From any moment of a Notify on: what has run and what is still to run are what had run,
      followed by what was due then or was enrolled since, less what was dropped since. */
  lemma {:induction false} QueueLaw<S, N>(s: State<S, N>, es: seq<Event<S, N>>)
    requires Valid(s) && DuringNotify(s, es)
    ensures Run(s, es).ran + Pending(Run(s, es))
            == s.ran + Keep(Pending(s) + Enrolled(s, es), Dropped(s, es))
    decreases |es|
  {
    if es == [] {
      KeepAll(Pending(s), {});
      assert Pending(s) + [] == Pending(s);
    } else {
      var t := Step(s, es[0]);
      StepKeepsValid(s, es[0]);
      QueueLaw(t, es[1..]);
      LaterNodes(t, es[1..]);
      StepInQueueLaw(s, es[0], Enrolled(t, es[1..]), Dropped(t, es[1..]));
    }
  }

  /** A complete Notify runs exactly this sequence of callbacks: those registered at the start, then
      those added while the advanced cursor was not at end(), without the ones cancelled before
      their turn. No callback occurs twice. */
  lemma WholeNotify<S, N>(s: State<S, N>, es: seq<Event<S, N>>)
    requires Valid(s) && s.phase.Idle? && DuringNotify(StartNotify(s), es)
    requires Run(StartNotify(s), es).phase.Idle?
    ensures var b := StartNotify(s);
            && Run(b, es).ran == Keep(s.callbacks + Enrolled(b, es), Dropped(b, es))
            && Distinct(s.callbacks + Enrolled(b, es))
            && (forall n :: n in Enrolled(b, es) ==> n !in s.used)
  {
    var b := StartNotify(s);
    StepKeepsValid(s, Notify);
    LaterNodes(b, es);
    JoinDistinct(s.callbacks, Enrolled(b, es));
    QueueLaw(b, es);
    StartIsQueue(s);
    assert Run(b, es).ran + [] == Run(b, es).ran;
  }

  /** The same, seen from one callback: it runs in this Notify, once, exactly when it was registered
      at the start or added while the cursor was not at end(), and not cancelled before its turn. */
  lemma RunsIff<S, N>(s: State<S, N>, es: seq<Event<S, N>>, n: N)
    requires Valid(s) && s.phase.Idle? && DuringNotify(StartNotify(s), es)
    requires Run(StartNotify(s), es).phase.Idle?
    ensures var b := StartNotify(s);
            && (n in Run(b, es).ran <==> (n in s.callbacks || n in Enrolled(b, es)) && n !in Dropped(b, es))
            && Distinct(Run(b, es).ran)
  {
    WholeNotify(s, es);
    var b := StartNotify(s);
    KeepMembers(s.callbacks + Enrolled(b, es), Dropped(b, es));
    KeepDistinct(s.callbacks + Enrolled(b, es), Dropped(b, es));
  }

  lemma JoinDistinct<N>(a: seq<N>, b: seq<N>)
    requires Distinct(a) && Distinct(b) && forall n :: n in b ==> n !in a
    ensures Distinct(a + b)
  {
    forall i, j | 0 <= i < j < |a + b| ensures (a + b)[i] != (a + b)[j] {
      if i < |a| <= j {
        assert a[i] in a && b[j - |a|] in b;
      }
    }
  }

  /** At the start every registered callback is due. */
  lemma StartIsQueue<S, N>(s: State<S, N>)
    requires Valid(s) && s.phase.Idle?
    ensures Pending(StartNotify(s)) == s.callbacks
  {
    SuffixAt(s.callbacks, 0);
    assert s.callbacks[0..] == s.callbacks;
    KeepAll(s.callbacks, s.nulls);
  }
}
