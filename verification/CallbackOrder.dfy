/**
 In what order the callback list keeps and runs its callbacks. The live callbacks, which are the nodes
 of `callbacks` that are not null, are a sequence in order of registration: what a caller sees is that
 sequence, appended to and deleted from.
 */
module CallbackOrder {
  import opened Common
  import opened Sequences
  import opened CallbackListSpec
  import opened CallbackNotify

  function Live<S, N>(s: State<S, N>): seq<N> {
    Keep(s.callbacks, s.nulls)
  }

  /** The callback that a step of the loop runs, if it runs one. */
  function RunBy<S, N>(s: State<S, N>, e: Event<S, N>): set<N> {
    if e.Proceed? && Pending(s) != [] then {Pending(s)[0]} else {}
  }

  /** What a step takes off the list: a cancelled callback, or a once-callback that is run. */
  function GoneBy<S, N>(s: State<S, N>, e: Event<S, N>): set<N>
    requires Enabled(s, e)
  {
    match e
    case Cancel(sub) => {s.subs[sub]}
    case Proceed => if s.kind == Once then RunBy(s, e) else {}
    case _ => {}
  }

  function AddedBy<S, N>(e: Event<S, N>): seq<N> {
    if e.Add? then [e.node] else []
  }

  /** What a caller sees of one step: additions at the end, deletions, and nothing else. */
  function OrderStep<S, N>(m: seq<N>, s: State<S, N>, e: Event<S, N>): seq<N>
    requires Enabled(s, e)
  {
    Keep(m + AddedBy(e), GoneBy(s, e))
  }

  function OrderRun<S, N>(m: seq<N>, s: State<S, N>, es: seq<Event<S, N>>): seq<N>
    requires RunOk(s, es)
    decreases |es|
  {
    if es == [] then m else OrderRun(OrderStep(m, s, es[0]), Step(s, es[0]), es[1..])
  }

  /** The nodes registered by these events, in order, and those taken off the list. */
  function Added<S, N>(es: seq<Event<S, N>>): seq<N> {
    if es == [] then [] else AddedBy(es[0]) + Added(es[1..])
  }

  function Gone<S, N>(s: State<S, N>, es: seq<Event<S, N>>): set<N>
    requires RunOk(s, es)
    decreases |es|
  {
    if es == [] then {} else GoneBy(s, es[0]) + Gone(Step(s, es[0]), es[1..])
  }

  // ---------------------------------------------------------------- one step

  lemma LiveAdd<S, N>(s: State<S, N>, sub: S, node: N)
    requires Valid(s) && node !in s.used
    ensures Live(AddCallback(s, sub, node)) == Live(s) + [node]
  {
    KeepConcat(s.callbacks, [node], s.nulls);
    assert node !in s.nulls;
  }

  lemma LiveCancel<S, N>(s: State<S, N>, sub: S)
    requires Valid(s) && sub in s.subs
    ensures Live(CancelCallback(s, sub)) == Keep(Live(s), {s.subs[sub]})
  {
    var n, q := s.subs[sub], s.callbacks;
    KeepKeep(q, s.nulls, {n});
    if s.kind == Once && n in s.nulls {
      assert Owned(s, n);
      KeepSame(q, s.nulls - {n}, s.nulls + {n});
    } else if s.phase.Idle? {
      KeepKeep(q, {n}, s.nulls);
      assert {n} + s.nulls == s.nulls + {n};
    }
  }

  lemma LiveRun<S, N>(s: State<S, N>, n: N)
    requires n in s.callbacks
    ensures Live(RunCallback(s, n)) == if s.kind == Once then Keep(Live(s), {n}) else Live(s)
  {
    var q := s.callbacks;
    KeepKeep(q, {n}, s.nulls + {n});
    KeepKeep(q, s.nulls, {n});
    assert {n} + (s.nulls + {n}) == s.nulls + {n};
  }

  lemma LiveFinish<S, N>(s: State<S, N>)
    ensures Live(Finish(s)) == Live(s)
  {
    var rest := s.nulls - (set n | n in s.callbacks);
    KeepKeep(s.callbacks, s.nulls, rest);
    assert s.nulls + rest == s.nulls;
  }

  lemma LiveProceed<S, N>(s: State<S, N>)
    requires Valid(s) && s.phase.Running?
    ensures Live(Resume(s)) == if s.kind == Once then Keep(Live(s), RunBy(s, Event<S, N>.Proceed)) else Live(s)
  {
    var q := From(s.callbacks, s.phase.cursor);
    KeepMembers(q, s.nulls);
    if Pending(s) == [] {
      LiveFinish(s);
      KeepAll(Live(s), {});
    } else {
      assert Pending(s)[0] in Pending(s);
      LiveRun(s, Pending(s)[0]);
    }
  }

  /** One step of the list is one step of the ordered sequence. */
  lemma StepKeepsOrder<S, N>(s: State<S, N>, e: Event<S, N>)
    requires Valid(s) && Enabled(s, e)
    ensures Live(Step(s, e)) == OrderStep(Live(s), s, e)
  {
    assert Live(s) + [] == Live(s);
    KeepAll(Live(s) + AddedBy(e), {});
    match e
    case Add(sub, node) => LiveAdd(s, sub, node);
    case Cancel(sub) => LiveCancel(s, sub);
    case Notify =>
    case Proceed => LiveProceed(s);
  }

  // ---------------------------------------------------------------- runs

  lemma {:induction false} RunKeepsOrder<S, N>(s: State<S, N>, es: seq<Event<S, N>>)
    requires Valid(s) && RunOk(s, es)
    ensures Live(Run(s, es)) == OrderRun(Live(s), s, es)
    decreases |es|
  {
    if es != [] {
      StepKeepsValid(s, es[0]);
      StepKeepsOrder(s, es[0]);
      RunKeepsOrder(Step(s, es[0]), es[1..]);
    }
  }

  lemma {:induction false} AddedIsNew<S, N>(s: State<S, N>, es: seq<Event<S, N>>)
    requires RunOk(s, es)
    ensures forall n :: n in Added(es) ==> n !in s.used
    ensures Distinct(Added(es))
    decreases |es|
  {
    if es != [] {
      AddedIsNew(Step(s, es[0]), es[1..]);
      UsedGrows(s, es[0]);
    }
  }

  lemma UsedGrows<S, N>(s: State<S, N>, e: Event<S, N>)
    requires Enabled(s, e)
    ensures Step(s, e).used == s.used + set n | n in AddedBy(e)
  {
  }

  lemma LiveIsUsed<S, N>(s: State<S, N>, e: Event<S, N>)
    requires Valid(s) && Enabled(s, e)
    ensures forall n :: n in GoneBy(s, e) ==> n in s.used
    ensures forall n :: n in Live(s) ==> n in s.used
  {
    KeepMembers(s.callbacks, s.nulls);
    PendingIsUsed(s);
    if e.Cancel? {
      assert Owned(s, s.subs[e.sub]);
    } else if RunBy(s, e) != {} {
      assert Pending(s)[0] in Pending(s);
    }
  }

  /** The live callbacks are those that were live and those registered since, in this order, without
      those taken off since. */
  lemma {:induction false} LiveIsAddedLessGone<S, N>(s: State<S, N>, es: seq<Event<S, N>>)
    requires Valid(s) && RunOk(s, es)
    ensures Live(Run(s, es)) == Keep(Live(s) + Added(es), Gone(s, es))
    decreases |es|
  {
    if es == [] {
      assert Live(s) + [] == Live(s);
      KeepAll(Live(s), {});
    } else {
      var t, now, later := Step(s, es[0]), AddedBy(es[0]), Added(es[1..]);
      StepKeepsValid(s, es[0]);
      StepKeepsOrder(s, es[0]);
      LiveIsAddedLessGone(t, es[1..]);
      LiveIsUsed(s, es[0]);
      AddedIsNew(t, es[1..]);
      UsedGrows(s, es[0]);
      GoneFirst(Live(s) + now, later, GoneBy(s, es[0]), Gone(t, es[1..]));
      Assoc(Live(s), now, later);
    }
  }

  lemma GoneFirst<N>(a: seq<N>, b: seq<N>, now: set<N>, later: set<N>)
    requires forall n :: n in b ==> n !in now
    ensures Keep(Keep(a, now) + b, later) == Keep(a + b, now + later)
  {
    KeepConcat(Keep(a, now), b, later);
    KeepConcat(a, b, now + later);
    KeepKeep(a, now, later);
    KeepSame(b, later, now + later);
  }

  /** In every reachable state the live callbacks are the registered ones in order of registration,
      less the cancelled and, of a once list, those that were run; outside Notify that is the list. */
  lemma ReachableOrder<S, N>(kind: Kind, es: seq<Event<S, N>>)
    requires RunOk(Init<S, N>(kind), es)
    ensures var s := Run(Init<S, N>(kind), es);
            && Live(s) == Keep(Added(es), Gone(Init<S, N>(kind), es))
            && Live(s) == OrderRun([], Init<S, N>(kind), es)
            && (s.phase.Idle? ==> s.callbacks == Live(s))
  {
    var s0: State<S, N> := Init(kind);
    RunKeepsOrder(s0, es);
    RunIsValid(s0, es);
    LiveIsAddedLessGone(s0, es);
    assert Live(s0) + Added(es) == Added(es);
    if Run(s0, es).phase.Idle? {
      KeepAll(Run(s0, es).callbacks, Run(s0, es).nulls);
    }
  }

  // ---------------------------------------------------------------- the order of the calls

  ghost predicate Precedes<N>(q: seq<N>, a: N, b: N) {
    exists i, j :: 0 <= i < j < |q| && q[i] == a && q[j] == b
  }

  lemma PrecedesCons<N>(x: N, q: seq<N>, a: N, b: N)
    ensures Precedes([x] + q, a, b) <==> (x == a && b in q) || Precedes(q, a, b)
  {
    var p := [x] + q;
    assert forall k :: 0 <= k < |q| ==> p[k + 1] == q[k];
    if Precedes(p, a, b) {
      var i, j :| 0 <= i < j < |p| && p[i] == a && p[j] == b;
      assert q[j - 1] == b;
      if i > 0 {
        assert q[i - 1] == a;
      }
    }
    if x == a && b in q {
      var j :| 0 <= j < |q| && q[j] == b;
      assert p[0] == a && p[j + 1] == b;
    }
    if Precedes(q, a, b) {
      var i, j :| 0 <= i < j < |q| && q[i] == a && q[j] == b;
      assert p[i + 1] == a && p[j + 1] == b;
    }
  }

  lemma {:induction false} KeepPrecedes<N>(q: seq<N>, drop: set<N>, a: N, b: N)
    requires Precedes(Keep(q, drop), a, b)
    ensures Precedes(q, a, b)
  {
    if q != [] {
      assert q == [q[0]] + q[1..];
      PrecedesCons(q[0], q[1..], a, b);
      if q[0] in drop {
        KeepPrecedes(q[1..], drop, a, b);
      } else {
        PrecedesCons(q[0], Keep(q[1..], drop), a, b);
        KeepMembers(q[1..], drop);
        if Precedes(Keep(q[1..], drop), a, b) {
          KeepPrecedes(q[1..], drop, a, b);
        }
      }
    }
  }

  /** What is enrolled in a Notify is some of what is registered during it, in order. */
  lemma {:induction false} EnrolledOfAdded<S, N>(s: State<S, N>, es: seq<Event<S, N>>) returns (late: set<N>)
    requires DuringNotify(s, es)
    ensures Enrolled(s, es) == Keep(Added(es), late)
    ensures forall n :: n in late ==> n in Added(es)
    decreases |es|
  {
    if es == [] {
      late := {};
    } else {
      var t := Step(s, es[0]);
      AddedIsNew(s, es);
      var rest := EnrolledOfAdded(t, es[1..]);
      var now := AddedBy(es[0]);
      late := rest + if EnrolledBy(s, es[0]) == [] then set n | n in now else {};
      KeepConcat(now, Added(es[1..]), late);
      AddedIsNew(t, es[1..]);
      UsedGrows(s, es[0]);
      KeepSame(Added(es[1..]), rest, late);
      NowOrLate(now, Added(es[1..]), EnrolledBy(s, es[0]), rest, late);
    }
  }

  lemma NowOrLate<N>(now: seq<N>, after: seq<N>, enrolled: seq<N>, rest: set<N>, late: set<N>)
    requires |now| <= 1 && (enrolled == [] || enrolled == now)
    requires (forall n :: n in rest ==> n in after) && forall n :: n in now ==> n !in after
    requires late == rest + if enrolled == [] then set n | n in now else {}
    ensures Keep(now, late) == enrolled
  {
    if now != [] {
      assert now[0] in now;
      assert now[1..] == [];
    }
  }

  /** After any run, whatever the callbacks of a Notify do: two callbacks that it runs are run in the
      order in which they were registered, before or during that Notify. */
  lemma InOrderOfRegistration<S, N>(kind: Kind, es: seq<Event<S, N>>, fs: seq<Event<S, N>>, a: N, b: N)
    requires RunOk(Init<S, N>(kind), es) && Run(Init<S, N>(kind), es).phase.Idle?
    requires DuringNotify(StartNotify(Run(Init<S, N>(kind), es)), fs)
    requires Run(StartNotify(Run(Init<S, N>(kind), es)), fs).phase.Idle?
    requires Precedes(Run(StartNotify(Run(Init<S, N>(kind), es)), fs).ran, a, b)
    ensures Precedes(Added(es) + Added(fs), a, b) && Distinct(Added(es) + Added(fs))
  {
    var s0: State<S, N> := Init(kind);
    var s := Run(s0, es);
    var t := StartNotify(s);
    RunIsValid(s0, es);
    ReachableOrder(kind, es);
    WholeNotify(s, fs);
    KeepPrecedes(s.callbacks + Enrolled(t, fs), Dropped(t, fs), a, b);
    var late := EnrolledOfAdded(t, fs);
    RegisteredBefore(s0, es, fs, t);
    var gone := Gone(s0, es);
    KeepBoth(Added(es), gone, Added(fs), late, a, b);
  }

  lemma {:induction false} AddedIsUsed<S, N>(s: State<S, N>, es: seq<Event<S, N>>)
    requires RunOk(s, es)
    ensures forall n :: n in Added(es) ==> n in Run(s, es).used
    ensures s.used <= Run(s, es).used
    decreases |es|
  {
    if es != [] {
      UsedGrows(s, es[0]);
      AddedIsUsed(Step(s, es[0]), es[1..]);
    }
  }

  lemma RegisteredBefore<S, N>(s: State<S, N>, es: seq<Event<S, N>>, fs: seq<Event<S, N>>, t: State<S, N>)
    requires RunOk(s, es) && RunOk(t, fs) && t.used == Run(s, es).used
    ensures Distinct(Added(es) + Added(fs))
  {
    AddedIsNew(s, es);
    AddedIsUsed(s, es);
    AddedIsNew(t, fs);
    JoinDistinct(Added(es), Added(fs));
  }

  lemma KeepBoth<N>(p: seq<N>, x: set<N>, q: seq<N>, y: set<N>, a: N, b: N)
    requires Precedes(Keep(p, x) + Keep(q, y), a, b)
    ensures Precedes(p + q, a, b)
  {
    var k, m := Keep(p, x), Keep(q, y);
    var i, j :| 0 <= i < j < |k + m| && (k + m)[i] == a && (k + m)[j] == b;
    KeepMembers(p, x);
    KeepMembers(q, y);
    if j < |k| {
      assert k[i] == a && k[j] == b;
      KeepPrecedes(p, x, a, b);
      var c, d :| 0 <= c < d < |p| && p[c] == a && p[d] == b;
      assert (p + q)[c] == a && (p + q)[d] == b;
    } else if i >= |k| {
      assert m[i - |k|] == a && m[j - |k|] == b;
      KeepPrecedes(q, y, a, b);
      var c, d :| 0 <= c < d < |q| && q[c] == a && q[d] == b;
      assert (p + q)[|p| + c] == a && (p + q)[|p| + d] == b;
    } else {
      assert k[i] in p && m[j - |k|] in q;
      var c :| 0 <= c < |p| && p[c] == a;
      var d :| 0 <= d < |q| && q[d] == b;
      assert (p + q)[c] == a && (p + q)[|p| + d] == b;
    }
  }
}
