/**
 Whole loops over an observer list. A loop is the state right after `begin()` followed by rounds;
 in each round the loop body performs any operations at all except on the loop's own iterator
 (adds, removals, clears, complete or abandoned nested loops, copies of any iterator), and then
 the iterator is incremented. Nothing is assumed about how rounds of different loops interleave.
 */
module ObserverLoops {
  import opened Common
  import opened ObserverListSpec

  datatype Visit = Visit(slot: nat, observer: Pointer)

  function Position<I>(s: State<I>, i: I): nat {
    if i in s.cursors then s.cursors[i].index else 0
  }

  function Content(slots: seq<Pointer>, k: nat): Pointer {
    if k < |slots| then slots[k] else NULL
  }

  function AfterRound<I>(s: State<I>, i: I, body: seq<Event<I>>): State<I> {
    Advance(Run(s, body), i)
  }

  /** `rounds` is a possible course of a loop of iterator `i` that is about to test for the end. */
  ghost predicate LoopOk<I>(s: State<I>, i: I, rounds: seq<seq<Event<I>>>)
    decreases |rounds|
  {
    rounds != [] ==>
      && !AtEnd(s, i)
      && RunOk(s, rounds[0])
      && (forall e :: e in rounds[0] ==> Spares(e, i))
      && LoopOk(AfterRound(s, i, rounds[0]), i, rounds[1..])
  }

  function LoopEnd<I>(s: State<I>, i: I, rounds: seq<seq<Event<I>>>): State<I>
    decreases |rounds|
  {
    if rounds == [] then s else LoopEnd(AfterRound(s, i, rounds[0]), i, rounds[1..])
  }

  ghost predicate Complete<I>(s: State<I>, i: I, rounds: seq<seq<Event<I>>>) {
    LoopOk(s, i, rounds) && AtEnd(LoopEnd(s, i, rounds), i)
  }

  /** The callbacks the loop makes, in order. */
  function Visits<I>(s: State<I>, i: I, rounds: seq<seq<Event<I>>>): seq<Visit>
    decreases |rounds|
  {
    if rounds == [] then []
    else [Visit(Position(s, i), Content(s.slots, Position(s, i)))]
         + Visits(AfterRound(s, i, rounds[0]), i, rounds[1..])
  }

  /** The state in which the cursor first reaches or passes slot `k`. */
  function TurnState<I>(s: State<I>, i: I, rounds: seq<seq<Event<I>>>, k: nat): State<I>
    decreases |rounds|
  {
    if rounds == [] || k <= Position(s, i) then s
    else TurnState(AfterRound(s, i, rounds[0]), i, rounds[1..], k)
  }

  ghost predicate VisitsSlot(vs: seq<Visit>, k: nat) {
    exists j :: 0 <= j < |vs| && vs[j].slot == k
  }

  function Count(vs: seq<Visit>, o: Pointer): nat {
    if vs == [] then 0 else (if vs[0].observer == o then 1 else 0) + Count(vs[1..], o)
  }

  /** The state of a loop that is about to test for the end. */
  ghost predicate Head<I>(s: State<I>, i: I) {
    && Valid(s)
    && i in s.cursors
    && (!AtEnd(s, i) ==> s.slots[s.cursors[i].index] != NULL)
  }

  /** One round: the cursor moves forward over marked slots only. */
  lemma RoundMoves<I>(s: State<I>, i: I, body: seq<Event<I>>)
    requires Head(s, i) && !AtEnd(s, i) && RunOk(s, body) && forall e :: e in body ==> Spares(e, i)
    ensures var t := AfterRound(s, i, body);
            && Head(t, i)
            && Grows(s.slots, t.slots)
            && t.cursors[i].bound == s.cursors[i].bound
            && s.cursors[i].index < t.cursors[i].index
            && (forall k :: s.cursors[i].index < k < t.cursors[i].index ==> t.slots[k] == NULL)
            && t.policy == s.policy
  {
    RunRefinesSet(s, body);
    RunUnderLiveIterator(s, body, i);
    StepKeepsValid(Run(s, body), Next(i));
  }

  // ---------------------------------------------------------------- which slots are visited

  lemma {:induction false} LoopMoves<I>(s: State<I>, i: I, rounds: seq<seq<Event<I>>>)
    requires Head(s, i) && LoopOk(s, i, rounds)
    ensures var f := LoopEnd(s, i, rounds);
            && Head(f, i)
            && Grows(s.slots, f.slots)
            && f.cursors[i].bound == s.cursors[i].bound
            && Position(s, i) <= Position(f, i)
    decreases |rounds|
  {
    if rounds != [] {
      RoundMoves(s, i, rounds[0]);
      var t := AfterRound(s, i, rounds[0]);
      LoopMoves(t, i, rounds[1..]);
      var f := LoopEnd(t, i, rounds[1..]);
      forall k | 0 <= k < |s.slots| ensures f.slots[k] == s.slots[k] || f.slots[k] == NULL {
        assert t.slots[k] == s.slots[k] || t.slots[k] == NULL;
      }
    }
  }

  ghost predicate Increasing(vs: seq<Visit>) {
    forall a, b :: 0 <= a < b < |vs| ==> vs[a].slot < vs[b].slot
  }

  ghost predicate Within(vs: seq<Visit>, lo: nat, hi: nat) {
    forall v :: v in vs ==> lo <= v.slot < hi
  }

  /** Every visit finds the observer that its slot holds at its turn, which is not null. */
  ghost predicate AsAtTurn<I>(s: State<I>, i: I, rounds: seq<seq<Event<I>>>, vs: seq<Visit>) {
    forall v :: v in vs ==> v.observer == Content(TurnState(s, i, rounds, v.slot).slots, v.slot) != NULL
  }

  lemma {:induction false} VisitsInOrder<I>(s: State<I>, i: I, rounds: seq<seq<Event<I>>>)
    requires Head(s, i) && LoopOk(s, i, rounds)
    ensures var vs := Visits(s, i, rounds);
            && Increasing(vs)
            && Within(vs, Position(s, i), Position(LoopEnd(s, i, rounds), i))
            && AsAtTurn(s, i, rounds, vs)
    decreases |rounds|
  {
    if rounds != [] {
      RoundMoves(s, i, rounds[0]);
      var t := AfterRound(s, i, rounds[0]);
      VisitsInOrder(t, i, rounds[1..]);
      LoopMoves(t, i, rounds[1..]);
      var us, vs := Visits(t, i, rounds[1..]), Visits(s, i, rounds);
      assert vs == [vs[0]] + us;
      assert forall b :: 0 < b < |vs| ==> vs[b] in us;
      assert AsAtTurn(s, i, rounds, us);
    }
  }

  /** A slot that the cursor passes is visited exactly when it is unmarked at its turn. */
  lemma {:induction false} VisitedIffUnmarked<I>(s: State<I>, i: I, rounds: seq<seq<Event<I>>>, k: nat)
    requires Head(s, i) && LoopOk(s, i, rounds)
    requires Position(s, i) <= k < Position(LoopEnd(s, i, rounds), i)
    ensures VisitsSlot(Visits(s, i, rounds), k) <==> Content(TurnState(s, i, rounds, k).slots, k) != NULL
    decreases |rounds|
  {
    if rounds != [] {
      RoundMoves(s, i, rounds[0]);
      var t := AfterRound(s, i, rounds[0]);
      var us, vs := Visits(t, i, rounds[1..]), Visits(s, i, rounds);
      SlotOfTail(vs[0], us, k);
      assert vs == [vs[0]] + us;
      VisitsInOrder(t, i, rounds[1..]);
      if Position(t, i) <= k {
        VisitedIffUnmarked(t, i, rounds[1..], k);
      } else if Position(s, i) < k {
        assert TurnState(s, i, rounds, k) == TurnState(t, i, rounds[1..], k) == t;
        assert Content(t.slots, k) == NULL;
      }
    }
  }

  lemma SlotOfTail(v: Visit, us: seq<Visit>, k: nat)
    ensures VisitsSlot([v] + us, k) <==> v.slot == k || VisitsSlot(us, k)
  {
    var vs := [v] + us;
    assert vs[0] == v;
    if VisitsSlot(us, k) {
      var j :| 0 <= j < |us| && us[j].slot == k;
      assert vs[j + 1].slot == k;
    }
    if VisitsSlot(vs, k) && v.slot != k {
      var j :| 0 <= j < |vs| && vs[j].slot == k;
      assert us[j - 1].slot == k;
    }
  }

  lemma BeginsAtHead<I>(s: State<I>, i: I)
    requires Valid(s) && i !in s.cursors
    ensures var b := AttachCursor(s, i);
            && Head(b, i)
            && b.slots == s.slots
            && b.cursors[i].bound == InitialBound(s.policy, |s.slots|)
            && (forall k :: 0 <= k < b.cursors[i].index ==> s.slots[k] == NULL)
  {
    StepKeepsValid(s, Construct(i));
  }

  /** The slots that a complete loop of an attached iterator passes: under ALL all that exist when the
      loop ends, under EXISTING_ONLY those that existed when it began. */
  function Range<I>(s: State<I>, i: I, rounds: seq<seq<Event<I>>>): nat {
    if s.policy == All then |LoopEnd(AttachCursor(s, i), i, rounds).slots| else |s.slots|
  }

  /** A complete loop of an iterator constructed from the list in any valid state visits, in slot order
      and each once, exactly the slots in its range that are unmarked when the cursor reaches them. */
  lemma CompleteAttachedLoop<I>(s: State<I>, i: I, rounds: seq<seq<Event<I>>>)
    requires Valid(s) && i !in s.cursors && Complete(AttachCursor(s, i), i, rounds)
    ensures var b := AttachCursor(s, i);
            var vs := Visits(b, i, rounds);
            && Increasing(vs)
            && AsAtTurn(b, i, rounds, vs)
            && (forall k: nat :: VisitsSlot(vs, k) <==>
                                   k < Range(s, i, rounds) && Content(TurnState(b, i, rounds, k).slots, k) != NULL)
  {
    var b := AttachCursor(s, i);
    BeginsAtHead(s, i);
    VisitsInOrder(b, i, rounds);
    LoopMoves(b, i, rounds);
    var vs, f := Visits(b, i, rounds), LoopEnd(b, i, rounds);
    forall k: nat
      ensures VisitsSlot(vs, k) <==>
                k < Position(f, i) && Content(TurnState(b, i, rounds, k).slots, k) != NULL
    {
      if Position(b, i) <= k < Position(f, i) {
        VisitedIffUnmarked(b, i, rounds, k);
      } else if k < Position(b, i) {
        assert TurnState(b, i, rounds, k) == b;
        assert s.slots[k] == NULL;
      }
    }
  }

  /** The same for a loop from begin(), which visits nothing if the list is empty when it begins. */
  lemma CompleteLoop<I>(s: State<I>, i: I, rounds: seq<seq<Event<I>>>)
    requires Valid(s) && i !in s.cursors && Complete(BeginLoop(s, i), i, rounds)
    ensures var b := BeginLoop(s, i);
            var vs := Visits(b, i, rounds);
            var range := if s.slots == [] then 0 else Range(s, i, rounds);
            && Increasing(vs)
            && AsAtTurn(b, i, rounds, vs)
            && (forall k: nat :: VisitsSlot(vs, k) <==>
                                   k < range && Content(TurnState(b, i, rounds, k).slots, k) != NULL)
  {
    if s.slots != [] {
      CompleteAttachedLoop(s, i, rounds);
    }
  }

  /** An iterator constructed from an empty list and one from its begin() differ: under ALL the first
      sees an observer that is added next, the second is at the end for good. */
  lemma EmptyListIterators<I>(s: State<I>, i: I, o: Pointer)
    requires s.slots == [] && i !in s.cursors && o != NULL
    ensures var t := AddObserver(AttachCursor(s, i), o);
            && i in t.cursors && t.cursors[i].index == 0 && t.slots == [o]
            && (AtEnd(t, i) <==> s.policy == ExistingOnly)
    ensures AtEnd(AddObserver(BeginLoop(s, i), o), i)
  {
  }

  // ---------------------------------------------------------------- how long a loop can be

  lemma {:induction false} RoundsAdvance<I>(s: State<I>, i: I, rounds: seq<seq<Event<I>>>)
    requires Head(s, i) && LoopOk(s, i, rounds)
    ensures Position(s, i) + |rounds| <= Position(LoopEnd(s, i, rounds), i)
    decreases |rounds|
  {
    if rounds != [] {
      RoundMoves(s, i, rounds[0]);
      RoundsAdvance(AfterRound(s, i, rounds[0]), i, rounds[1..]);
    }
  }

  /** Any course of a loop, complete or not, has at most as many rounds as there were slots when it
      began under EXISTING_ONLY, whatever the callbacks do; under ALL as there are slots now, so it
      goes on only as long as callbacks keep adding observers. */
  lemma LoopIsBounded<I>(s: State<I>, i: I, rounds: seq<seq<Event<I>>>)
    requires Valid(s) && i !in s.cursors && LoopOk(AttachCursor(s, i), i, rounds)
    ensures |rounds| <= Range(s, i, rounds)
  {
    BeginsAtHead(s, i);
    LoopMoves(AttachCursor(s, i), i, rounds);
    RoundsAdvance(AttachCursor(s, i), i, rounds);
  }

  // ---------------------------------------------------------------- observers that stay

  predicate Removes<I>(e: Event<I>, o: Pointer) {
    e.Clear? || (e.Remove? && e.o == o)
  }

  ghost predicate NeverRemoved<I>(rounds: seq<seq<Event<I>>>, o: Pointer) {
    forall body, e :: body in rounds && e in body ==> !Removes(e, o)
  }

  lemma {:induction false} StaysInSlot<I>(s: State<I>, es: seq<Event<I>>, i: I, o: Pointer, k: nat)
    requires i in s.cursors && (forall e :: e in es ==> Spares(e, i) && !Removes(e, o))
    requires k < |s.slots| && s.slots[k] == o
    ensures k < |Run(s, es).slots| && Run(s, es).slots[k] == o
    decreases |es|
  {
    if es != [] {
      assert es[0] in es;
      StepUnderLiveIterator(s, es[0], i);
      assert forall e :: e in es[1..] ==> e in es;
      StaysInSlot(Step(s, es[0]), es[1..], i, o, k);
    }
  }

  /** An observer that sits in slot `k` at some point of a loop and is not removed until the loop
      ends is called exactly once from then on if its slot is still ahead and within the loop's
      bound, and not at all otherwise. */
  lemma {:induction false} StayingObserver<I>(s: State<I>, i: I, rounds: seq<seq<Event<I>>>, o: Pointer, k: nat)
    requires Head(s, i) && Complete(s, i, rounds) && NeverRemoved(rounds, o)
    requires o != NULL && k < |s.slots| && s.slots[k] == o
    ensures Count(Visits(s, i, rounds), o) ==
            if Position(s, i) <= k < Clamp(s.cursors[i].bound, |s.slots|) then 1 else 0
    decreases |rounds|
  {
    if rounds != [] {
      var t := AfterRound(s, i, rounds[0]);
      RoundMoves(s, i, rounds[0]);
      assert rounds[0] in rounds;
      StaysInSlot(s, rounds[0], i, o, k);
      assert forall body :: body in rounds[1..] ==> body in rounds;
      StayingObserver(t, i, rounds[1..], o, k);
      assert Visits(s, i, rounds)[1..] == Visits(t, i, rounds[1..]);
      assert s.slots[Position(s, i)] == o ==> Position(s, i) == k;
    }
  }

  /** Registered when the loop begins and not removed until it ends: visited exactly once. */
  lemma RegisteredThroughout<I>(s: State<I>, i: I, rounds: seq<seq<Event<I>>>, o: Pointer)
    requires Valid(s) && i !in s.cursors && Complete(BeginLoop(s, i), i, rounds)
    requires HasObserver(s, o) && NeverRemoved(rounds, o)
    ensures Count(Visits(BeginLoop(s, i), i, rounds), o) == 1
  {
    BeginsAtHead(s, i);
    StayingObserver(BeginLoop(s, i), i, rounds, o, Find(s.slots, o));
  }

  /** Added in some callback of the loop, the last one included, and then kept: visited exactly once
      in the rest of the loop under ALL and never under EXISTING_ONLY. */
  lemma AddedDuringLoop<I>(s: State<I>, i: I, body: seq<Event<I>>, rest: seq<seq<Event<I>>>, o: Pointer)
    requires Head(s, i) && Complete(s, i, [body] + rest)
    requires !HasObserver(s, o) && HasObserver(Run(s, body), o) && NeverRemoved(rest, o)
    ensures Count(Visits(AfterRound(s, i, body), i, rest), o) == if s.policy == All then 1 else 0
  {
    assert ([body] + rest)[1..] == rest;
    var t := AfterRound(s, i, body);
    RoundMoves(s, i, body);
    var k := Find(t.slots, o);
    assert forall j :: 0 <= j < |s.slots| ==> s.slots[j] != o;
    assert Position(t, i) <= k;
    StayingObserver(t, i, rest, o, k);
  }

  // ---------------------------------------------------------------- observers that are gone

  lemma {:induction false} StaysAbsent<I>(s: State<I>, es: seq<Event<I>>, o: Pointer)
    requires o != NULL && o !in s.slots && (forall e :: e in es ==> e != Add(o))
    ensures o !in Run(s, es).slots
    decreases |es|
  {
    if es != [] {
      assert es[0] in es;
      CompactedContents(s.slots);
      assert forall e :: e in es[1..] ==> e in es;
      StaysAbsent(Step(s, es[0]), es[1..], o);
    }
  }

  /** Not in the list at some point of a loop, because it was removed before its turn or was never
      there, and not added again: not called from then on. */
  lemma {:induction false} AbsentObserver<I>(s: State<I>, i: I, rounds: seq<seq<Event<I>>>, o: Pointer)
    requires Head(s, i) && LoopOk(s, i, rounds) && o != NULL && !HasObserver(s, o)
    requires forall body, e :: body in rounds && e in body ==> e != Add(o)
    ensures Count(Visits(s, i, rounds), o) == 0
    decreases |rounds|
  {
    if rounds != [] {
      var t := AfterRound(s, i, rounds[0]);
      RoundMoves(s, i, rounds[0]);
      assert rounds[0] in rounds;
      assert o !in s.slots;
      StaysAbsent(s, rounds[0], o);
      assert forall body :: body in rounds[1..] ==> body in rounds;
      AbsentObserver(t, i, rounds[1..], o);
      assert Visits(s, i, rounds)[1..] == Visits(t, i, rounds[1..]);
    }
  }
}
