/**
 The observer list as a value: a vector of slots, some of them marked for removal, and the
 cursors of the iterators that are attached to the list. Every operation of `ObserverList` and of
 `ObserverList::Iter` is a function on this state; the classes in ObserverList.dfy are proved to
 perform exactly these functions, and the theorems about runs are proved here and in
 ObserverLoops.dfy.

 `I` is the type of iterator identities.
 */
module ObserverListSpec {
  import opened Common
  import opened Sequences

  /** A raw pointer. A marked slot of an unchecked list is a null pointer. */
  type Pointer = nat
  const NULL: Pointer := 0

  /** `max_index_`: no bound (the largest size_t, which no vector reaches) or a fixed index. */
  datatype Bound = Unbounded | Limit(n: nat)

  datatype Cursor = Cursor(index: nat, bound: Bound)

  datatype State<I(==)> = State(policy: Policy, slots: seq<Pointer>, cursors: map<I, Cursor>)

  datatype Event<I> =
    | Add(o: Pointer)
    | Remove(o: Pointer)
    | Clear
    | Construct(i: I)      // Iter(&list)
    | Begin(i: I)
    | Next(i: I)
    | Copy(src: I, dst: I)
    | Assign(dst: I, src: I)
    | Drop(i: I)

  // ---------------------------------------------------------------- cursors

  function Clamp(bound: Bound, size: nat): nat {
    if bound.Limit? && bound.n < size then bound.n else size
  }

  /** The first index from `i` on that is unmarked, or `hi`. */
  function Skip(slots: seq<Pointer>, i: nat, hi: nat): (r: nat)
    requires hi <= |slots|
    ensures i <= r && (i <= hi ==> r <= hi)
    ensures forall k :: i <= k < r ==> k < hi && slots[k] == NULL
    ensures r < hi ==> slots[r] != NULL
    decreases hi - i
  {
    if i < hi && slots[i] == NULL then Skip(slots, i + 1, hi) else i
  }

  function InitialBound(policy: Policy, size: nat): Bound {
    if policy == All then Unbounded else Limit(size)
  }

  predicate AtEnd<I>(s: State<I>, i: I) {
    i !in s.cursors || s.cursors[i].index == Clamp(s.cursors[i].bound, |s.slots|)
  }

  // ---------------------------------------------------------------- operations

  function Compacted(slots: seq<Pointer>): seq<Pointer> {
    if slots == [] then []
    else if slots[0] == NULL then Compacted(slots[1..])
    else [slots[0]] + Compacted(slots[1..])
  }

  /** The index of the first slot equal to `o`, or the size of the vector. */
  function Find(slots: seq<Pointer>, o: Pointer): (r: nat)
    ensures r <= |slots|
    ensures r < |slots| ==> slots[r] == o
    ensures forall k :: 0 <= k < r ==> slots[k] != o
  {
    if slots == [] || slots[0] == o then 0 else 1 + Find(slots[1..], o)
  }

  predicate HasObserver<I>(s: State<I>, o: Pointer) {
    o != NULL && Find(s.slots, o) < |s.slots|
  }

  function AddObserver<I>(s: State<I>, o: Pointer): State<I> {
    if HasObserver(s, o) then s else s.(slots := s.slots + [o])
  }

  function RemoveObserver<I>(s: State<I>, o: Pointer): State<I> {
    var k := Find(s.slots, o);
    if k == |s.slots| then s
    else if s.cursors == map[] then s.(slots := s.slots[..k] + s.slots[k + 1..])
    else s.(slots := s.slots[k := NULL])
  }

  function ClearAll<I>(s: State<I>): State<I> {
    if s.cursors == map[] then s.(slots := []) else s.(slots := seq(|s.slots|, _ => NULL))
  }

  /** The iterator constructed from a list is attached to it, even if the list is empty. */
  function AttachCursor<I>(s: State<I>, i: I): State<I> {
    var bound := InitialBound(s.policy, |s.slots|);
    s.(cursors := s.cursors[i := Cursor(Skip(s.slots, 0, Clamp(bound, |s.slots|)), bound)])
  }

  /** `begin()`: an empty list hands out an iterator that is not attached. */
  function BeginLoop<I>(s: State<I>, i: I): State<I> {
    if s.slots == [] then s else AttachCursor(s, i)
  }

  function Advance<I>(s: State<I>, i: I): State<I> {
    if i !in s.cursors then s else
      var c := s.cursors[i];
      s.(cursors := s.cursors[i := c.(index := Skip(s.slots, c.index + 1, Clamp(c.bound, |s.slots|)))])
  }

  /** Detaching an iterator; the last one to leave compacts the vector. */
  function Detach<I>(s: State<I>, i: I): State<I> {
    if i !in s.cursors then s
    else s.(slots := if s.cursors.Keys == {i} then Compacted(s.slots) else s.slots, cursors := s.cursors - {i})
  }

  function CopyCursor<I>(s: State<I>, src: I, dst: I): State<I> {
    if src in s.cursors then s.(cursors := s.cursors[dst := s.cursors[src]]) else s
  }

  function AssignCursor<I>(s: State<I>, dst: I, src: I): State<I> {
    if dst == src then s else CopyCursor(Detach(s, dst), src, dst)
  }

  // ---------------------------------------------------------------- runs

  function Init<I>(policy: Policy): State<I> {
    State(policy, [], map[])
  }

  /** What the callers must respect: no null observers, iterators are constructed once, and an
      attached iterator is not incremented past the end. */
  predicate Enabled<I>(s: State<I>, e: Event<I>) {
    match e
    case Add(o) => o != NULL
    case Remove(o) => o != NULL
    case Construct(i) => i !in s.cursors
    case Begin(i) => i !in s.cursors
    case Next(i) => i in s.cursors ==> !AtEnd(s, i)
    case Copy(_, dst) => dst !in s.cursors
    case _ => true
  }

  function Step<I>(s: State<I>, e: Event<I>): State<I> {
    match e
    case Add(o) => AddObserver(s, o)
    case Remove(o) => RemoveObserver(s, o)
    case Clear => ClearAll(s)
    case Construct(i) => AttachCursor(s, i)
    case Begin(i) => BeginLoop(s, i)
    case Next(i) => Advance(s, i)
    case Copy(src, dst) => CopyCursor(s, src, dst)
    case Assign(dst, src) => AssignCursor(s, dst, src)
    case Drop(i) => Detach(s, i)
  }

  function Run<I>(s: State<I>, es: seq<Event<I>>): State<I>
    decreases |es|
  {
    if es == [] then s else Run(Step(s, es[0]), es[1..])
  }

  predicate RunOk<I>(s: State<I>, es: seq<Event<I>>)
    decreases |es|
  {
    es != [] ==> Enabled(s, es[0]) && RunOk(Step(s, es[0]), es[1..])
  }

  // ---------------------------------------------------------------- the invariant

  ghost predicate UnmarkedDistinct(slots: seq<Pointer>) {
    forall i, j :: 0 <= i < j < |slots| && slots[i] == slots[j] ==> slots[i] == NULL
  }

  ghost predicate InRange(c: Cursor, policy: Policy, size: nat) {
    && c.index <= Clamp(c.bound, size)
    && (c.bound.Unbounded? <==> policy == All)
    && (c.bound.Limit? ==> c.bound.n <= size)
  }

  ghost predicate Valid<I>(s: State<I>) {
    && UnmarkedDistinct(s.slots)
    && (s.cursors == map[] ==> NULL !in s.slots)
    && (forall i :: i in s.cursors ==> InRange(s.cursors[i], s.policy, |s.slots|))
  }

  lemma {:induction false} CompactedContents(slots: seq<Pointer>)
    ensures NULL !in Compacted(slots)
    ensures forall o :: o != NULL ==> (o in Compacted(slots) <==> o in slots)
    ensures UnmarkedDistinct(slots) ==> UnmarkedDistinct(Compacted(slots))
    ensures |Compacted(slots)| <= |slots|
  {
    if slots != [] {
      CompactedContents(slots[1..]);
      assert slots == [slots[0]] + slots[1..];
      if UnmarkedDistinct(slots) {
        assert UnmarkedDistinct(slots[1..]) by {
          forall i, j | 0 <= i < j < |slots[1..]| && slots[1..][i] == slots[1..][j]
            ensures slots[1..][i] == NULL
          {
            assert slots[i + 1] == slots[j + 1];
          }
        }
        if slots[0] != NULL {
          assert forall j :: 0 <= j < |slots[1..]| ==> slots[1..][j] == slots[j + 1] != slots[0];
          assert slots[0] !in slots[1..];
        }
      }
    }
  }

  /** The invariant is kept by every operation that a caller may perform. */
  lemma StepKeepsValid<I>(s: State<I>, e: Event<I>)
    requires Valid(s) && Enabled(s, e)
    ensures Valid(Step(s, e))
  {
    match e
    case Add(o) => AddKeepsValid(s, o);
    case Remove(o) => RemoveKeepsValid(s, o);
    case Clear => ClearKeepsValid(s);
    case Drop(i) => DetachKeepsValid(s, i);
    case Assign(dst, src) => DetachKeepsValid(s, dst);
    case _ =>
  }

  lemma AddKeepsValid<I>(s: State<I>, o: Pointer)
    requires Valid(s) && o != NULL
    ensures Valid(AddObserver(s, o))
  {
  }

  lemma RemoveKeepsValid<I>(s: State<I>, o: Pointer)
    requires Valid(s) && o != NULL
    ensures Valid(RemoveObserver(s, o))
  {
  }

  lemma ClearKeepsValid<I>(s: State<I>)
    requires Valid(s)
    ensures Valid(ClearAll(s))
  {
  }

  lemma DetachKeepsValid<I>(s: State<I>, i: I)
    requires Valid(s)
    ensures Valid(Detach(s, i))
  {
    CompactedContents(s.slots);
    if i in s.cursors && s.cursors.Keys == {i} {
      assert (s.cursors - {i}).Keys == {};
    } else if i in s.cursors {
      var j :| j in s.cursors && j != i;
      assert j in s.cursors - {i};
    }
  }

  /** Incrementing an attached iterator that is at the end is the one thing that takes a cursor
      out of range; the comparison with end() then no longer recognises the end. */
  lemma AdvanceStaysInRangeIff<I>(s: State<I>, i: I)
    requires Valid(s)
    ensures Valid(Advance(s, i)) <==> (i in s.cursors ==> !AtEnd(s, i))
    ensures i in s.cursors && AtEnd(s, i) ==> !AtEnd(Advance(s, i), i)
  {
    if i in s.cursors && AtEnd(s, i) {
      assert !InRange(Advance(s, i).cursors[i], s.policy, |s.slots|);
    } else {
      StepKeepsValid(s, Next(i));
    }
  }

  /** One observer and a loop that has visited it: the iterator is attached and at its end, and one
      more increment takes it past the vector, where the end is not recognised. */
  lemma PastTheEnd<I>(policy: Policy, o: Pointer, i: I)
    requires o != NULL
    ensures var es := [Add(o), Begin(i), Next(i)];
            && RunOk(Init<I>(policy), es)
            && var s := Run(Init<I>(policy), es);
               && i in s.cursors && AtEnd(s, i)
               && Advance(s, i).cursors[i].index == 2 > |s.slots|
               && !AtEnd(Advance(s, i), i)
  {
    var s0: State<I> := Init(policy);
    var s1, bound := s0.(slots := [o]), InitialBound(policy, 1);
    var s2, s3 := s1.(cursors := map[i := Cursor(0, bound)]), s1.(cursors := map[i := Cursor(1, bound)]);
    assert Step(s0, Add(o)) == s1 && Step(s1, Begin(i)) == s2 && Step(s2, Next(i)) == s3;
    RunCons(s2, Next(i), []);
    RunCons(s1, Begin(i), [Next(i)]);
    RunCons(s0, Add(o), [Begin(i), Next(i)]);
  }

  lemma RunCons<I>(s: State<I>, e: Event<I>, es: seq<Event<I>>)
    requires Enabled(s, e) && RunOk(Step(s, e), es)
    ensures RunOk(s, [e] + es) && Run(s, [e] + es) == Run(Step(s, e), es)
  {
    assert ([e] + es)[1..] == es;
  }

  // ---------------------------------------------------------------- the abstract ordered set

  /** The observers of the list, in order. */
  function Members(slots: seq<Pointer>): seq<Pointer> {
    Compacted(slots)
  }

  function Without(m: seq<Pointer>, o: Pointer): seq<Pointer> {
    if m == [] then []
    else if m[0] == o then Without(m[1..], o)
    else [m[0]] + Without(m[1..], o)
  }

  /** What a caller sees: a sequence without duplicates that is appended to, deleted from and
      emptied, and that iterators do not change. */
  function SetStep<I>(m: seq<Pointer>, e: Event<I>): seq<Pointer> {
    match e
    case Add(o) => if o in m then m else m + [o]
    case Remove(o) => Without(m, o)
    case Clear => []
    case _ => m
  }

  function SetRun<I>(m: seq<Pointer>, es: seq<Event<I>>): seq<Pointer>
    decreases |es|
  {
    if es == [] then m else SetRun(SetStep(m, es[0]), es[1..])
  }

  lemma {:induction false} CompactedConcat(a: seq<Pointer>, b: seq<Pointer>)
    ensures Compacted(a + b) == Compacted(a) + Compacted(b)
  {
    if a == [] {
      assert a + b == b;
    } else {
      ConsConcat(a, b);
      CompactedConcat(a[1..], b);
      Assoc([a[0]], Compacted(a[1..]), Compacted(b));
    }
  }

  lemma {:induction false} CompactedFull(slots: seq<Pointer>)
    requires NULL !in slots
    ensures Compacted(slots) == slots
  {
    if slots != [] {
      CompactedFull(slots[1..]);
    }
  }

  lemma {:induction false} WithoutConcat(a: seq<Pointer>, b: seq<Pointer>, o: Pointer)
    ensures Without(a + b, o) == Without(a, o) + Without(b, o)
  {
    if a == [] {
      assert a + b == b;
    } else {
      ConsConcat(a, b);
      WithoutConcat(a[1..], b, o);
      Assoc([a[0]], Without(a[1..], o), Without(b, o));
    }
  }

  lemma {:induction false} WithoutAbsent(m: seq<Pointer>, o: Pointer)
    requires o !in m
    ensures Without(m, o) == m
  {
    if m != [] {
      WithoutAbsent(m[1..], o);
    }
  }

  lemma {:induction false} CompactedMarked(n: nat)
    ensures Compacted(seq(n, _ => NULL)) == []
  {
    if n > 0 {
      var a: seq<Pointer> := seq(n, _ => NULL);
      assert a[1..] == seq(n - 1, _ => NULL);
      CompactedMarked(n - 1);
    }
  }

  lemma CompactedMiddle(pre: seq<Pointer>, p: Pointer, post: seq<Pointer>)
    ensures Compacted(pre + ([p] + post))
            == if p == NULL then Compacted(pre) + Compacted(post) else Compacted(pre) + ([p] + Compacted(post))
  {
    CompactedConcat(pre, [p] + post);
    assert ([p] + post)[1..] == post;
  }

  lemma WithoutMiddle(a: seq<Pointer>, o: Pointer, b: seq<Pointer>)
    requires o !in a && o !in b
    ensures Without(a + ([o] + b), o) == a + b
  {
    WithoutConcat(a, [o] + b, o);
    assert ([o] + b)[1..] == b;
    WithoutAbsent(a, o);
    WithoutAbsent(b, o);
  }

  lemma EraseMiddle(pre: seq<Pointer>, o: Pointer, post: seq<Pointer>)
    requires o != NULL && o !in pre && o !in post
    ensures Compacted(pre + post) == Compacted(pre + ([NULL] + post)) == Without(Compacted(pre + ([o] + post)), o)
  {
    CompactedMiddle(pre, o, post);
    CompactedMiddle(pre, NULL, post);
    CompactedConcat(pre, post);
    CompactedContents(pre);
    CompactedContents(post);
    WithoutMiddle(Compacted(pre), o, Compacted(post));
  }

  lemma OnlySlot(slots: seq<Pointer>, k: nat)
    requires UnmarkedDistinct(slots) && k < |slots| && slots[k] != NULL
    ensures slots[k] !in slots[..k] && slots[k] !in slots[k + 1..]
  {
    var post := slots[k + 1..];
    assert forall j :: 0 <= j < |post| ==> post[j] == slots[k + 1 + j];
  }

  lemma RemoveMembers<I>(s: State<I>, o: Pointer)
    requires Valid(s) && o != NULL
    ensures Members(RemoveObserver(s, o).slots) == Without(Members(s.slots), o)
  {
    var k := Find(s.slots, o);
    if k == |s.slots| {
      CompactedContents(s.slots);
      assert o !in s.slots;
      WithoutAbsent(Compacted(s.slots), o);
    } else {
      OnlySlot(s.slots, k);
      EraseMiddle(s.slots[..k], o, s.slots[k + 1..]);
      SplitAt(s.slots, k);
      UpdateAt(s.slots, k, NULL);
    }
  }

  /** One operation on the vector is one operation on the ordered set. */
  lemma StepRefinesSet<I>(s: State<I>, e: Event<I>)
    requires Valid(s) && Enabled(s, e)
    ensures Members(Step(s, e).slots) == SetStep(Members(s.slots), e)
  {
    CompactedContents(s.slots);
    match e
    case Add(o) =>
      CompactedConcat(s.slots, [o]);
      assert Compacted([o]) == [o];
      assert HasObserver(s, o) <==> o in s.slots;
    case Remove(o) => RemoveMembers(s, o);
    case Clear => CompactedMarked(|s.slots|);
    case Drop(i) => CompactedFull(Compacted(s.slots));
    case Assign(dst, src) => CompactedFull(Compacted(s.slots));
    case _ =>
  }

  lemma {:induction false} RunRefinesSet<I>(s: State<I>, es: seq<Event<I>>)
    requires Valid(s) && RunOk(s, es)
    ensures Valid(Run(s, es))
    ensures Members(Run(s, es).slots) == SetRun(Members(s.slots), es)
    decreases |es|
  {
    if es != [] {
      StepKeepsValid(s, es[0]);
      StepRefinesSet(s, es[0]);
      RunRefinesSet(Step(s, es[0]), es[1..]);
    }
  }

  /** In every reachable state: each cursor is at most min(max_index, number of slots), no observer
      has two unmarked slots, nothing is marked unless an iterator is attached, the unmarked slots
      in order are the abstract set, and HasObserver agrees with it. */
  lemma ReachableStates<I>(policy: Policy, es: seq<Event<I>>)
    requires RunOk(Init<I>(policy), es)
    ensures var s := Run(Init<I>(policy), es);
            && Valid(s)
            && Members(s.slots) == SetRun([], es)
            && (forall o :: HasObserver(s, o) <==> o in SetRun([], es))
  {
    RunRefinesSet(Init<I>(policy), es);
    CompactedContents(Run(Init<I>(policy), es).slots);
  }

  // ---------------------------------------------------------------- what a live iterator preserves

  /** `t` has every slot of `s`, at the same index, either as it was or marked. */
  ghost predicate Grows(s: seq<Pointer>, t: seq<Pointer>) {
    |s| <= |t| && forall k :: 0 <= k < |s| ==> t[k] == s[k] || t[k] == NULL
  }

  /** `e` does not construct, move, reassign or drop iterator `i`. */
  predicate Spares<I(==)>(e: Event<I>, i: I) {
    match e
    case Construct(j) => j != i
    case Begin(j) => j != i
    case Next(j) => j != i
    case Copy(_, dst) => dst != i
    case Assign(dst, _) => dst != i
    case Drop(j) => j != i
    case _ => true
  }

  /** While an iterator lives the vector only grows and slots only get marked, so the cursor keeps
      its meaning. */
  lemma StepUnderLiveIterator<I>(s: State<I>, e: Event<I>, i: I)
    requires i in s.cursors && Spares(e, i)
    ensures Grows(s.slots, Step(s, e).slots)
    ensures i in Step(s, e).cursors && Step(s, e).cursors[i] == s.cursors[i]
    ensures Step(s, e).policy == s.policy
  {
  }

  /** The vector shrinks only when no iterator is attached, or when the only one attached is being
      dropped or reassigned. */
  lemma ShrinksOnlyAtTheLastIterator<I>(s: State<I>, e: Event<I>)
    ensures |Step(s, e).slots| < |s.slots| ==>
              || s.cursors == map[]
              || (e.Drop? && s.cursors.Keys == {e.i})
              || (e.Assign? && e.dst != e.src && s.cursors.Keys == {e.dst})
  {
  }

  lemma {:induction false} RunUnderLiveIterator<I>(s: State<I>, es: seq<Event<I>>, i: I)
    requires i in s.cursors && (forall e :: e in es ==> Spares(e, i))
    ensures Grows(s.slots, Run(s, es).slots)
    ensures i in Run(s, es).cursors && Run(s, es).cursors[i] == s.cursors[i]
    ensures Run(s, es).policy == s.policy
    decreases |es|
  {
    if es != [] {
      var t := Step(s, es[0]);
      assert es[0] in es;
      StepUnderLiveIterator(s, es[0], i);
      assert forall e :: e in es[1..] ==> e in es;
      RunUnderLiveIterator(t, es[1..], i);
      var u := Run(t, es[1..]);
      forall k | 0 <= k < |s.slots| ensures u.slots[k] == s.slots[k] || u.slots[k] == NULL {
        assert t.slots[k] == s.slots[k] || t.slots[k] == NULL;
      }
    }
  }
}
